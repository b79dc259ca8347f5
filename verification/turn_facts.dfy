/** What `make_moves` guarantees, stated about `Boards.Turn` and the pieces
    it is made of. */
module TurnFacts {
  import opened Common
  import opened Geometry
  import opened Snakes
  import opened Boards

  // ---------------------------------------------------------------------
  // Feeding

  lemma {:induction false} FeedTimesSucc(s: Snake, n: nat)
    requires |s.body| >= 1
    ensures Feed(FeedTimes(s, n)) == FeedTimes(s, n + 1)
    decreases n
  {
    if n > 0 {
      FeedTimesSucc(Feed(s), n - 1);
    }
  }

  /** After the feeding loops each snake has been fed once per food cell
      lying on its stored head, counted with repetition. */
  lemma {:induction false} FeedAllCounts(snakes: seq<Snake>, food: seq<Coordinate>, i: nat)
    requires BodiesAtLeast(snakes, 1) && i < |snakes|
    ensures FeedAll(snakes, food)[i] == FeedTimes(snakes[i], multiset(food)[snakes[i].head])
    decreases |food|
  {
    if food != [] {
      var front, f, h := food[..|food| - 1], food[|food| - 1], snakes[i].head;
      var n := multiset(front)[h];
      FeedAllCounts(snakes, front, i);
      FeedAllLast(snakes, food, i);
      CountLast(food, h);
      if f == h {
        FeedTimesSucc(snakes[i], n);
      }
    }
  }

  /** One more food cell feeds the snakes whose stored head is on it. */
  lemma FeedAllLast(snakes: seq<Snake>, food: seq<Coordinate>, i: nat)
    requires BodiesAtLeast(snakes, 1) && i < |snakes| && food != []
    ensures var before := FeedAll(snakes, food[..|food| - 1]);
      && before[i].head == snakes[i].head
      && FeedAll(snakes, food)[i] == if food[|food| - 1] == snakes[i].head then Feed(before[i]) else before[i]
  {
  }

  lemma CountLast(food: seq<Coordinate>, h: Coordinate)
    requires food != []
    ensures var n := |food| - 1;
      multiset(food)[h] == multiset(food[..n])[h] + if food[n] == h then 1 else 0
  {
    assert food == food[..|food| - 1] + [food[|food| - 1]];
  }

  /** Feeding does not depend on the order of the food list. */
  lemma FeedingOrderIndependent(snakes: seq<Snake>, food1: seq<Coordinate>, food2: seq<Coordinate>)
    requires BodiesAtLeast(snakes, 1)
    requires multiset(food1) == multiset(food2)
    ensures FeedAll(snakes, food1) == FeedAll(snakes, food2)
  {
    forall i | 0 <= i < |snakes|
      ensures FeedAll(snakes, food1)[i] == FeedAll(snakes, food2)[i]
    {
      FeedAllCounts(snakes, food1, i);
      FeedAllCounts(snakes, food2, i);
    }
  }

  /** A food cell is kept exactly when no stored head is on it; kept cells
      keep their order and their multiplicity. */
  lemma {:induction false} UneatenShape(food: seq<Coordinate>, snakes: seq<Snake>)
    ensures SubsequenceOf(Uneaten(food, snakes), food)
    ensures forall f :: multiset(Uneaten(food, snakes))[f] == if Eaten(f, snakes) then 0 else multiset(food)[f]
    ensures forall f :: f in Uneaten(food, snakes) <==> f in food && !Eaten(f, snakes)
    decreases |food|
  {
    if food != [] {
      var front := food[..|food| - 1];
      var f := food[|food| - 1];
      assert food == front + [f];
      UneatenShape(front, snakes);
      assert Uneaten(food, snakes) == Uneaten(front, snakes) + (if Eaten(f, snakes) then [] else [f]);
      if Eaten(f, snakes) {
        SubsequenceSkip(Uneaten(front, snakes), front, f);
        assert Uneaten(food, snakes) == Uneaten(front, snakes);
      } else {
        SubsequenceKeep(Uneaten(front, snakes), front, f);
        assert Uneaten(food, snakes) == Uneaten(front, snakes) + [f];
      }
      assert SubsequenceOf(Uneaten(food, snakes), food);
      var u := Uneaten(food, snakes);
      forall g ensures g in u <==> g in food && !Eaten(g, snakes) {
        assert g in u <==> multiset(u)[g] > 0;
        assert g in food <==> multiset(food)[g] > 0;
      }
    }
  }

  // ---------------------------------------------------------------------
  // Elimination

  predicate Playable(s: Snake, width: U8, height: U8)
  {
    !OutOfBounds(s, width, height) && s.health != 0
  }

  /** The bounds pass keeps the snakes in their order. */
  lemma {:induction false} InBoundsOrdered(snakes: seq<Snake>, width: U8, height: U8)
    ensures SubsequenceOf(InBounds(snakes, width, height), snakes)
    decreases |snakes|
  {
    if snakes != [] {
      var front := snakes[..|snakes| - 1];
      var s := snakes[|snakes| - 1];
      assert snakes == front + [s];
      InBoundsOrdered(front, width, height);
      if Playable(s, width, height) {
        SubsequenceKeep(InBounds(front, width, height), front, s);
        assert InBounds(snakes, width, height) == InBounds(front, width, height) + [s];
      } else {
        SubsequenceSkip(InBounds(front, width, height), front, s);
        assert InBounds(snakes, width, height) == InBounds(front, width, height);
      }
    }
  }

  /** The bounds pass keeps exactly the playable snakes, each as often as it
      occurs. */
  lemma {:induction false} InBoundsCounts(snakes: seq<Snake>, width: U8, height: U8, s: Snake)
    ensures multiset(InBounds(snakes, width, height))[s] ==
      if Playable(s, width, height) then multiset(snakes)[s] else 0
    ensures s in InBounds(snakes, width, height) <==> s in snakes && Playable(s, width, height)
    decreases |snakes|
  {
    if snakes != [] {
      var front := snakes[..|snakes| - 1];
      var last := snakes[|snakes| - 1];
      assert snakes == front + [last];
      InBoundsCounts(front, width, height, s);
      var r := InBounds(snakes, width, height);
      assert s in r <==> multiset(r)[s] > 0;
      assert s in snakes <==> multiset(snakes)[s] > 0;
    }
  }

  /** The collision pass keeps the snakes of `candidates` in order. */
  lemma {:induction false} SurvivorsOrdered(candidates: seq<Snake>, field: seq<Snake>)
    requires BodiesAtLeast(candidates, 1) && BodiesAtLeast(field, 1)
    ensures SubsequenceOf(SurvivorsOf(candidates, field), candidates)
    decreases |candidates|
  {
    if candidates != [] {
      var front := candidates[..|candidates| - 1];
      var s := candidates[|candidates| - 1];
      assert candidates == front + [s];
      SurvivorsOrdered(front, field);
      if Survives(s, field) {
        SubsequenceKeep(SurvivorsOf(front, field), front, s);
        assert SurvivorsOf(candidates, field) == SurvivorsOf(front, field) + [s];
      } else {
        SubsequenceSkip(SurvivorsOf(front, field), front, s);
        assert SurvivorsOf(candidates, field) == SurvivorsOf(front, field);
      }
    }
  }

  /** The collision pass keeps exactly the snakes that survive against the
      fixed list, each as often as it occurs. */
  lemma {:induction false} SurvivorsCounts(candidates: seq<Snake>, field: seq<Snake>, s: Snake)
    requires BodiesAtLeast(candidates, 1) && BodiesAtLeast(field, 1)
    ensures s in candidates ==>
      |s.body| >= 1 &&
      multiset(SurvivorsOf(candidates, field))[s] == if Survives(s, field) then multiset(candidates)[s] else 0
    ensures s !in candidates ==> multiset(SurvivorsOf(candidates, field))[s] == 0
    decreases |candidates|
  {
    if candidates != [] {
      var front, last := candidates[..|candidates| - 1], candidates[|candidates| - 1];
      assert candidates == front + [last];
      SurvivorsCounts(front, field, s);
      var keep := s in candidates && Survives(s, field);
      FilterCountStep(SurvivorsOf(front, field), front, last, Survives(last, field), s, keep);
    }
  }

  /** One step of counting an element through an order-keeping filter that
      decides `last` by `keepLast` and `s` by `keepS`. */
  lemma FilterCountStep<T>(rest: seq<T>, front: seq<T>, last: T, keepLast: bool, s: T, keepS: bool)
    requires multiset(rest)[s] == if keepS then multiset(front)[s] else 0
    requires s == last ==> keepLast == keepS
    ensures multiset(rest + if keepLast then [last] else [])[s] == if keepS then multiset(front + [last])[s] else 0
  {
  }

  /** Survival reads the list only through its members: two lists holding
      the same snakes, in any order, give every snake the same verdict. */
  lemma SurvivesSnapshot(s: Snake, field1: seq<Snake>, field2: seq<Snake>)
    requires |s.body| >= 1 && BodiesAtLeast(field1, 1) && BodiesAtLeast(field2, 1)
    requires forall o :: o in field1 <==> o in field2
    ensures Survives(s, field1) == Survives(s, field2)
  {
    if exists k :: 0 <= k < |field1| && s.id != field1[k].id && BodyCollision(s, field1[k]) {
      var k :| 0 <= k < |field1| && s.id != field1[k].id && BodyCollision(s, field1[k]);
      assert field1[k] in field2;
    }
    if exists k :: 0 <= k < |field2| && s.id != field2[k].id && BodyCollision(s, field2[k]) {
      var k :| 0 <= k < |field2| && s.id != field2[k].id && BodyCollision(s, field2[k]);
      assert field2[k] in field1;
    }
    if exists k :: 0 <= k < |field1| && s.id != field1[k].id && LostHeadCollision(s, field1[k]) {
      var k :| 0 <= k < |field1| && s.id != field1[k].id && LostHeadCollision(s, field1[k]);
      assert field1[k] in field2;
    }
    if exists k :: 0 <= k < |field2| && s.id != field2[k].id && LostHeadCollision(s, field2[k]) {
      var k :| 0 <= k < |field2| && s.id != field2[k].id && LostHeadCollision(s, field2[k]);
      assert field2[k] in field1;
    }
  }

  /** Reordering the snakes before the collision pass reorders the survivors
      and changes nothing else: the same snakes survive, as often. */
  lemma CollisionOrderIndependent(snakes: seq<Snake>, permuted: seq<Snake>)
    requires BodiesAtLeast(snakes, 1)
    requires multiset(permuted) == multiset(snakes)
    ensures BodiesAtLeast(permuted, 1)
    ensures multiset(SurvivorsOf(permuted, permuted)) == multiset(SurvivorsOf(snakes, snakes))
  {
    assert forall o :: o in permuted <==> o in snakes by {
      forall o ensures o in permuted <==> o in snakes {
        assert o in permuted <==> multiset(permuted)[o] > 0;
        assert o in snakes <==> multiset(snakes)[o] > 0;
      }
    }
    forall i | 0 <= i < |permuted| ensures |permuted[i].body| >= 1 {
      assert permuted[i] in snakes;
    }
    forall s ensures multiset(SurvivorsOf(permuted, permuted))[s] == multiset(SurvivorsOf(snakes, snakes))[s] {
      SurvivorsCounts(snakes, snakes, s);
      SurvivorsCounts(permuted, permuted, s);
      if s in snakes {
        SurvivesSnapshot(s, permuted, snakes);
      }
    }
  }

  // ---------------------------------------------------------------------
  // The whole transition

  /** The surviving snakes are playable, judged collision-free against the
      post-bounds list, and appear in their order after feeding; the food
      left is the uneaten food in order; `you` follows its id. */
  lemma TurnOutcome(r: Snapshot, moves: seq<Move>)
    requires Turn(r, moves).Ok?
    ensures var moved := MoveAll(r.board.snakes, moves).value;
      var fed := FeedAll(moved, r.board.food);
      var alive := InBounds(fed, r.board.width, r.board.height);
      var next := Turn(r, moves).value;
      && SubsequenceOf(next.board.snakes, fed)
      && BodiesAtLeast(alive, 1)
      && (forall s :: s in next.board.snakes ==>
            s in alive && Playable(s, r.board.width, r.board.height) && |s.body| >= 1 && Survives(s, alive))
      && (forall s :: s in alive && |s.body| >= 1 && Survives(s, alive) ==> s in next.board.snakes)
      && SubsequenceOf(next.board.food, r.board.food)
      && (forall f :: f in next.board.food <==> f in r.board.food && !Eaten(f, moved))
      && next.you.id == r.you.id
      && (HasId(next.board.snakes, r.you.id) ==> next.you in next.board.snakes)
      && (!HasId(next.board.snakes, r.you.id) ==> next.you == r.you)
  {
    var moved := MoveAll(r.board.snakes, moves).value;
    var fed := FeedAll(moved, r.board.food);
    var alive := InBounds(fed, r.board.width, r.board.height);
    InBoundsBodies(fed, r.board.width, r.board.height, 1);
    var survivors := SurvivorsOf(alive, alive);
    InBoundsOrdered(fed, r.board.width, r.board.height);
    SurvivorsOrdered(alive, alive);
    SubsequenceTrans(survivors, alive, fed);
    UneatenShape(r.board.food, moved);
    forall s | s in survivors
      ensures s in alive && Playable(s, r.board.width, r.board.height) && |s.body| >= 1 && Survives(s, alive)
    {
      SurvivorsCounts(alive, alive, s);
      InBoundsCounts(fed, r.board.width, r.board.height, s);
      assert multiset(survivors)[s] > 0;
    }
    forall s | s in alive && |s.body| >= 1 && Survives(s, alive) ensures s in survivors {
      SurvivorsCounts(alive, alive, s);
      assert multiset(alive)[s] > 0;
    }
  }

  /** Every snake has a body of at least two cells and some health left. */
  predicate WellFormed(snakes: seq<Snake>)
  {
    forall i :: 0 <= i < |snakes| ==> |snakes[i].body| >= 2 && snakes[i].health >= 1
  }

  /** Every snake has a move carrying its id. */
  predicate Covers(moves: seq<Move>, snakes: seq<Snake>)
  {
    forall i :: 0 <= i < |snakes| ==> exists k :: 0 <= k < |moves| && moves[k].id == snakes[i].id
  }

  /** On a well-formed board a covering move-set never panics, and the board
      it leaves is well-formed again. */
  lemma TurnKeepsWellFormed(r: Snapshot, moves: seq<Move>)
    requires WellFormed(r.board.snakes) && Covers(moves, r.board.snakes)
    ensures Turn(r, moves).Ok?
    ensures WellFormed(Turn(r, moves).value.board.snakes)
  {
    CoveringMovesSucceed(r.board.snakes, moves);
    var moved := MoveAll(r.board.snakes, moves).value;
    var fed := FeedAll(moved, r.board.food);
    assert BodiesAtLeast(fed, 2);
    EliminateKeepsWellFormed(fed, r.board.width, r.board.height);
    TurnAfterMovement(r, moves);
  }

  /** Every snake finds its move, so the movement loop does not panic. */
  lemma CoveringMovesSucceed(snakes: seq<Snake>, moves: seq<Move>)
    requires WellFormed(snakes) && Covers(moves, snakes)
    ensures MoveAll(snakes, moves).Ok?
  {
    forall i | 0 <= i < |snakes| ensures MoveSnake(snakes[i], moves).Ok? {
      var k :| 0 <= k < |moves| && moves[k].id == snakes[i].id;
      assert MovePosition(moves, snakes[i].id).Some?;
    }
  }

  /** The snakes both elimination passes keep have bodies of two cells or
      more, when all of them did, and some health left. */
  lemma EliminateKeepsWellFormed(fed: seq<Snake>, width: U8, height: U8)
    requires BodiesAtLeast(fed, 2)
    ensures WellFormed(Eliminate(fed, width, height))
  {
    InBoundsBodies(fed, width, height, 2);
    var alive := InBounds(fed, width, height);
    var next := Eliminate(fed, width, height);
    assert next == SurvivorsOf(alive, alive);
    forall i | 0 <= i < |next| ensures |next[i].body| >= 2 && next[i].health >= 1 {
      var s := next[i];
      SurvivorsCounts(alive, alive, s);
      InBoundsCounts(fed, width, height, s);
      assert s in next;
      assert multiset(next)[s] > 0;
      var j :| 0 <= j < |alive| && alive[j] == s;
    }
  }

  /** The stored head sits on the first body cell. */
  predicate HeadsCurrent(snakes: seq<Snake>)
  {
    forall i :: 0 <= i < |snakes| ==> |snakes[i].body| >= 1 && snakes[i].head == snakes[i].body[0]
  }

  /** A list whose every snake collides with its own body has no survivors. */
  lemma {:induction false} SelfCollidersAllDie(candidates: seq<Snake>, field: seq<Snake>)
    requires BodiesAtLeast(candidates, 1) && BodiesAtLeast(field, 1)
    requires forall i :: 0 <= i < |candidates| ==> BodyCollision(candidates[i], candidates[i])
    ensures SurvivorsOf(candidates, field) == []
    decreases |candidates|
  {
    if candidates != [] {
      SelfCollidersAllDie(candidates[..|candidates| - 1], field);
    }
  }

  /** With current heads, every snake after movement and feeding has its
      (unchanged) head on its own second segment. */
  lemma StaleHeadsSelfCollide(snakes: seq<Snake>, moves: seq<Move>, food: seq<Coordinate>)
    requires HeadsCurrent(snakes)
    requires MoveAll(snakes, moves).Ok?
    ensures var fed := FeedAll(MoveAll(snakes, moves).value, food);
      forall i :: 0 <= i < |fed| ==> BodyCollision(fed[i], fed[i])
  {
    var moved := MoveAll(snakes, moves).value;
    var fed := FeedAll(moved, food);
    forall i | 0 <= i < |fed| ensures BodyCollision(fed[i], fed[i]) {
      assert moved[i] == MoveSnake(snakes[i], moves).value;
      assert moved[i].body[1] == fed[i].body[..|moved[i].body|][1];
    }
  }

  /** Dropping the out-of-bounds and starved snakes keeps only snakes that
      collide with themselves when every snake did. */
  lemma {:induction false} InBoundsKeepsSelfCollision(snakes: seq<Snake>, width: U8, height: U8)
    requires BodiesAtLeast(snakes, 1)
    requires forall i :: 0 <= i < |snakes| ==> BodyCollision(snakes[i], snakes[i])
    ensures var alive := InBounds(snakes, width, height);
      BodiesAtLeast(alive, 1) && forall i :: 0 <= i < |alive| ==> BodyCollision(alive[i], alive[i])
    decreases |snakes|
  {
    if snakes != [] {
      var n := |snakes| - 1;
      var front, last := snakes[..n], snakes[n];
      InBoundsKeepsSelfCollision(front, width, height);
      var before := InBounds(front, width, height);
      var tail := if OutOfBounds(last, width, height) || last.health == 0 then [] else [last];
      assert InBounds(snakes, width, height) == before + tail;
      assert BodyCollision(last, last);
    }
  }

  /** As written, `apply_move` leaves `head` on the cell the snake just left,
      which is now `body[1]`; so when every stored head starts on its first
      body cell, every snake collides with itself and the turn removes all of
      them. */
  lemma StaleHeadEmptiesBoard(r: Snapshot, moves: seq<Move>)
    requires HeadsCurrent(r.board.snakes)
    requires Turn(r, moves).Ok?
    ensures Turn(r, moves).value.board.snakes == []
  {
    var snakes := r.board.snakes;
    var moved := MoveAll(snakes, moves).value;
    var fed := FeedAll(moved, r.board.food);
    var alive := InBounds(fed, r.board.width, r.board.height);
    StaleHeadsSelfCollide(snakes, moves, r.board.food);
    InBoundsKeepsSelfCollision(fed, r.board.width, r.board.height);
    SelfCollidersAllDie(alive, alive);
    TurnAfterMovement(r, moves);
    assert Turn(r, moves).value.board.snakes == Eliminate(fed, r.board.width, r.board.height);
  }
  /** The smallest instance: one snake of two cells on an 11 by 11 board,
      with health 5 and its stored head on its first cell, moving Up into an
      empty cell. The move and the turn succeed, yet the board is left
      without snakes. */
  lemma StaleHeadExample()
    ensures var you := Snake("a", 5, [Coordinate(1, 1), Coordinate(1, 0)], Coordinate(1, 1), 2);
      var r := Snapshot(0, Board(11, 11, [], [], [you]), you);
      && Turn(r, [Move(Up, "a")]).Ok?
      && Turn(r, [Move(Up, "a")]).value.board.snakes == []
  {
    var you := Snake("a", 5, [Coordinate(1, 1), Coordinate(1, 0)], Coordinate(1, 1), 2);
    var r := Snapshot(0, Board(11, 11, [], [], [you]), you);
    var moves := [Move(Up, "a")];
    assert MovePosition(moves, "a") == Some(0);
    assert MoveSnake(you, moves).Ok?;
    assert MoveAll(r.board.snakes, moves).Ok?;
    StaleHeadEmptiesBoard(r, moves);
  }

}
