/** The request of the perft generator and its turn transition
    (`Request::game_over`, `Request::make_moves`).

    The transition is specified by the function `Turn` on snapshot values and
    carried out by the method `Request.MakeMoves`, which updates the fields of
    a `Request` object phase by phase as the source does. */
module Boards {
  import opened Common
  import opened Geometry
  import opened Snakes

  datatype Board = Board(
    height: U8,
    width: U8,
    food: seq<Coordinate>,
    hazards: seq<Coordinate>,
    snakes: seq<Snake>)

  /** One snake's move, addressed by the snake's id. */
  datatype Move = Move(direction: Direction, id: string)

  /** The value of a `Request` at one moment. */
  datatype Snapshot = Snapshot(turn: U32, board: Board, you: Snake)

  predicate HasId(snakes: seq<Snake>, id: string)
  {
    exists i :: 0 <= i < |snakes| && snakes[i].id == id
  }

  /** `game_over`, as written: the game counts as over when the `you` snake
      is STILL on the board, or when at most one snake is left. */
  predicate GameOver(r: Snapshot)
  {
    if HasId(r.board.snakes, r.you.id) then true
    else if |r.board.snakes| == 1 then true
    else if |r.board.snakes| == 0 then true
    else false
  }

  lemma GameOverIff(r: Snapshot)
    ensures GameOver(r) <==> HasId(r.board.snakes, r.you.id) || |r.board.snakes| <= 1
  {
  }

  /** `game_over` as its own comments describe it: over once `you` is dead
      (gone from the board) or at most one snake is alive. */
  predicate IntendedGameOver(r: Snapshot)
  {
    !HasId(r.board.snakes, r.you.id) || |r.board.snakes| <= 1
  }

  /** The intended check lets a game go on exactly while `you` is on the
      board with at least one other snake. With two or more snakes on the
      board the written check answers the opposite, so a live `you` with an
      opponent ends the game as written and continues it as intended. */
  lemma GameOverInverted(r: Snapshot)
    ensures !IntendedGameOver(r) <==> HasId(r.board.snakes, r.you.id) && |r.board.snakes| >= 2
    ensures |r.board.snakes| >= 2 ==> (GameOver(r) <==> !IntendedGameOver(r))
    ensures |r.board.snakes| <= 1 ==> GameOver(r) && IntendedGameOver(r)
  {
  }

  // ---------------------------------------------------------------------
  // Movement

  /** `moves.iter().position(|s| s.id == id)`. */
  function MovePosition(moves: seq<Move>, id: string): (r: Option<nat>)
    ensures r.Some? ==> r.value < |moves| && moves[r.value].id == id
    ensures r.Some? ==> forall k :: 0 <= k < r.value ==> moves[k].id != id
    ensures r.None? <==> forall k :: 0 <= k < |moves| ==> moves[k].id != id
  {
    FirstIndex(moves, (m: Move) => m.id == id)
  }

  /** One snake takes the first move carrying its id; no such move panics on
      `unwrap`. */
  function MoveSnake(s: Snake, moves: seq<Move>): Result<Snake>
  {
    match MovePosition(moves, s.id)
    case None => Err(MissingMove)
    case Some(p) => ApplyMove(s, moves[p].direction)
  }

  predicate BodiesAtLeast(snakes: seq<Snake>, n: nat)
  {
    forall i :: 0 <= i < |snakes| ==> |snakes[i].body| >= n
  }

  /** The movement loop over the snakes in board order; the first snake that
      panics ends the whole transition. */
  function MoveAll(snakes: seq<Snake>, moves: seq<Move>): (r: Result<seq<Snake>>)
    ensures r.Ok? <==> forall i :: 0 <= i < |snakes| ==> MoveSnake(snakes[i], moves).Ok?
    ensures r.Ok? ==> |r.value| == |snakes| && BodiesAtLeast(r.value, 2)
    ensures r.Ok? ==> forall i :: 0 <= i < |snakes| ==> r.value[i] == MoveSnake(snakes[i], moves).value
  {
    var steps := seq(|snakes|, i requires 0 <= i < |snakes| => MoveSnake(snakes[i], moves));
    var r := Collect(steps);
    assert forall i :: 0 <= i < |snakes| ==> steps[i] == MoveSnake(snakes[i], moves);
    CollectedBodies(steps);
    r
  }

  /** Collecting moved snakes keeps their bodies of at least two cells. */
  lemma CollectedBodies(steps: seq<Result<Snake>>)
    requires forall i :: 0 <= i < |steps| && steps[i].Ok? ==> |steps[i].value.body| >= 2
    ensures Collect(steps).Ok? ==> BodiesAtLeast(Collect(steps).value, 2)
  {
  }

  /** The panic that ends the movement loop is the first failing snake's. */
  lemma {:induction false} MoveAllFirstFailure(snakes: seq<Snake>, moves: seq<Move>, i: nat)
    requires i < |snakes| && MoveSnake(snakes[i], moves).Err?
    requires forall j :: 0 <= j < i ==> MoveSnake(snakes[j], moves).Ok?
    ensures MoveAll(snakes, moves) == Err(MoveSnake(snakes[i], moves).error)
  {
    CollectFirstFailure(seq(|snakes|, j requires 0 <= j < |snakes| => MoveSnake(snakes[j], moves)), i);
  }

  // ---------------------------------------------------------------------
  // Feeding

  /** `a` is `b` with possibly longer bodies: same ids and stored heads, and
      each body of `b` is a prefix of the matching body of `a`. */
  predicate Grown(a: seq<Snake>, b: seq<Snake>)
  {
    && |a| == |b|
    && forall i :: 0 <= i < |a| ==>
      && a[i].id == b[i].id && a[i].head == b[i].head
      && |a[i].body| >= |b[i].body| && a[i].body[..|b[i].body|] == b[i].body
  }

  /** The inner feeding loop for one food cell: every snake whose stored head
      is on it is fed. */
  function FeedEach(snakes: seq<Snake>, f: Coordinate): (r: seq<Snake>)
    requires BodiesAtLeast(snakes, 1)
    ensures Grown(r, snakes) && BodiesAtLeast(r, 1)
  {
    seq(|snakes|, i requires 0 <= i < |snakes| =>
      if f == snakes[i].head then Feed(snakes[i]) else snakes[i])
  }

  /** The outer feeding loop over the food cells in board order. */
  function FeedAll(snakes: seq<Snake>, food: seq<Coordinate>): (r: seq<Snake>)
    requires BodiesAtLeast(snakes, 1)
    ensures Grown(r, snakes) && BodiesAtLeast(r, 1)
    decreases |food|
  {
    if food == [] then snakes
    else
      var before := FeedAll(snakes, food[..|food| - 1]);
      var r := FeedEach(before, food[|food| - 1]);
      assert forall i :: 0 <= i < |r| ==> r[i].body[..|snakes[i].body|] == r[i].body[..|before[i].body|][..|snakes[i].body|];
      r
  }

  /** Some snake's stored head is on `f`. */
  predicate Eaten(f: Coordinate, snakes: seq<Snake>)
  {
    exists i :: 0 <= i < |snakes| && snakes[i].head == f
  }

  /** `new_food`: the food cells no snake ate, in board order. */
  function Uneaten(food: seq<Coordinate>, snakes: seq<Snake>): seq<Coordinate>
    decreases |food|
  {
    if food == [] then []
    else
      var f := food[|food| - 1];
      Uneaten(food[..|food| - 1], snakes) + (if Eaten(f, snakes) then [] else [f])
  }

  /** One more food cell: the outer loop feeds once more and keeps the cell
      when nobody ate it. */
  lemma FeedStep(snakes: seq<Snake>, food: seq<Coordinate>, j: nat)
    requires BodiesAtLeast(snakes, 1) && j < |food|
    ensures FeedAll(snakes, food[..j + 1]) == FeedEach(FeedAll(snakes, food[..j]), food[j])
    ensures Uneaten(food[..j + 1], snakes) ==
      Uneaten(food[..j], snakes) + (if Eaten(food[j], snakes) then [] else [food[j]])
  {
    assert food[..j + 1][..j] == food[..j];
  }

  // ---------------------------------------------------------------------
  // Elimination

  /** The first elimination pass: out of bounds or starved snakes are dropped. */
  function InBounds(snakes: seq<Snake>, width: U8, height: U8): seq<Snake>
    decreases |snakes|
  {
    if snakes == [] then []
    else
      var s := snakes[|snakes| - 1];
      InBounds(snakes[..|snakes| - 1], width, height) +
        (if OutOfBounds(s, width, height) then []
         else if s.health == 0 then []
         else [s])
  }

  /** No collision condition fires for `s` against the fixed list `field`. */
  predicate Survives(s: Snake, field: seq<Snake>)
    requires |s.body| >= 1 && BodiesAtLeast(field, 1)
  {
    && !BodyCollision(s, s)
    && !(exists k :: 0 <= k < |field| && s.id != field[k].id && BodyCollision(s, field[k]))
    && !(exists k :: 0 <= k < |field| && s.id != field[k].id && LostHeadCollision(s, field[k]))
  }

  /** The second elimination pass: the snakes of `candidates` that survive
      against `field`, in order. The source passes the same list as both. */
  function SurvivorsOf(candidates: seq<Snake>, field: seq<Snake>): seq<Snake>
    requires BodiesAtLeast(candidates, 1) && BodiesAtLeast(field, 1)
    decreases |candidates|
  {
    if candidates == [] then []
    else
      var s := candidates[|candidates| - 1];
      SurvivorsOf(candidates[..|candidates| - 1], field) + (if Survives(s, field) then [s] else [])
  }

  lemma {:induction false} InBoundsBodies(snakes: seq<Snake>, width: U8, height: U8, n: nat)
    requires BodiesAtLeast(snakes, n)
    ensures BodiesAtLeast(InBounds(snakes, width, height), n)
    decreases |snakes|
  {
    if snakes != [] {
      InBoundsBodies(snakes[..|snakes| - 1], width, height, n);
    }
  }

  /** `snakes.iter().position(|s| s.id == id)`. */
  function SnakePosition(snakes: seq<Snake>, id: string): (r: Option<nat>)
    ensures r.Some? ==> r.value < |snakes| && snakes[r.value].id == id
    ensures r.Some? ==> forall k :: 0 <= k < r.value ==> snakes[k].id != id
    ensures r.None? <==> !HasId(snakes, id)
  {
    FirstIndex(snakes, (s: Snake) => s.id == id)
  }

  // ---------------------------------------------------------------------
  // The whole transition

  /** `make_moves` on a snapshot: move, feed, drop out-of-bounds and starved
      snakes, drop colliding snakes, rebind `you`. */
  function Turn(r: Snapshot, moves: seq<Move>): (res: Result<Snapshot>)
    ensures res.Ok? <==> MoveAll(r.board.snakes, moves).Ok?
    ensures res.Err? ==> res.error == MoveAll(r.board.snakes, moves).error
    ensures res.Ok? ==>
      && res.value.turn == r.turn
      && res.value.board.width == r.board.width
      && res.value.board.height == r.board.height
      && res.value.board.hazards == r.board.hazards
  {
    match MoveAll(r.board.snakes, moves)
    case Err(e) => Err(e)
    case Ok(moved) => Ok(AfterMovement(r, moved))
  }

  /** What `make_moves` does once every snake has moved into `moved`. */
  function AfterMovement(r: Snapshot, moved: seq<Snake>): Snapshot
    requires BodiesAtLeast(moved, 1)
  {
    var fed := FeedAll(moved, r.board.food);
    Rebind(r, r.board.(
      food := Uneaten(r.board.food, moved),
      snakes := Eliminate(fed, r.board.width, r.board.height)))
  }

  /** Both elimination passes: bounds and starvation, then collisions
      judged against the list the first pass left. */
  function Eliminate(fed: seq<Snake>, width: U8, height: U8): seq<Snake>
    requires BodiesAtLeast(fed, 1)
  {
    var alive := InBounds(fed, width, height);
    InBoundsBodies(fed, width, height, 1);
    SurvivorsOf(alive, alive)
  }

  /** A transition whose movement succeeds is the movement followed by the
      rest of `make_moves`. */
  lemma TurnAfterMovement(r: Snapshot, moves: seq<Move>)
    requires MoveAll(r.board.snakes, moves).Ok?
    ensures Turn(r, moves) == Ok(AfterMovement(r, MoveAll(r.board.snakes, moves).value))
  {
  }

  /** The new board, with `you` refreshed from it when its id survived. */
  function Rebind(r: Snapshot, board: Board): (next: Snapshot)
    ensures next.turn == r.turn && next.board == board
  {
    match SnakePosition(board.snakes, r.you.id)
    case Some(i) => Snapshot(r.turn, board, board.snakes[i])
    case None => Snapshot(r.turn, board, r.you)
  }

  // ---------------------------------------------------------------------
  // The mutable request

  class Request {
    var turn: U32
    var board: Board
    var you: Snake

    function Value(): Snapshot
      reads this
    {
      Snapshot(turn, board, you)
    }

    constructor (s: Snapshot)
      ensures Value() == s
    {
      turn, board, you := s.turn, s.board, s.you;
    }

    /** `(*request).clone()`: a fresh object with the same value. */
    constructor Clone(other: Request)
      ensures Value() == other.Value()
    {
      turn, board, you := other.turn, other.board, other.you;
    }

    /** `make_moves`. A panic is reported as `Fail`; the fields are then left
        as far as the source had got, which nothing reads afterwards. */
    method MakeMoves(moves: seq<Move>) returns (outcome: Outcome)
      modifies this
      ensures outcome.Fail? <==> Turn(old(Value()), moves).Err?
      ensures outcome.Fail? ==> outcome.error == Turn(old(Value()), moves).error
      ensures outcome.Pass? ==> Value() == Turn(old(Value()), moves).value
    {
      ghost var start := Value();
      outcome := MoveSnakes(moves);
      if outcome.Fail? {
        return;
      }
      ghost var moved := board.snakes;
      FeedSnakes();
      ghost var fed := board.snakes;
      EliminateOutOfBounds();
      InBoundsBodies(fed, board.width, board.height, 1);
      EliminateCollisions();
      ghost var before := Value();
      RebindYou();
      TurnAfterMovement(start, moves);
      assert before.board == start.board.(
        food := Uneaten(start.board.food, moved),
        snakes := Eliminate(fed, start.board.width, start.board.height));
    }

    /** The last step of `make_moves`: `you` follows its id onto the new board. */
    method RebindYou()
      modifies this
      ensures Value() == Rebind(old(Value()), old(board))
    {
      var idx := SnakePosition(board.snakes, you.id);
      if idx.Some? {
        you := board.snakes[idx.value];
      }
    }

    /** The movement loop of `make_moves`. */
    method MoveSnakes(moves: seq<Move>) returns (outcome: Outcome)
      modifies this
      ensures outcome.Fail? <==> MoveAll(old(board.snakes), moves).Err?
      ensures outcome.Fail? ==> outcome.error == MoveAll(old(board.snakes), moves).error
      ensures turn == old(turn) && you == old(you)
      ensures outcome.Pass? ==> board == old(board).(snakes := MoveAll(old(board.snakes), moves).value)
    {
      ghost var start := board.snakes;
      var i := 0;
      while i < |board.snakes|
        invariant 0 <= i <= |board.snakes| == |start|
        invariant board == old(board).(snakes := board.snakes)
        invariant turn == old(turn) && you == old(you)
        invariant forall j :: 0 <= j < i ==> MoveSnake(start[j], moves).Ok?
        invariant forall j :: 0 <= j < i ==> board.snakes[j] == MoveSnake(start[j], moves).value
        invariant board.snakes[i..] == start[i..]
      {
        var snake := board.snakes[i];
        assert snake == start[i];
        var movePos := MovePosition(moves, snake.id);
        if movePos.None? {
          MoveAllFirstFailure(start, moves, i);
          return Fail(MissingMove);
        }
        var moved := ApplyMove(snake, moves[movePos.value].direction);
        if moved.Err? {
          MoveAllFirstFailure(start, moves, i);
          return Fail(moved.error);
        }
        board := board.(snakes := board.snakes[i := moved.value]);
        i := i + 1;
      }
      assert MoveAll(start, moves).Ok?;
      assert MoveAll(start, moves).value == board.snakes;
      return Pass;
    }

    /** The feeding loops of `make_moves`. */
    method FeedSnakes()
      requires BodiesAtLeast(board.snakes, 1)
      modifies this
      ensures turn == old(turn) && you == old(you)
      ensures board == old(board).(
        snakes := FeedAll(old(board.snakes), old(board.food)),
        food := Uneaten(old(board.food), old(board.snakes)))
    {
      ghost var moved := board.snakes;
      var foods := board.food;
      var newFood := [];
      for j := 0 to |foods|
        invariant board == old(board).(snakes := board.snakes)
        invariant turn == old(turn) && you == old(you)
        invariant board.snakes == FeedAll(moved, foods[..j])
        invariant newFood == Uneaten(foods[..j], moved)
      {
        var eaten := FeedOn(foods[j]);
        FeedStep(moved, foods, j);
        if !eaten {
          newFood := newFood + [foods[j]];
        }
      }
      assert foods[..|foods|] == foods;
      board := board.(food := newFood);
    }

    /** The inner feeding loop of `make_moves` for one food cell. */
    method FeedOn(food: Coordinate) returns (eaten: bool)
      requires BodiesAtLeast(board.snakes, 1)
      modifies this
      ensures turn == old(turn) && you == old(you)
      ensures board == old(board).(snakes := FeedEach(old(board.snakes), food))
      ensures eaten <==> Eaten(food, old(board.snakes))
    {
      ghost var before := board.snakes;
      eaten := false;
      var k := 0;
      while k < |board.snakes|
        invariant 0 <= k <= |board.snakes| == |before|
        invariant board == old(board).(snakes := board.snakes)
        invariant turn == old(turn) && you == old(you)
        invariant BodiesAtLeast(before, 1)
        invariant forall t :: 0 <= t < k ==>
          board.snakes[t] == if food == before[t].head then Feed(before[t]) else before[t]
        invariant forall t :: k <= t < |before| ==> board.snakes[t] == before[t]
        invariant eaten <==> exists t :: 0 <= t < k && before[t].head == food
      {
        if food == board.snakes[k].head {
          board := board.(snakes := board.snakes[k := Feed(board.snakes[k])]);
          eaten := true;
        }
        k := k + 1;
      }
      assert board.snakes == FeedEach(before, food);
    }

    /** The out-of-bounds and starvation pass of `make_moves`. */
    method EliminateOutOfBounds()
      modifies this
      ensures turn == old(turn) && you == old(you)
      ensures board == old(board).(snakes := InBounds(old(board.snakes), board.width, board.height))
    {
      var newSnakes := [];
      for i := 0 to |board.snakes|
        invariant newSnakes == InBounds(board.snakes[..i], board.width, board.height)
      {
        var snake := board.snakes[i];
        assert board.snakes[..i + 1][..i] == board.snakes[..i];
        if OutOfBounds(snake, board.width, board.height) {
          continue;
        }
        if snake.health == 0 {
          continue;
        }
        newSnakes := newSnakes + [snake];
      }
      assert board.snakes[..|board.snakes|] == board.snakes;
      board := board.(snakes := newSnakes);
    }

    /** The scan for another snake whose body, behind its first cell, holds
        `snake`'s stored head. */
    method HitsOtherBody(snake: Snake) returns (hit: bool)
      requires BodiesAtLeast(board.snakes, 1)
      ensures hit <==> exists k :: 0 <= k < |board.snakes| && snake.id != board.snakes[k].id && BodyCollision(snake, board.snakes[k])
    {
      hit := false;
      for k := 0 to |board.snakes|
        invariant !hit
        invariant forall t :: 0 <= t < k ==> !(snake.id != board.snakes[t].id && BodyCollision(snake, board.snakes[t]))
      {
        var other := board.snakes[k];
        if snake.id != other.id && BodyCollision(snake, other) {
          hit := true;
          break;
        }
      }
    }

    /** The scan for another snake that meets `snake` head to head and is at
        least as long. */
    method LosesHeadToHead(snake: Snake) returns (lost: bool)
      ensures lost <==> exists k :: 0 <= k < |board.snakes| && snake.id != board.snakes[k].id && LostHeadCollision(snake, board.snakes[k])
    {
      lost := false;
      for k := 0 to |board.snakes|
        invariant !lost
        invariant forall t :: 0 <= t < k ==> !(snake.id != board.snakes[t].id && LostHeadCollision(snake, board.snakes[t]))
      {
        var other := board.snakes[k];
        if snake.id != other.id && LostHeadCollision(snake, other) {
          lost := true;
          break;
        }
      }
    }

    /** The collision pass of `make_moves`: every snake is judged against the
        list as it stood before the pass. */
    method EliminateCollisions()
      requires BodiesAtLeast(board.snakes, 1)
      modifies this
      ensures turn == old(turn) && you == old(you)
      ensures board == old(board).(snakes := SurvivorsOf(old(board.snakes), old(board.snakes)))
    {
      var newSnakes := [];
      for i := 0 to |board.snakes|
        invariant board == old(board) && turn == old(turn) && you == old(you)
        invariant newSnakes == SurvivorsOf(board.snakes[..i], board.snakes)
      {
        var snake := board.snakes[i];
        assert board.snakes[..i + 1][..i] == board.snakes[..i];
        if BodyCollision(snake, snake) {
          continue;
        }
        var bodyCollision := HitsOtherBody(snake);
        if bodyCollision {
          continue;
        }
        var headCollision := LosesHeadToHead(snake);
        if headCollision {
          continue;
        }
        newSnakes := newSnakes + [snake];
      }
      assert board.snakes[..|board.snakes|] == board.snakes;
      board := board.(snakes := newSnakes);
    }
  }
}
