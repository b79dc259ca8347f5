/** The board helpers of the parameter optimiser: coordinate addition, the
    `u128` occupancy bit of a cell on the fixed 11 by 11 board, and the
    `dead` check of a two-snake position. */
module ParamBoard {
  import opened Common
  import opened Geometry
  import Snakes

  /** `Coordinate + Coordinate`. */
  function Plus(a: Coordinate, b: Coordinate): Coordinate
  {
    Coordinate(a.x + b.x, a.y + b.y)
  }

  /** Addition is the translation of the perft generator when one operand is
      a direction's unit offset, and it is commutative and associative. */
  lemma PlusProperties(a: Coordinate, b: Coordinate, c: Coordinate, d: Direction)
    ensures Plus(Delta(d), a) == Translate(a, d) && Plus(a, Delta(d)) == Translate(a, d)
    ensures Plus(a, b) == Plus(b, a)
    ensures Plus(Plus(a, b), c) == Plus(a, Plus(b, c))
    ensures Plus(a, Coordinate(0, 0)) == a
  {
  }

  /** The cells with `0 <= x <= 10` and `0 <= y <= 10`. */
  predicate OnBoard(c: Coordinate)
  {
    0 <= c.x <= 10 && 0 <= c.y <= 10
  }

  /** The shift amount of `From<Coordinate> for u128`. */
  function BitIndex(c: Coordinate): int
  {
    c.x + c.y * 11
  }

  /** A `u128` as the set of the positions of its one bits. Every operation
      the optimiser applies to its bitboards reads exactly this way: `1 << k`
      is `{k}`, `a & b` is `a * b`, `a | b` is `a + b`, and a value is zero
      exactly when the set is empty. */
  type U128 = s: set<int> | forall i | i in s :: 0 <= i < 128

  /** `u128::from(c)`: a one shifted left `x + y * 11` places; a shift amount
      outside `0..128` panics. */
  function CoordBit(c: Coordinate): (r: Result<U128>)
    ensures r.Ok? <==> 0 <= BitIndex(c) < 128
    ensures r.Ok? ==> |r.value| == 1
  {
    var k := BitIndex(c);
    if 0 <= k < 128 then Ok({k}) else Err(ShiftOverflow)
  }

  /** Every cell of the board has a bit, with a shift between 0 and 120, and
      different cells have different shifts. */
  lemma BitIndexOnBoard(a: Coordinate, b: Coordinate)
    requires OnBoard(a) && OnBoard(b)
    ensures 0 <= BitIndex(a) <= 120 && CoordBit(a).Ok?
    ensures BitIndex(a) == BitIndex(b) <==> a == b
  {
  }

  /** Two board cells share a bit exactly when they are the same cell, so
      the cells of a board and the one bits of its bitboard correspond. */
  lemma CoordBitsDistinct(a: Coordinate, b: Coordinate)
    requires OnBoard(a) && OnBoard(b)
    ensures CoordBit(a).Ok? && CoordBit(b).Ok?
    ensures a != b <==> CoordBit(a).value * CoordBit(b).value == {}
  {
    BitIndexOnBoard(a, b);
    BitIndexOnBoard(b, a);
    assert CoordBit(a).value == {BitIndex(a)} && CoordBit(b).value == {BitIndex(b)};
    if a == b {
      assert BitIndex(a) in CoordBit(a).value * CoordBit(b).value;
    }
  }

  // ---------------------------------------------------------------------
  // dead

  /** A snake of the optimiser: its body and its id. */
  datatype Battlesnake = Battlesnake(body: seq<Coordinate>, id: string)

  /** A position of the optimiser: the snakes and the food. */
  datatype Board = Board(snakes: seq<Battlesnake>, food: seq<Coordinate>)

  /** `other_snakes`: the snakes whose id differs from `id`, in board order. */
  function Others(snakes: seq<Battlesnake>, id: string): seq<Battlesnake>
    decreases |snakes|
  {
    if snakes == [] then []
    else
      var s := snakes[|snakes| - 1];
      Others(snakes[..|snakes| - 1], id) + (if s.id != id then [s] else [])
  }

  /** The other snakes are exactly the snakes with another id, in their board
      order. */
  lemma {:induction false} OthersShape(snakes: seq<Battlesnake>, id: string)
    ensures forall i :: 0 <= i < |Others(snakes, id)| ==> Others(snakes, id)[i].id != id
    ensures forall s :: s in Others(snakes, id) <==> s in snakes && s.id != id
    ensures SubsequenceOf(Others(snakes, id), snakes)
    decreases |snakes|
  {
    if snakes != [] {
      var front, s := snakes[..|snakes| - 1], snakes[|snakes| - 1];
      OthersShape(front, id);
      assert snakes == front + [s];
      if s.id != id {
        SubsequenceKeep(Others(front, id), front, s);
      } else {
        assert Others(snakes, id) == Others(front, id);
        SubsequenceSkip(Others(front, id), front, s);
        assert SubsequenceOf(Others(snakes, id), front + [s]);
      }
    }
  }

  /** `self.dead(state, health)`. Reading the own head panics on an empty
      body; once health and bounds pass, reading the first other snake
      panics when there is none or its body is empty. Only that first other
      snake is consulted. */
  function Dead(me: Battlesnake, state: Board, health: U8): (r: Result<bool>)
    ensures |me.body| == 0 ==> r == Err(IndexOutOfBounds)
    ensures |me.body| >= 1 && (health == 0 || !OnBoard(me.body[0])) ==> r == Ok(true)
    ensures r.Err? ==> r.error == IndexOutOfBounds
  {
    if |me.body| == 0 then Err(IndexOutOfBounds)
    else
      var head := me.body[0];
      var others := Others(state.snakes, me.id);
      if health == 0 then Ok(true)
      else if head.x < 0 || head.x > 10 || head.y < 0 || head.y > 10 then Ok(true)
      else if |others| == 0 || |others[0].body| == 0 then Err(IndexOutOfBounds)
      else if head in others[0].body[1..] then Ok(true)
      else if others[0].body[0] == head && |others[0].body| >= |me.body| then Ok(true)
      else if head in me.body[1..] then Ok(true)
      else Ok(false)
  }

  /** The optimiser's snake seen as a snake of the perft generator, with its
      head and length taken from its body. */
  function AsSnake(b: Battlesnake, health: U8): (s: Snakes.Snake)
    requires |b.body| >= 1
    ensures s.head == b.body[0] && s.length == |b.body| && s.body == b.body
  {
    Snakes.Snake(b.id, health, b.body, b.body[0], |b.body|)
  }

  /** `dead` decides with the elimination rules of the perft generator: out
      of bounds on an 11 by 11 board, the head on the other snake's body, a
      lost head-to-head, the head on the own body. It panics exactly when
      those rules would need a first other snake with a body and there is
      none. */
  lemma DeadMatchesRules(me: Battlesnake, state: Board, health: U8)
    requires |me.body| >= 1
    ensures var a := AsSnake(me, health);
      var others := Others(state.snakes, me.id);
      Dead(me, state, health) ==
        if health == 0 || Snakes.OutOfBounds(a, 11, 11) then Ok(true)
        else if others == [] || |others[0].body| == 0 then Err(IndexOutOfBounds)
        else
          var o := AsSnake(others[0], health);
          Ok(Snakes.BodyCollision(a, o) || Snakes.LostHeadCollision(a, o) || Snakes.BodyCollision(a, a))
  {
  }

  /** `dead` is false only for a healthy snake on the board whose head
      touches neither the other snake's body nor its own, and which did not
      meet an at least as long head; for any such snake it is false. */
  lemma DeadFalseExactly(me: Battlesnake, state: Board, health: U8)
    ensures Dead(me, state, health) == Ok(false) <==>
      && |me.body| >= 1
      && health > 0
      && OnBoard(me.body[0])
      && var others := Others(state.snakes, me.id);
      && others != [] && |others[0].body| >= 1
      && me.body[0] !in others[0].body[1..]
      && !(others[0].body[0] == me.body[0] && |others[0].body| >= |me.body|)
      && me.body[0] !in me.body[1..]
  {
  }

  /** Snakes after the first other one, and the food, never change the
      verdict. */
  lemma DeadReadsFirstOtherOnly(me: Battlesnake, s1: seq<Battlesnake>, s2: seq<Battlesnake>,
                                f1: seq<Coordinate>, f2: seq<Coordinate>, health: U8)
    requires Others(s1, me.id) != [] && Others(s2, me.id) != []
    requires Others(s1, me.id)[0] == Others(s2, me.id)[0]
    ensures Dead(me, Board(s1, f1), health) == Dead(me, Board(s2, f2), health)
  {
  }
}
