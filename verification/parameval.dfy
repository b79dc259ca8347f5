/** The integer helpers of the optimiser's evaluation: `successors`, the
    neighbour function its path search uses on the 11 by 11 board, and
    `manhattan` (`Geometry.Manhattan`). */
module ParamEval {
  import opened Common
  import opened Geometry
  import opened ParamBoard

  /** The four offsets `successors` tries, in its order: up, down, left,
      right. */
  const Offsets: seq<Coordinate> := [Coordinate(0, 1), Coordinate(0, -1), Coordinate(-1, 0), Coordinate(1, 0)]

  /** `new_possible`: every offset added to the coordinate. */
  function Candidates(c: Coordinate): (r: seq<Coordinate>)
    ensures |r| == 4
  {
    seq(4, i requires 0 <= i < 4 => Plus(Offsets[i], c))
  }

  /** A cell `successors` keeps: on the board, and its bit clear in `bb`. */
  predicate Open(t: Coordinate, bb: U128)
  {
    OnBoard(t) && BitIndex(t) !in bb
  }

  /** The cells of `cs` that are open, in their order. */
  function FilterOpen(cs: seq<Coordinate>, bb: U128): seq<Coordinate>
    decreases |cs|
  {
    if cs == [] then []
    else
      var t := cs[|cs| - 1];
      FilterOpen(cs[..|cs| - 1], bb) + (if Open(t, bb) then [t] else [])
  }

  /** Every cell paired with the path-search weight 1. */
  function Weighted(cs: seq<Coordinate>): (r: seq<(Coordinate, int)>)
    ensures |r| == |cs|
    ensures forall i :: 0 <= i < |cs| ==> r[i].0 == cs[i] && r[i].1 == 1
  {
    seq(|cs|, i requires 0 <= i < |cs| => (cs[i], 1))
  }

  /** `successors(coord, board, bb)`: the board itself is never read. */
  method Successors(coord: Coordinate, board: Board, bb: U128) returns (r: seq<(Coordinate, int)>)
    ensures r == Weighted(FilterOpen(Candidates(coord), bb))
  {
    var possible := Offsets;
    var newPossible: seq<Coordinate> := [];
    for i := 0 to |possible|
      invariant newPossible == Candidates(coord)[..i]
    {
      newPossible := newPossible + [Plus(possible[i], coord)];
    }
    assert newPossible == Candidates(coord);
    var out: seq<Coordinate> := [];
    for i := 0 to |newPossible|
      invariant out == FilterOpen(newPossible[..i], bb)
    {
      var thing := newPossible[i];
      assert newPossible[..i + 1][..i] == newPossible[..i];
      if thing.x < 0 || thing.x > 10 || thing.y < 0 || thing.y > 10 {
        continue;
      }
      if bb * CoordBit(thing).value != {} {
        assert BitIndex(thing) in bb * CoordBit(thing).value;
        continue;
      }
      out := out + [thing];
    }
    assert newPossible[..|newPossible|] == newPossible;
    r := Weighted(out);
  }

  /** The candidates are the four neighbours of the perft generator's
      `Coordinate + Direction`, in the order Up, Down, Left, Right. */
  lemma CandidatesAreNeighbours(c: Coordinate)
    ensures Candidates(c) == [Translate(c, Up), Translate(c, Down), Translate(c, Left), Translate(c, Right)]
  {
  }

  /** A cell survives the filter exactly when it is a candidate and open; the
      survivors keep their order and are no more than the candidates. */
  lemma {:induction false} FilterOpenShape(cs: seq<Coordinate>, bb: U128)
    ensures forall t :: t in FilterOpen(cs, bb) <==> t in cs && Open(t, bb)
    ensures SubsequenceOf(FilterOpen(cs, bb), cs)
    ensures |FilterOpen(cs, bb)| <= |cs|
    decreases |cs|
  {
    if cs != [] {
      var front, t := cs[..|cs| - 1], cs[|cs| - 1];
      FilterOpenShape(front, bb);
      assert cs == front + [t];
      if Open(t, bb) {
        SubsequenceKeep(FilterOpen(front, bb), front, t);
      } else {
        assert FilterOpen(cs, bb) == FilterOpen(front, bb);
        SubsequenceSkip(FilterOpen(front, bb), front, t);
        assert SubsequenceOf(FilterOpen(cs, bb), front + [t]);
      }
    }
  }

  /** At most four successors, each a unit step from `coord`, on the board
      and with its bit clear; a neighbour is a successor exactly when it is
      on the board and its bit is clear; the successors come in the
      candidates' order. */
  lemma SuccessorsShape(coord: Coordinate, bb: U128)
    ensures var s := FilterOpen(Candidates(coord), bb);
      && |s| <= 4
      && SubsequenceOf(s, Candidates(coord))
      && (forall i :: 0 <= i < |s| ==> OnBoard(s[i]) && BitIndex(s[i]) !in bb)
      && (forall i :: 0 <= i < |s| ==> Manhattan(coord, s[i]) == 1)
      && (forall d: Direction :: Translate(coord, d) in s <==> Open(Translate(coord, d), bb))
  {
    var s := FilterOpen(Candidates(coord), bb);
    FilterOpenShape(Candidates(coord), bb);
    CandidatesAreNeighbours(coord);
    forall i | 0 <= i < |s|
      ensures OnBoard(s[i]) && BitIndex(s[i]) !in bb
      ensures Manhattan(coord, s[i]) == 1
    {
      assert s[i] in s;
      assert s[i] in Candidates(coord);
      var d :| s[i] == Translate(coord, d);
      TranslateIsUnitStep(coord, d, coord);
    }
  }
}
