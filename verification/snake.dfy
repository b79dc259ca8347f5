/** One snake of the perft generator and its per-turn primitives.

    The source keeps `head` and `length` as stored fields next to `body`.
    `apply_move` rewrites the body but never the `head` field, so every
    predicate below that reads `head` reads the value the snake was created
    with. The model keeps that field separate from `body[0]` on purpose. */
module Snakes {
  import opened Common
  import opened Geometry

  /** The snake record. `name`, `latency`, `shout` and `squad` are carried
      unchanged by every operation and are not modelled. */
  datatype Snake = Snake(
    id: string,
    health: U8,
    body: seq<Coordinate>,
    head: Coordinate,
    length: nat)

  /** `body.push(*body.last().unwrap())`: the tail cell is doubled. */
  function DuplicateTail(s: Snake): (r: Snake)
    requires |s.body| >= 1
    ensures |r.body| == |s.body| + 1
    ensures r.body[..|s.body|] == s.body && r.body[|s.body|] == s.body[|s.body| - 1]
    ensures r.id == s.id && r.health == s.health && r.head == s.head && r.length == s.length
  {
    s.(body := s.body + [s.body[|s.body| - 1]])
  }

  /** `feed`: grow by one tail cell, restore full health, count one more
      segment. The `head` field is not touched. */
  function Feed(s: Snake): (r: Snake)
    requires |s.body| >= 1
    ensures |r.body| == |s.body| + 1
    ensures r.body[..|s.body|] == s.body && r.body[|s.body|] == s.body[|s.body| - 1]
    ensures r.health == 100 && r.length == s.length + 1
    ensures r.id == s.id && r.head == s.head
  {
    DuplicateTail(s).(health := 100, length := s.length + 1)
  }

  /** `apply_move`: pop the tail, put `body[0] + direction` in front, lose one
      health point. A body of fewer than two cells makes `body[0]` index an
      empty vector after the pop, and a health of 0 makes the `u8`
      subtraction overflow; both panic, in that order. */
  function ApplyMove(s: Snake, d: Direction): (r: Result<Snake>)
    ensures r.Ok? <==> |s.body| >= 2 && s.health >= 1
    ensures |s.body| < 2 ==> r == Err(IndexOutOfBounds)
    ensures |s.body| >= 2 && s.health == 0 ==> r == Err(SubtractOverflow)
    ensures r.Ok? ==>
      && |r.value.body| == |s.body|
      && r.value.body[0] == Translate(s.body[0], d)
      && r.value.body[1..] == s.body[..|s.body| - 1]
      && r.value.health == s.health - 1
      && r.value.id == s.id && r.value.head == s.head && r.value.length == s.length
  {
    var popped := if |s.body| == 0 then [] else s.body[..|s.body| - 1];
    if |popped| == 0 then Err(IndexOutOfBounds)
    else
      var newHead := Translate(popped[0], d);
      if s.health == 0 then Err(SubtractOverflow)
      else Ok(s.(body := [newHead] + popped, health := s.health - 1))
  }

  /** `apply_move` as its callers evidently expect it: the same steps, with
      the `head` field moved onto the new first cell. */
  function ApplyMoveTracked(s: Snake, d: Direction): (r: Result<Snake>)
    ensures r.Ok? <==> ApplyMove(s, d).Ok?
    ensures r.Err? ==> r == ApplyMove(s, d)
    ensures r.Ok? ==> r.value == ApplyMove(s, d).value.(head := Translate(s.body[0], d))
    ensures r.Ok? ==> r.value.head == r.value.body[0]
  {
    match ApplyMove(s, d)
    case Err(e) => Err(e)
    case Ok(moved) => Ok(moved.(head := moved.body[0]))
  }

  /** `out_of_bounds`: the stored head lies outside `[0, width) x [0, height)`. */
  predicate OutOfBounds(s: Snake, width: U8, height: U8)
  {
    s.head.x < 0 || s.head.x >= width || s.head.y < 0 || s.head.y >= height
  }

  /** `snake_body_collision(a, b)`: `a`'s head lies on `b`'s body behind
      `b`'s first cell. Slicing `b.body[1..]` panics on an empty body. */
  predicate BodyCollision(a: Snake, b: Snake)
    requires |b.body| >= 1
  {
    a.head in b.body[1..]
  }

  /** `snake_lost_head_collision(a, b)`: same head, and `a` is not longer. */
  predicate LostHeadCollision(a: Snake, b: Snake)
  {
    a.head == b.head && a.length <= b.length
  }

  /** A head-to-head meeting always costs at least one of the two snakes, and
      with equal lengths it costs both. */
  lemma HeadToHeadLoser(a: Snake, b: Snake)
    requires a.head == b.head
    ensures LostHeadCollision(a, b) || LostHeadCollision(b, a)
    ensures a.length == b.length ==> LostHeadCollision(a, b) && LostHeadCollision(b, a)
    ensures a.length < b.length ==> LostHeadCollision(a, b) && !LostHeadCollision(b, a)
  {
  }

  /** `feed` applied `n` times in a row. */
  function FeedTimes(s: Snake, n: nat): (r: Snake)
    requires |s.body| >= 1
    ensures |r.body| == |s.body| + n
    decreases n
  {
    if n == 0 then s else FeedTimes(Feed(s), n - 1)
  }

  /** Feeding `n` times appends `n` copies of the tail, adds `n` to the
      length, and resets health to 100 unless `n` is zero; id and head stay. */
  lemma {:induction false} FeedTimesShape(s: Snake, n: nat)
    requires |s.body| >= 1
    ensures var r := FeedTimes(s, n);
      && |r.body| == |s.body| + n
      && r.body[..|s.body|] == s.body
      && (forall k :: |s.body| <= k < |r.body| ==> r.body[k] == s.body[|s.body| - 1])
      && r.length == s.length + n
      && r.health == (if n == 0 then s.health else 100)
      && r.id == s.id && r.head == s.head
    decreases n
  {
    if n > 0 {
      var f := Feed(s);
      FeedTimesShape(f, n - 1);
      var r := FeedTimes(f, n - 1);
      assert r.body[..|f.body|][..|s.body|] == s.body;
    }
  }

  /** With the head tracked, a snake runs into itself exactly when its new
      head lands on one of the cells it keeps. */
  lemma TrackedSelfCollision(s: Snake, d: Direction)
    requires ApplyMoveTracked(s, d).Ok?
    ensures var r := ApplyMoveTracked(s, d).value;
      BodyCollision(r, r) <==> Translate(s.body[0], d) in s.body[..|s.body| - 1]
  {
  }

  /** As written, a snake whose stored head is on its first cell always runs
      into itself after a move: the stale head is the new second cell. */
  lemma StaleHeadSelfCollision(s: Snake, d: Direction)
    requires |s.body| >= 1 && s.head == s.body[0]
    requires ApplyMove(s, d).Ok?
    ensures var r := ApplyMove(s, d).value; BodyCollision(r, r)
  {
    var r := ApplyMove(s, d).value;
    assert r.body[1..][0] == s.head;
  }
}
