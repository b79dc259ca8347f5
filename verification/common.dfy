/** Shared vocabulary of the model: fixed-width integer ranges of the Rust
    source, failure-compatible wrappers for the places where the source
    panics, and the subsequence relation used to state "order preserved". */
module Common {

  /** Rust `u8`, `u32` and `i8` as subset types of the mathematical integers. */
  type U8 = x: int | 0 <= x < 0x100
  type U32 = x: int | 0 <= x < 0x1_0000_0000
  type I8 = x: int | -0x80 <= x < 0x80

  datatype Option<+T> = None | Some(value: T)

  /** Why a Rust call panicked. Only the kind is kept; the message text is not. */
  datatype Panic =
    | MissingMove          // `Option::unwrap` on a `position` that found nothing
    | IndexOutOfBounds     // `v[i]` with `i >= v.len()`
    | SubtractOverflow     // `x -= 1` below the type's minimum (debug build)
    | ZeroLengthSnake      // explicit `panic!("Zero length snake")`
    | DeadSnakeMoved       // explicit `panic!("Tried to move dead snake")`
    | ShiftOverflow        // `1 << n` with `n` outside the type's width (debug build)

  datatype Result<+T> = Ok(value: T) | Err(error: Panic)

  datatype Outcome = Pass | Fail(error: Panic)

  /** The absolute value, as `i32::abs` computes it when it does not
      overflow. */
  function Abs(n: int): (r: nat)
    ensures r == n || r == -n
  {
    if n < 0 then -n else n
  }

  /** A loop that takes a fallible step for each element in order and stops
      at the first panic: every value when all steps succeed, otherwise the
      panic of the first step that fails. */
  function Collect<T>(rs: seq<Result<T>>): (r: Result<seq<T>>)
    ensures r.Ok? <==> forall i :: 0 <= i < |rs| ==> rs[i].Ok?
    ensures r.Ok? ==> |r.value| == |rs| && forall i :: 0 <= i < |rs| ==> r.value[i] == rs[i].value
    decreases |rs|
  {
    if rs == [] then Ok([])
    else
      var n := |rs| - 1;
      var done := Collect(rs[..n]);
      if done.Err? then Err(done.error)
      else if rs[n].Err? then Err(rs[n].error)
      else Ok(done.value + [rs[n].value])
  }

  /** The panic `Collect` reports is the first failing step's. */
  lemma {:induction false} CollectFirstFailure<T>(rs: seq<Result<T>>, i: nat)
    requires i < |rs| && rs[i].Err?
    requires forall j :: 0 <= j < i ==> rs[j].Ok?
    ensures Collect(rs) == Err(rs[i].error)
    decreases |rs|
  {
    var n := |rs| - 1;
    if i < n {
      CollectFirstFailure(rs[..n], i);
    }
  }

  /** `iter().position(p)`: the first index whose element satisfies `p`. */
  function FirstIndex<T>(s: seq<T>, p: T -> bool): (r: Option<nat>)
    ensures r.Some? ==> r.value < |s| && p(s[r.value])
    ensures r.Some? ==> forall k :: 0 <= k < r.value ==> !p(s[k])
    ensures r.None? <==> forall k :: 0 <= k < |s| ==> !p(s[k])
    decreases |s|
  {
    if s == [] then None
    else if p(s[0]) then Some(0)
    else match FirstIndex(s[1..], p)
      case None => None
      case Some(k) => Some(k + 1)
  }

  /** `a` is obtained from `b` by deleting elements, so the elements of `a`
      keep their relative order in `b`. */
  predicate SubsequenceOf<T(==)>(a: seq<T>, b: seq<T>)
    decreases |b|
  {
    if b == [] then a == []
    else
      SubsequenceOf(a, b[..|b| - 1]) ||
      (a != [] && a[|a| - 1] == b[|b| - 1] && SubsequenceOf(a[..|a| - 1], b[..|b| - 1]))
  }

  /** Appending the same element to both sides keeps the relation. */
  lemma SubsequenceKeep<T>(a: seq<T>, b: seq<T>, x: T)
    requires SubsequenceOf(a, b)
    ensures SubsequenceOf(a + [x], b + [x])
  {
    assert (a + [x])[..|a|] == a;
    assert (b + [x])[..|b|] == b;
  }

  /** Appending an element to the longer side only keeps the relation. */
  lemma SubsequenceSkip<T>(a: seq<T>, b: seq<T>, x: T)
    requires SubsequenceOf(a, b)
    ensures SubsequenceOf(a, b + [x])
  {
    assert (b + [x])[..|b|] == b;
  }

  /** A subsequence never has more elements, and all its elements occur in the
      longer sequence. */
  lemma {:induction false} SubsequenceMembers<T>(a: seq<T>, b: seq<T>)
    requires SubsequenceOf(a, b)
    ensures |a| <= |b|
    ensures forall x :: x in a ==> x in b
    decreases |b|
  {
    if b != [] {
      var b' := b[..|b| - 1];
      if SubsequenceOf(a, b') {
        SubsequenceMembers(a, b');
      } else {
        var a' := a[..|a| - 1];
        SubsequenceMembers(a', b');
        assert a == a' + [b[|b| - 1]];
        assert b == b' + [b[|b| - 1]];
      }
    }
  }

  lemma {:induction false} SubsequenceTrans<T>(a: seq<T>, b: seq<T>, c: seq<T>)
    requires SubsequenceOf(a, b) && SubsequenceOf(b, c)
    ensures SubsequenceOf(a, c)
    decreases |c|
  {
    if c != [] {
      var c' := c[..|c| - 1];
      if SubsequenceOf(b, c') {
        SubsequenceTrans(a, b, c');
      } else {
        var b' := b[..|b| - 1];
        if SubsequenceOf(a, b') {
          SubsequenceTrans(a, b', c');
        } else {
          SubsequenceTrans(a[..|a| - 1], b', c');
        }
      }
    }
  }
}
