/** The element-wise vector arithmetic of the `linalg` crate, instantiated
    at mathematical integers. Every binary operation walks the left operand
    and indexes the right one at the same position, so the right operand
    must be at least as long; the result always has the left operand's
    length. Division truncates toward zero, as Rust's integer `/` does. */
module LinearAlgebra {
  import opened Common

  /** `Vector<T>` at `T = int`. */
  datatype Vector = Vector(inner: seq<int>)

  /** `Vector::new(size, item)`: `size` copies of `item`. */
  function New(size: nat, item: int): (v: Vector)
    ensures |v.inner| == size
    ensures forall i :: 0 <= i < size ==> v.inner[i] == item
  {
    Vector(seq(size, _ => item))
  }

  /** `rhs` can be indexed at every position of `self`. */
  predicate Fits(self: Vector, rhs: Vector)
  {
    |rhs.inner| >= |self.inner|
  }

  /** The sum of a sequence, added up from the front as `Iterator::sum`. */
  function Sum(s: seq<int>): int
    decreases |s|
  {
    if s == [] then 0 else Sum(s[..|s| - 1]) + s[|s| - 1]
  }

  /** Rust's `/` on signed integers: the quotient rounded toward zero.
      Dafny's `/` rounds so that the remainder is never negative, which
      agrees with it on a non-negative dividend; a negative dividend is
      divided as its negation and the quotient negated back. */
  function TruncDiv(x: int, y: int): (q: int)
    requires y != 0
  {
    if x >= 0 then x / y else -((-x) / y)
  }

  /** `self.dot(rhs)`: the sum of the pairwise products. */
  function Dot(self: Vector, rhs: Vector): int
    requires Fits(self, rhs)
    decreases |self.inner|
  {
    if self.inner == [] then 0
    else
      var n := |self.inner| - 1;
      Dot(Vector(self.inner[..n]), rhs) + self.inner[n] * rhs.inner[n]
  }

  /** `self + rhs`. */
  function Add(self: Vector, rhs: Vector): (v: Vector)
    requires Fits(self, rhs)
    ensures |v.inner| == |self.inner|
    ensures forall i :: 0 <= i < |self.inner| ==> v.inner[i] == self.inner[i] + rhs.inner[i]
  {
    Vector(seq(|self.inner|, i requires 0 <= i < |self.inner| => self.inner[i] + rhs.inner[i]))
  }

  /** `self - rhs`. */
  function Sub(self: Vector, rhs: Vector): (v: Vector)
    requires Fits(self, rhs)
    ensures |v.inner| == |self.inner|
    ensures forall i :: 0 <= i < |self.inner| ==> v.inner[i] == self.inner[i] - rhs.inner[i]
  {
    Vector(seq(|self.inner|, i requires 0 <= i < |self.inner| => self.inner[i] - rhs.inner[i]))
  }

  /** `self * rhs`, element by element. */
  function Mul(self: Vector, rhs: Vector): (v: Vector)
    requires Fits(self, rhs)
    ensures |v.inner| == |self.inner|
    ensures forall i :: 0 <= i < |self.inner| ==> v.inner[i] == self.inner[i] * rhs.inner[i]
  {
    Vector(seq(|self.inner|, i requires 0 <= i < |self.inner| => self.inner[i] * rhs.inner[i]))
  }

  /** No element of `rhs` that `self` divides by is zero. */
  predicate NonZeroDivisors(self: Vector, rhs: Vector)
    requires Fits(self, rhs)
  {
    forall i :: 0 <= i < |self.inner| ==> rhs.inner[i] != 0
  }

  /** `self / rhs`, element by element; a zero divisor panics. */
  function Div(self: Vector, rhs: Vector): (v: Vector)
    requires Fits(self, rhs) && NonZeroDivisors(self, rhs)
    ensures |v.inner| == |self.inner|
    ensures forall i :: 0 <= i < |self.inner| ==> v.inner[i] == TruncDiv(self.inner[i], rhs.inner[i])
  {
    Vector(seq(|self.inner|, i requires 0 <= i < |self.inner| && rhs.inner[i] != 0 =>
      TruncDiv(self.inner[i], rhs.inner[i])))
  }

  // ---------------------------------------------------------------------
  // Properties

  /** Truncating division leaves a remainder that has the sign of the
      dividend and is smaller than the divisor in magnitude; so `-7 / 2` is
      `-3`, where Dafny's own `/` gives `-4`. */
  lemma TruncDivRemainder(x: int, y: int)
    requires y != 0
    ensures x >= 0 ==> 0 <= x - TruncDiv(x, y) * y < Abs(y)
    ensures x < 0 ==> -(Abs(y) as int) < x - TruncDiv(x, y) * y <= 0
    ensures TruncDiv(-7, 2) == -3 && -7 / 2 == -4
  {
    if x < 0 {
      var q := (-x) / y;
      assert -x == q * y + (-x) % y;
      assert TruncDiv(x, y) * y == -(q * y);
    }
  }

  /** A product divided by one factor gives back the other. */
  lemma TruncDivOfProduct(x: int, y: int)
    requires y != 0
    ensures TruncDiv(x * y, y) == x
  {
    if x * y >= 0 {
      DivOfProduct(x, y);
    } else {
      assert -(x * y) == (-x) * y;
      DivOfProduct(-x, y);
    }
  }

  /** Dafny's `/` also gives back a factor of a product. */
  lemma DivOfProduct(k: int, y: int)
    requires y != 0
    ensures (k * y) / y == k
  {
    var q, r := (k * y) / y, (k * y) % y;
    assert k * y == q * y + r && 0 <= r < Abs(y);
    assert (q - k) * y == -r;
    OnlyZeroMultipleBelow(q - k, y, r);
  }

  /** The only multiple of `y` in `(-|y|, 0]` is zero. */
  lemma OnlyZeroMultipleBelow(k: int, y: int, r: int)
    requires y != 0 && 0 <= r < Abs(y) && k * y == -r
    ensures k == 0
  {
    AbsProduct(k, y);
    MulAtLeast(Abs(k), Abs(y));
  }

  lemma MulAtLeast(a: nat, b: nat)
    ensures a == 0 || a * b >= b
  {
    if a > 0 {
      assert a * b == (a - 1) * b + b;
    }
  }

  lemma AbsProduct(x: int, y: int)
    ensures Abs(x * y) == Abs(x) * Abs(y)
  {
    if x < 0 {
      assert x * y == -((-x) * y);
    }
    if y < 0 {
      assert x * y == -(x * (-y));
    }
    if x < 0 && y < 0 {
      assert x * y == (-x) * (-y);
    }
  }

  /** Subtracting what was added gives the vector back. */
  lemma SubUndoesAdd(a: Vector, b: Vector)
    requires Fits(a, b)
    ensures Sub(Add(a, b), b) == a
  {
  }

  /** Dividing by what was multiplied gives the vector back. */
  lemma DivUndoesMul(a: Vector, b: Vector)
    requires Fits(a, b) && NonZeroDivisors(a, b)
    ensures Div(Mul(a, b), b) == a
  {
    var p := Mul(a, b);
    forall i | 0 <= i < |a.inner| ensures Div(p, b).inner[i] == a.inner[i] {
      TruncDivOfProduct(a.inner[i], b.inner[i]);
    }
  }

  /** The dot product is the sum of the element-wise product; the dot of the
      empty vector is zero. */
  lemma {:induction false} DotIsSumOfProducts(a: Vector, b: Vector)
    requires Fits(a, b)
    ensures Dot(a, b) == Sum(Mul(a, b).inner)
    ensures a.inner == [] ==> Dot(a, b) == 0
    decreases |a.inner|
  {
    if a.inner != [] {
      var n := |a.inner| - 1;
      var front := Vector(a.inner[..n]);
      DotIsSumOfProducts(front, b);
      assert Mul(a, b).inner[..n] == Mul(front, b).inner;
    }
  }

  /** On vectors of equal length the dot product is symmetric. */
  lemma {:induction false} DotSymmetric(a: Vector, b: Vector)
    requires |a.inner| == |b.inner|
    ensures Dot(a, b) == Dot(b, a)
    decreases |a.inner|
  {
    if a.inner != [] {
      var n := |a.inner| - 1;
      DotSymmetric(Vector(a.inner[..n]), Vector(b.inner[..n]));
      DotPrefix(a, b, n);
      DotPrefix(b, a, n);
    }
  }

  /** Only the first `|self|` elements of `rhs` matter. */
  lemma {:induction false} DotIgnoresTail(a: Vector, b: Vector, n: nat)
    requires |a.inner| <= n <= |b.inner|
    ensures Dot(a, b) == Dot(a, Vector(b.inner[..n]))
    decreases |a.inner|
  {
    if a.inner != [] {
      DotIgnoresTail(Vector(a.inner[..|a.inner| - 1]), b, n);
    }
  }

  lemma DotPrefix(a: Vector, b: Vector, n: nat)
    requires |a.inner| == |b.inner| == n + 1
    ensures Dot(a, b) == Dot(Vector(a.inner[..n]), Vector(b.inner[..n])) + a.inner[n] * b.inner[n]
  {
    DotIgnoresTail(Vector(a.inner[..n]), b, n);
  }

  /** The dot product distributes over vector addition. */
  lemma {:induction false} DotDistributesOverAdd(a: Vector, b: Vector, c: Vector)
    requires |a.inner| == |b.inner| && Fits(a, c)
    ensures Dot(Add(a, b), c) == Dot(a, c) + Dot(b, c)
    decreases |a.inner|
  {
    if a.inner != [] {
      var n := |a.inner| - 1;
      var fa, fb := Vector(a.inner[..n]), Vector(b.inner[..n]);
      DotDistributesOverAdd(fa, fb, c);
      assert Vector(Add(a, b).inner[..n]) == Add(fa, fb);
      var x, y, z := a.inner[n], b.inner[n], c.inner[n];
      assert (x + y) * z == x * z + y * z;
    }
  }

  /** `New(n, x)` dotted with `v` scales the sum of `v`'s first `n` elements
      by `x`. */
  lemma {:induction false} DotWithConstant(n: nat, x: int, v: Vector)
    requires n <= |v.inner|
    ensures Dot(New(n, x), v) == x * Sum(v.inner[..n])
    decreases n
  {
    if n > 0 {
      DotWithConstant(n - 1, x, v);
      assert New(n, x).inner[..n - 1] == New(n - 1, x).inner;
      assert v.inner[..n][..n - 1] == v.inner[..n - 1];
      assert x * (Sum(v.inner[..n - 1]) + v.inner[n - 1]) == x * Sum(v.inner[..n - 1]) + x * v.inner[n - 1];
    }
  }
}
