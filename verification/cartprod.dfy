/** The Cartesian product used to enumerate joint moves
    (`partial_cartesian`, `cartesian_product`). Tuples are sequences; the
    product is listed in lexicographic order, the first list varying
    slowest. */
module CartesianProducts {

  /** The closure inside `flat_map`: `xs` extended by each item of `b` in
      turn. */
  function Extend<T>(xs: seq<T>, b: seq<T>): (r: seq<seq<T>>)
    ensures |r| == |b|
    ensures forall j :: 0 <= j < |b| ==> r[j] == xs + [b[j]]
    decreases |b|
  {
    if b == [] then [] else [xs + [b[0]]] + Extend(xs, b[1..])
  }

  /** `partial_cartesian(a, b)`: every tuple of `a` extended by every item of
      `b`, `a`-major. */
  function PartialCartesian<T>(a: seq<seq<T>>, b: seq<T>): (r: seq<seq<T>>)
    decreases |a|
  {
    if a == [] then [] else Extend(a[0], b) + PartialCartesian(a[1..], b)
  }

  /** The partial product has `|a| * |b|` tuples. */
  lemma {:induction false} PartialCartesianLength<T>(a: seq<seq<T>>, b: seq<T>)
    ensures |PartialCartesian(a, b)| == |a| * |b|
    decreases |a|
  {
    if a != [] {
      PartialCartesianLength(a[1..], b);
      MulPred(|a|, |b|);
    }
  }

  /** Element `k * |b| + j` of the partial product is `a[k] ++ [b[j]]`. */
  lemma PartialCartesianAt<T>(a: seq<seq<T>>, b: seq<T>, k: nat, j: nat)
    requires k < |a| && j < |b|
    ensures k * |b| + j < |PartialCartesian(a, b)|
    ensures PartialCartesian(a, b)[k * |b| + j] == a[k] + [b[j]]
  {
    PartialCartesianAtOffset(a, b, k, j);
    OffsetIsProduct(k, |b|);
  }

  /** `k` blocks of `n`, counted one block at a time. */
  function Offset(k: nat, n: nat): nat
  {
    if k == 0 then 0 else n + Offset(k - 1, n)
  }

  lemma {:induction false} OffsetIsProduct(k: nat, n: nat)
    ensures Offset(k, n) == k * n
  {
    if k > 0 {
      OffsetIsProduct(k - 1, n);
      MulPred(k, n);
    }
  }

  lemma {:induction false} PartialCartesianAtOffset<T>(a: seq<seq<T>>, b: seq<T>, k: nat, j: nat)
    requires k < |a| && j < |b|
    ensures Offset(k, |b|) + j < |PartialCartesian(a, b)|
    ensures PartialCartesian(a, b)[Offset(k, |b|) + j] == a[k] + [b[j]]
    decreases k
  {
    if k == 0 {
      PartialCartesianFirst(a, b, j);
    } else {
      PartialCartesianAtOffset(a[1..], b, k - 1, j);
      assert a[1..][k - 1] == a[k];
      PartialCartesianAtOffsetStep(a, b, k, j);
    }
  }

  /** One more tuple of `a` in front moves a tuple `|b|` places on. */
  lemma PartialCartesianAtOffsetStep<T>(a: seq<seq<T>>, b: seq<T>, k: nat, j: nat)
    requires 0 < k < |a| && j < |b|
    requires Offset(k - 1, |b|) + j < |PartialCartesian(a[1..], b)|
    requires PartialCartesian(a[1..], b)[Offset(k - 1, |b|) + j] == a[k] + [b[j]]
    ensures Offset(k, |b|) + j < |PartialCartesian(a, b)|
    ensures PartialCartesian(a, b)[Offset(k, |b|) + j] == a[k] + [b[j]]
  {
    var p := Offset(k - 1, |b|) + j;
    PartialCartesianSkip(a, b, p);
    assert Offset(k, |b|) + j == |b| + p;
  }

  /** The first `|b|` tuples extend `a[0]`. */
  lemma PartialCartesianFirst<T>(a: seq<seq<T>>, b: seq<T>, j: nat)
    requires a != [] && j < |b|
    ensures j < |PartialCartesian(a, b)| && PartialCartesian(a, b)[j] == a[0] + [b[j]]
  {
    var front, rest := Extend(a[0], b), PartialCartesian(a[1..], b);
    assert PartialCartesian(a, b) == front + rest;
    assert (front + rest)[j] == front[j];
  }

  /** After them come the tuples of the product of the rest of `a`. */
  lemma PartialCartesianSkip<T>(a: seq<seq<T>>, b: seq<T>, p: nat)
    requires a != [] && p < |PartialCartesian(a[1..], b)|
    ensures |b| + p < |PartialCartesian(a, b)|
    ensures PartialCartesian(a, b)[|b| + p] == PartialCartesian(a[1..], b)[p]
  {
    var front, rest := Extend(a[0], b), PartialCartesian(a[1..], b);
    assert PartialCartesian(a, b) == front + rest;
    ConcatIndex(front, rest, p);
  }

  lemma ConcatIndex<T>(x: seq<T>, y: seq<T>, m: nat)
    requires m < |y|
    ensures |x| + m < |x + y| && (x + y)[|x| + m] == y[m]
  {
  }

  lemma MulPred(k: nat, n: nat)
    requires k > 0
    ensures k * n == n + (k - 1) * n
  {
  }

  lemma MulAssoc(x: nat, y: nat, z: nat)
    ensures x * y * z == x * (y * z)
  {
  }

  /** A tuple is one of the extensions of `xs` exactly when it is `xs` plus
      an item of `b`. */
  lemma ExtendMembers<T>(xs: seq<T>, b: seq<T>, t: seq<T>)
    ensures t in Extend(xs, b) <==> |t| > 0 && t[..|t| - 1] == xs && t[|t| - 1] in b
  {
    var r := Extend(xs, b);
    if |t| > 0 && t[..|t| - 1] == xs && t[|t| - 1] in b {
      var j :| 0 <= j < |b| && b[j] == t[|t| - 1];
      assert t == xs + [b[j]] == r[j];
    }
  }

  /** A tuple is in the partial product exactly when it is a tuple of `a`
      extended by an item of `b`. */
  lemma {:induction false} PartialCartesianMembers<T>(a: seq<seq<T>>, b: seq<T>, t: seq<T>)
    ensures t in PartialCartesian(a, b) <==>
      |t| > 0 && t[..|t| - 1] in a && t[|t| - 1] in b
    decreases |a|
  {
    if a != [] {
      ExtendMembers(a[0], b, t);
      PartialCartesianMembers(a[1..], b, t);
      assert a == [a[0]] + a[1..];
    }
  }

  /** `first.iter().cloned().map(|n| vec![n])`. */
  function Singletons<T>(first: seq<T>): (r: seq<seq<T>>)
    ensures |r| == |first|
    ensures forall i :: 0 <= i < |r| ==> r[i] == [first[i]]
    decreases |first|
  {
    if first == [] then [] else [[first[0]]] + Singletons(first[1..])
  }

  /** `rest.iter().fold(init, |vec, list| partial_cartesian(vec, &list))`. */
  function FoldPartial<T>(acc: seq<seq<T>>, rest: seq<seq<T>>): seq<seq<T>>
    decreases |rest|
  {
    if rest == [] then acc else FoldPartial(PartialCartesian(acc, rest[0]), rest[1..])
  }

  /** `cartesian_product(lists)`; no lists give no tuples. */
  function CartesianProduct<T>(lists: seq<seq<T>>): (r: seq<seq<T>>)
  {
    if lists == [] then [] else FoldPartial(Singletons(lists[0]), lists[1..])
  }

  /** The product of the lengths of the lists. */
  function ProductOfLengths<T>(lists: seq<seq<T>>): nat
    decreases |lists|
  {
    if lists == [] then 1 else |lists[0]| * ProductOfLengths(lists[1..])
  }

  /** `t` picks one item from each list, in order. */
  predicate InProduct<T(==)>(t: seq<T>, lists: seq<seq<T>>)
  {
    |t| == |lists| && forall i :: 0 <= i < |t| ==> t[i] in lists[i]
  }

  lemma {:induction false} FoldPartialLength<T>(acc: seq<seq<T>>, rest: seq<seq<T>>)
    ensures |FoldPartial(acc, rest)| == |acc| * ProductOfLengths(rest)
    decreases |rest|
  {
    if rest != [] {
      FoldPartialLength(PartialCartesian(acc, rest[0]), rest[1..]);
      PartialCartesianLength(acc, rest[0]);
      MulAssoc(|acc|, |rest[0]|, ProductOfLengths(rest[1..]));
    }
  }

  /** The product of no lists is empty; otherwise it has as many tuples as
      the product of the lengths, so one empty list empties it. */
  lemma CartesianProductLength<T>(lists: seq<seq<T>>)
    ensures lists == [] ==> CartesianProduct(lists) == []
    ensures lists != [] ==> |CartesianProduct(lists)| == ProductOfLengths(lists)
  {
    if lists != [] {
      FoldPartialLength(Singletons(lists[0]), lists[1..]);
    }
  }

  /** One empty list makes the product of the lengths zero. */
  lemma {:induction false} EmptyFactor<T>(lists: seq<seq<T>>, i: nat)
    requires i < |lists| && lists[i] == []
    ensures ProductOfLengths(lists) == 0
    decreases i
  {
    if i > 0 {
      EmptyFactor(lists[1..], i - 1);
    }
  }

  /** Appending one list to the factors extends every picking tuple by an
      item of that list. */
  lemma InProductSnoc<T>(t: seq<T>, pre: seq<seq<T>>, b: seq<T>)
    ensures InProduct(t, pre + [b]) <==>
      |t| > 0 && InProduct(t[..|t| - 1], pre) && t[|t| - 1] in b
  {
    if |t| > 0 && InProduct(t[..|t| - 1], pre) && t[|t| - 1] in b {
      forall i | 0 <= i < |t| ensures t[i] in (pre + [b])[i] {
        if i < |t| - 1 {
          assert t[i] == t[..|t| - 1][i];
        }
      }
    }
    if InProduct(t, pre + [b]) {
      forall i | 0 <= i < |t| - 1 ensures t[..|t| - 1][i] in pre[i] {
        assert t[i] in (pre + [b])[i];
      }
    }
  }

  lemma {:induction false} FoldPartialMembers<T>(acc: seq<seq<T>>, pre: seq<seq<T>>, rest: seq<seq<T>>, t: seq<T>)
    requires forall u :: u in acc <==> InProduct(u, pre)
    ensures t in FoldPartial(acc, rest) <==> InProduct(t, pre + rest)
    decreases |rest|
  {
    if rest == [] {
      assert pre + rest == pre;
    } else {
      var next := PartialCartesian(acc, rest[0]);
      forall u ensures u in next <==> InProduct(u, pre + [rest[0]]) {
        PartialCartesianMembers(acc, rest[0], u);
        InProductSnoc(u, pre, rest[0]);
      }
      FoldPartialMembers(next, pre + [rest[0]], rest[1..], t);
      assert pre + [rest[0]] + rest[1..] == pre + rest;
    }
  }

  /** The tuples of the product are exactly the ways of picking one item from
      each list, in order. */
  lemma CartesianProductMembers<T>(lists: seq<seq<T>>, t: seq<T>)
    requires lists != []
    ensures t in CartesianProduct(lists) <==> InProduct(t, lists)
  {
    var init := Singletons(lists[0]);
    forall u ensures u in init <==> InProduct(u, [lists[0]]) {
      if InProduct(u, [lists[0]]) {
        var j :| 0 <= j < |lists[0]| && lists[0][j] == u[0];
        assert u == init[j];
      }
    }
    FoldPartialMembers(init, [lists[0]], lists[1..], t);
    assert [lists[0]] + lists[1..] == lists;
  }

  lemma ExtendTwo<T>(xs: seq<T>, p: T, q: T)
    ensures Extend(xs, [p, q]) == [xs + [p], xs + [q]]
  {
  }

  /** The example of the documentation of `partial_cartesian`. */
  lemma PartialCartesianExample()
    ensures PartialCartesian([[1, 4], [1, 5], [2, 4], [2, 5]], [6, 7]) ==
      [[1, 4, 6], [1, 4, 7], [1, 5, 6], [1, 5, 7],
       [2, 4, 6], [2, 4, 7], [2, 5, 6], [2, 5, 7]]
  {
    var pairs: seq<seq<int>> := [[1, 4], [1, 5], [2, 4], [2, 5]];
    ExtendTwo([2, 5], 6, 7);
    ExtendTwo([2, 4], 6, 7);
    ExtendTwo([1, 5], 6, 7);
    ExtendTwo([1, 4], 6, 7);
    assert [2, 5] + [6] == [2, 5, 6] && [2, 5] + [7] == [2, 5, 7];
    assert [2, 4] + [6] == [2, 4, 6] && [2, 4] + [7] == [2, 4, 7];
    assert [1, 5] + [6] == [1, 5, 6] && [1, 5] + [7] == [1, 5, 7];
    assert [1, 4] + [6] == [1, 4, 6] && [1, 4] + [7] == [1, 4, 7];
    assert pairs[1..] == [[1, 5], [2, 4], [2, 5]] && pairs[1..][1..] == [[2, 4], [2, 5]];
    assert pairs[1..][1..][1..] == [[2, 5]] && |pairs[1..][1..][1..][1..]| == 0;
    assert PartialCartesian([[2, 5]], [6, 7]) == [[2, 5, 6], [2, 5, 7]];
    assert PartialCartesian([[2, 4], [2, 5]], [6, 7]) == [[2, 4, 6], [2, 4, 7], [2, 5, 6], [2, 5, 7]];
    assert PartialCartesian([[1, 5], [2, 4], [2, 5]], [6, 7]) ==
      [[1, 5, 6], [1, 5, 7], [2, 4, 6], [2, 4, 7], [2, 5, 6], [2, 5, 7]];
  }

  /** The example of the documentation of `cartesian_product`. */
  lemma CartesianProductExample()
    ensures CartesianProduct([[1, 2], [4, 5], [6, 7]]) ==
      [[1, 4, 6], [1, 4, 7], [1, 5, 6], [1, 5, 7],
       [2, 4, 6], [2, 4, 7], [2, 5, 6], [2, 5, 7]]
  {
    var lists: seq<seq<int>> := [[1, 2], [4, 5], [6, 7]];
    assert Singletons([1, 2]) == [[1], [2]];
    ExtendTwo([1], 4, 5);
    ExtendTwo([2], 4, 5);
    assert [1] + [4] == [1, 4] && [1] + [5] == [1, 5];
    assert [2] + [4] == [2, 4] && [2] + [5] == [2, 5];
    assert [[1], [2]][1..] == [[2]] && |[[2]][1..]| == 0;
    assert PartialCartesian([[2]], [4, 5]) == [[2, 4], [2, 5]];
    assert PartialCartesian([[1], [2]], [4, 5]) == [[1, 4], [1, 5], [2, 4], [2, 5]];
    PartialCartesianExample();
    assert lists[1..] == [[4, 5], [6, 7]] && lists[1..][1..] == [[6, 7]] && |lists[1..][1..][1..]| == 0;
  }
}
