/**
 * Mixed-radix linearisation of multi-indices.
 *
 * A block of the state vector is linearised by nesting one loop per dimension; the ordering
 * lists the loops outermost first. `Linear` is the position reached when every level is dense;
 * `StridedOffset` is the position when the innermost level is contiguous and consecutive
 * innermost blocks are `stride` elements apart.
 */
module Linearization {

  /** Number of multi-indices below the given extents. */
  function Product(ext: seq<nat>): nat
  {
    if ext == [] then 1 else ext[0] * Product(ext[1..])
  }

  /** Every digit of idx is below the extent of its dimension. */
  predicate InRange(idx: seq<nat>, ext: seq<nat>)
  {
    |idx| == |ext| && forall i :: 0 <= i < |idx| ==> idx[i] < ext[i]
  }

  /** Dense row-major position of idx, outermost dimension first. */
  function Linear(idx: seq<nat>, ext: seq<nat>): nat
    requires |idx| == |ext|
  {
    if idx == [] then 0 else idx[0] * Product(ext[1..]) + Linear(idx[1..], ext[1..])
  }

  lemma MulMonotone(a: nat, b: nat, c: nat)
    requires a <= b
    ensures a * c <= b * c
  {
  }

  /** Two digits with a common weight p and remainders below p are determined by their sum. */
  lemma DigitUnique(a: nat, r: nat, b: nat, s: nat, p: nat)
    requires r < p && s < p && a * p + r == b * p + s
    ensures a == b && r == s
  {
    if a < b {
      MulMonotone(a + 1, b, p);
      assert false;
    } else if b < a {
      MulMonotone(b + 1, a, p);
      assert false;
    }
  }

  lemma {:induction false} LinearBelowProduct(idx: seq<nat>, ext: seq<nat>)
    requires InRange(idx, ext)
    ensures Linear(idx, ext) < Product(ext)
  {
    if idx != [] {
      assert InRange(idx[1..], ext[1..]) by {
        forall i | 0 <= i < |idx| - 1 ensures idx[1..][i] < ext[1..][i] {
          assert idx[1..][i] == idx[i + 1];
        }
      }
      LinearBelowProduct(idx[1..], ext[1..]);
      var p := Product(ext[1..]);
      MulMonotone(idx[0] + 1, ext[0], p);
      assert idx[0] * p + Linear(idx[1..], ext[1..]) < (idx[0] + 1) * p;
    }
  }

  /** Distinct in-range multi-indices have distinct dense positions. */
  lemma {:induction false} LinearInjective(i1: seq<nat>, i2: seq<nat>, ext: seq<nat>)
    requires InRange(i1, ext) && InRange(i2, ext)
    requires Linear(i1, ext) == Linear(i2, ext)
    ensures i1 == i2
  {
    if ext != [] {
      assert InRange(i1[1..], ext[1..]) by {
        forall i | 0 <= i < |i1| - 1 ensures i1[1..][i] < ext[1..][i] {
          assert i1[1..][i] == i1[i + 1];
        }
      }
      assert InRange(i2[1..], ext[1..]) by {
        forall i | 0 <= i < |i2| - 1 ensures i2[1..][i] < ext[1..][i] {
          assert i2[1..][i] == i2[i + 1];
        }
      }
      LinearBelowProduct(i1[1..], ext[1..]);
      LinearBelowProduct(i2[1..], ext[1..]);
      DigitUnique(i1[0], Linear(i1[1..], ext[1..]), i2[0], Linear(i2[1..], ext[1..]), Product(ext[1..]));
      LinearInjective(i1[1..], i2[1..], ext[1..]);
      assert i1 == [i1[0]] + i1[1..];
      assert i2 == [i2[0]] + i2[1..];
    }
  }

  /** The multi-index at dense position k: the inverse of Linear. */
  function Decompose(k: nat, ext: seq<nat>): (idx: seq<nat>)
    requires k < Product(ext)
    ensures InRange(idx, ext) && Linear(idx, ext) == k
    decreases |ext|
  {
    if ext == [] then []
    else
      var p := Product(ext[1..]);
      assert p > 0;
      var q, r := k / p, k % p;
      assert q < ext[0] by {
        if q >= ext[0] {
          MulMonotone(ext[0], q, p);
        }
      }
      var rest := Decompose(r, ext[1..]);
      assert ([q] + rest)[1..] == rest;
      [q] + rest
  }

  lemma DecomposeLinear(idx: seq<nat>, ext: seq<nat>)
    requires InRange(idx, ext)
    ensures Linear(idx, ext) < Product(ext) && Decompose(Linear(idx, ext), ext) == idx
  {
    LinearBelowProduct(idx, ext);
    LinearInjective(Decompose(Linear(idx, ext), ext), idx, ext);
  }

  lemma MulAssoc(a: nat, b: nat, c: nat)
    ensures a * (b * c) == (a * b) * c
  {
  }

  lemma DigitStep(a: nat, p: nat, r: nat, e: nat, i: nat)
    ensures a * (p * e) + (r * e + i) == (a * p + r) * e + i
  {
    MulAssoc(a, p, e);
  }

  /** Appending an innermost dimension multiplies the number of multi-indices by its extent. */
  lemma {:induction false} ProductSnoc(ext: seq<nat>, e: nat)
    ensures Product(ext + [e]) == Product(ext) * e
  {
    if ext != [] {
      assert (ext + [e])[1..] == ext[1..] + [e];
      ProductSnoc(ext[1..], e);
      MulAssoc(ext[0], Product(ext[1..]), e);
    } else {
      assert ext + [e] == [e];
    }
  }

  /** Appending an innermost dimension multiplies the position by its extent and adds its digit. */
  lemma {:induction false} LinearSnoc(idx: seq<nat>, ext: seq<nat>, i: nat, e: nat)
    requires |idx| == |ext|
    ensures Product(ext + [e]) == Product(ext) * e
    ensures Linear(idx + [i], ext + [e]) == Linear(idx, ext) * e + i
  {
    ProductSnoc(ext, e);
    if idx != [] {
      var rest, erest := idx[1..], ext[1..];
      assert (idx + [i])[0] == idx[0] && (idx + [i])[1..] == rest + [i];
      assert (ext + [e])[1..] == erest + [e];
      LinearSnoc(rest, erest, i, e);
      DigitStep(idx[0], Product(erest), Linear(rest, erest), e, i);
    } else {
      assert idx + [i] == [i];
      assert ext + [e] == [e];
    }
  }

  function Outer(s: seq<nat>): seq<nat>
    requires |s| > 0
  {
    s[..|s| - 1]
  }

  function Last(s: seq<nat>): nat
    requires |s| > 0
  {
    s[|s| - 1]
  }

  lemma OuterLast(s: seq<nat>)
    requires |s| > 0
    ensures s == Outer(s) + [Last(s)]
  {
  }

  /** Position of idx when the innermost level is contiguous and innermost blocks are stride apart. */
  function StridedOffset(idx: seq<nat>, ext: seq<nat>, stride: nat): nat
    requires |idx| == |ext| > 0
  {
    Linear(Outer(idx), Outer(ext)) * stride + Last(idx)
  }

  /** Number of buffer elements from the first to just after the last element of a strided block. */
  function Span(ext: seq<nat>, stride: nat): nat
    requires |ext| > 0
  {
    var blocks := Product(Outer(ext));
    if blocks == 0 then 0 else (blocks - 1) * stride + Last(ext)
  }

  lemma InRangeOuter(idx: seq<nat>, ext: seq<nat>)
    requires InRange(idx, ext) && |ext| > 0
    ensures InRange(Outer(idx), Outer(ext)) && Last(idx) < Last(ext)
  {
  }

  /** Two levels: the outer index counts strides, the inner one elements. */
  lemma StridedTwoLevels(a: nat, b: nat, ea: nat, eb: nat, stride: nat)
    ensures StridedOffset([a, b], [ea, eb], stride) == a * stride + b
  {
    assert Outer([a, b]) == [a] && Outer([ea, eb]) == [ea];
    assert Linear([a], [ea]) == a;
  }

  lemma StridedWithinSpan(idx: seq<nat>, ext: seq<nat>, stride: nat)
    requires InRange(idx, ext) && |ext| > 0
    ensures StridedOffset(idx, ext, stride) < Span(ext, stride)
  {
    InRangeOuter(idx, ext);
    LinearBelowProduct(Outer(idx), Outer(ext));
    var q := Linear(Outer(idx), Outer(ext));
    MulMonotone(q, Product(Outer(ext)) - 1, stride);
  }

  /** With blocks that do not overlap, distinct in-range multi-indices have distinct strided offsets. */
  lemma StridedInjective(i1: seq<nat>, i2: seq<nat>, ext: seq<nat>, stride: nat)
    requires InRange(i1, ext) && InRange(i2, ext) && |ext| > 0 && Last(ext) <= stride
    requires StridedOffset(i1, ext, stride) == StridedOffset(i2, ext, stride)
    ensures i1 == i2
  {
    InRangeOuter(i1, ext);
    InRangeOuter(i2, ext);
    DigitUnique(Linear(Outer(i1), Outer(ext)), Last(i1), Linear(Outer(i2), Outer(ext)), Last(i2), stride);
    LinearInjective(Outer(i1), Outer(i2), Outer(ext));
    assert i1 == Outer(i1) + [Last(i1)];
    assert i2 == Outer(i2) + [Last(i2)];
  }

  lemma DenseOffsetStep(idx: seq<nat>, ext: seq<nat>)
    requires |idx| == |ext| > 0
    ensures StridedOffset(idx, ext, Last(ext)) == Linear(idx, ext)
  {
    var oi, o := Outer(idx), Outer(ext);
    OuterLast(idx);
    OuterLast(ext);
    LinearSnoc(oi, o, Last(idx), Last(ext));
  }

  lemma DenseSpanStep(ext: seq<nat>)
    requires |ext| > 0
    ensures Span(ext, Last(ext)) == Product(ext)
  {
    OuterLast(ext);
    ProductSnoc(Outer(ext), Last(ext));
    DenseSpan(Product(Outer(ext)), Last(ext));
  }

  /** A block whose stride equals its innermost extent is dense: strided and dense positions agree. */
  lemma DenseStrided(idx: seq<nat>, ext: seq<nat>)
    requires |idx| == |ext| > 0
    ensures StridedOffset(idx, ext, Last(ext)) == Linear(idx, ext)
    ensures Span(ext, Last(ext)) == Product(ext)
  {
    DenseOffsetStep(idx, ext);
    DenseSpanStep(ext);
  }

  lemma DenseSpan(blocks: nat, e: nat)
    ensures (if blocks == 0 then 0 else (blocks - 1) * e + e) == blocks * e
  {
    if blocks > 0 {
      assert (blocks - 1) * e + e == blocks * e;
    }
  }

  lemma StrideStep(q: nat, stride: nat)
    ensures (q + 1) * stride == q * stride + stride
  {
  }

  /** One step along the next-to-innermost dimension moves the element by exactly one stride. */
  lemma NextBlock(idx: seq<nat>, ext: seq<nat>, stride: nat)
    requires |idx| == |ext| >= 2
    ensures var n := |idx|;
      StridedOffset(idx[n - 2 := idx[n - 2] + 1], ext, stride) == StridedOffset(idx, ext, stride) + stride
  {
    var n := |idx|;
    var idx' := idx[n - 2 := idx[n - 2] + 1];
    var pre, ext0, e := idx[..n - 2], ext[..n - 2], ext[n - 2];
    assert Outer(idx) == pre + [idx[n - 2]];
    assert Outer(idx') == pre + [idx[n - 2] + 1];
    assert Outer(ext) == ext0 + [e];
    assert Last(idx') == Last(idx);
    LinearSnoc(pre, ext0, idx[n - 2], e);
    LinearSnoc(pre, ext0, idx[n - 2] + 1, e);
    var q := Linear(Outer(idx), Outer(ext));
    assert Linear(Outer(idx'), Outer(ext)) == q + 1;
    StrideStep(q, stride);
  }
}
