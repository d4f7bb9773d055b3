/** Pairwise operations on coefficient lists.

    The solver combines two lists element by element with Python's
    two-argument `map`, which stops at the end of the SHORTER list; the
    functions here truncate in the same way. */
module Vectors {

  function Min(a: int, b: int): int
  {
    if a <= b then a else b
  }

  /** `sum(s)`, added up from the last entry back. */
  function Sum(s: seq<real>): real
  {
    if |s| == 0 then 0.0 else s[0] + Sum(s[1..])
  }

  /** `sum(s, start)` as Python computes it: start plus the entries, added
      left to right. */
  function SumFrom(start: real, s: seq<real>): real
    decreases |s|
  {
    if |s| == 0 then start else SumFrom(start + s[0], s[1..])
  }

  /** Sum adds up the same total as Python's left-to-right `sum(s)`. */
  lemma {:induction false} SumIsLeftToRight(s: seq<real>)
    ensures Sum(s) == SumFrom(0.0, s)
    decreases |s|
  {
    if |s| > 0 {
      SumIsLeftToRight(s[1..]);
      SumFromStart(s[0], s[1..]);
    }
  }

  /** The start value of a left-to-right sum can be added at the end. */
  lemma {:induction false} SumFromStart(start: real, s: seq<real>)
    ensures SumFrom(start, s) == start + SumFrom(0.0, s)
    decreases |s|
  {
    if |s| > 0 {
      SumFromStart(start + s[0], s[1..]);
      SumFromStart(s[0], s[1..]);
    }
  }

  /** `map(lambda a, b: a * b, xs, ys)`: the products of the common prefix. */
  function Products(xs: seq<real>, ys: seq<real>): (r: seq<real>)
    ensures |r| == Min(|xs|, |ys|)
    ensures forall i :: 0 <= i < |r| ==> r[i] == xs[i] * ys[i]
  {
    seq(Min(|xs|, |ys|), i requires 0 <= i < Min(|xs|, |ys|) => xs[i] * ys[i])
  }

  /** `sum(map(lambda a, b: a * b, xs, ys))`: the dot product of the common
      prefix of the two lists. */
  function Dot(xs: seq<real>, ys: seq<real>): (r: real)
    ensures Min(|xs|, |ys|) == 0 ==> r == 0.0
  {
    Sum(Products(xs, ys))
  }

  /** `list(map(lambda a, b: m * a + b, xs, ys))`. */
  function ScaleAdd(m: real, xs: seq<real>, ys: seq<real>): (r: seq<real>)
    ensures |r| == Min(|xs|, |ys|)
    ensures forall i :: 0 <= i < |r| ==> r[i] == m * xs[i] + ys[i]
  {
    seq(Min(|xs|, |ys|), i requires 0 <= i < Min(|xs|, |ys|) => m * xs[i] + ys[i])
  }

  /** The first pair's product plus the dot product of the rest. */
  lemma DotCons(xs: seq<real>, ys: seq<real>)
    requires |xs| > 0 && |ys| > 0
    ensures Dot(xs, ys) == xs[0] * ys[0] + Dot(xs[1..], ys[1..])
  {
    var p, q := Products(xs, ys), Products(xs[1..], ys[1..]);
    assert |p[1..]| == |q|;
    assert forall i :: 0 <= i < |q| ==> p[1..][i] == q[i];
    assert p[1..] == q;
  }

  /** Only the common prefix of the two lists takes part in a dot product. */
  lemma DotTruncates(xs: seq<real>, ys: seq<real>)
    ensures Dot(xs, ys) == Dot(xs[..Min(|xs|, |ys|)], ys[..Min(|xs|, |ys|)])
  {
    var n := Min(|xs|, |ys|);
    var p, q := Products(xs, ys), Products(xs[..n], ys[..n]);
    assert |p| == |q|;
    assert forall i :: 0 <= i < |q| ==> p[i] == q[i];
    assert p == q;
  }

  /** A sum is linear in the summands: if a == m * b + c entry by entry, then
      sum(a) == m * sum(b) + sum(c). */
  lemma {:induction false} SumLinear(m: real, a: seq<real>, b: seq<real>, c: seq<real>)
    requires |a| == |b| == |c|
    requires forall i :: 0 <= i < |a| ==> a[i] == m * b[i] + c[i]
    ensures Sum(a) == m * Sum(b) + Sum(c)
  {
    if |a| > 0 {
      SumLinear(m, a[1..], b[1..], c[1..]);
      Distribute(m, b[0], Sum(b[1..]));
    }
  }

  lemma Distribute(m: real, x: real, y: real)
    ensures m * (x + y) == m * x + m * y
  {
  }

  lemma ProductOfScaleAdd(m: real, a: real, b: real, c: real)
    ensures (m * a + b) * c == m * (a * c) + b * c
  {
  }

  lemma Scaled(m: real, a: real, b: real)
    requires a == b
    ensures m * a == m * b
  {
  }

  /** The dot product is linear in its first argument:
      (m * xs + ys) . zs == m * (xs . zs) + ys . zs. */
  lemma DotScaleAdd(m: real, xs: seq<real>, ys: seq<real>, zs: seq<real>)
    requires |xs| == |ys|
    ensures Dot(ScaleAdd(m, xs, ys), zs) == m * Dot(xs, zs) + Dot(ys, zs)
  {
    var a, b, c := Products(ScaleAdd(m, xs, ys), zs), Products(xs, zs), Products(ys, zs);
    forall i | 0 <= i < |a|
      ensures a[i] == m * b[i] + c[i]
    {
      ProductOfScaleAdd(m, xs[i], ys[i], zs[i]);
    }
    SumLinear(m, a, b, c);
  }

  /** A leading zero coefficient contributes nothing: dropping it together
      with the first unknown keeps the dot product. */
  lemma DropZeroLead(cs: seq<real>, x: seq<real>)
    requires |cs| > 0 && |x| > 0 && cs[0] == 0.0
    ensures Dot(cs[1..], x[1..]) == Dot(cs, x)
  {
    DotCons(cs, x);
  }

  /** Adding m times one list to another so that their first entries cancel:
      the remaining entries, paired with the remaining unknowns, give the
      same combination of the two full dot products. */
  lemma ScaleAddTailDot(m: real, xs: seq<real>, ys: seq<real>, zs: seq<real>)
    requires |xs| == |ys| && |xs| > 0 && |zs| > 0
    requires m * xs[0] + ys[0] == 0.0
    ensures Dot(ScaleAdd(m, xs, ys)[1..], zs[1..]) == m * Dot(xs, zs) + Dot(ys, zs)
  {
    DropZeroLead(ScaleAdd(m, xs, ys), zs);
    DotScaleAdd(m, xs, ys, zs);
  }
}
