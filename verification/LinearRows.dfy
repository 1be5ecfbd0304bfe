/** Rows of reals: inner products, products with a calibration matrix, and squared length. */
module LinearRows {
  import opened BlockFormats

  type Row = seq<real>

  function Plus(u: Row, v: Row): (w: Row)
    requires |u| == |v|
    ensures |w| == |u| && forall i :: 0 <= i < |u| ==> w[i] == u[i] + v[i]
  {
    seq(|u|, i requires 0 <= i < |u| => u[i] + v[i])
  }

  function Minus(u: Row, v: Row): (w: Row)
    requires |u| == |v|
    ensures |w| == |u| && forall i :: 0 <= i < |u| ==> w[i] == u[i] - v[i]
  {
    seq(|u|, i requires 0 <= i < |u| => u[i] - v[i])
  }

  function Stretch(d: real, u: Row): (w: Row)
    ensures |w| == |u| && forall i :: 0 <= i < |u| ==> w[i] == Times(d, u[i])
  {
    seq(|u|, i requires 0 <= i < |u| => Times(d, u[i]))
  }

  function Dot(u: Row, v: Row): real
    requires |u| == |v|
  {
    if u == [] then 0.0 else Dot(u[..|u| - 1], v[..|u| - 1]) + Times(u[|u| - 1], v[|u| - 1])
  }

  function Norm2(u: Row): real { Dot(u, u) }

  /** One row of activations per sample, all of the same width. */
  ghost predicate Matrix(a: seq<Row>, width: nat) { forall s :: 0 <= s < |a| ==> |a[s]| == width }

  function Product(a: seq<Row>, v: Row): (r: Row)
    requires Matrix(a, |v|)
    ensures |r| == |a| && forall s :: 0 <= s < |a| ==> r[s] == Dot(a[s], v)
  {
    seq(|a|, s requires 0 <= s < |a| => Dot(a[s], v))
  }

  /** Column `j`: what one unit in place `j` adds to every sample. */
  function Column(a: seq<Row>, width: nat, j: nat): (c: Row)
    requires Matrix(a, width) && j < width
    ensures |c| == |a| && forall s :: 0 <= s < |a| ==> c[s] == a[s][j]
  {
    seq(|a|, s requires 0 <= s < |a| => a[s][j])
  }

  lemma TimesSum(a: real, b: real, c: real)
    ensures Times(a, b + c) == Times(a, b) + Times(a, c)
    ensures Times(b + c, a) == Times(b, a) + Times(c, a)
    ensures Times(a, b) == Times(b, a)
  {}

  lemma {:induction false} DotSum(u: Row, v: Row, w: Row)
    requires |u| == |v| == |w|
    ensures Dot(u, Plus(v, w)) == Dot(u, v) + Dot(u, w)
  {
    hide Times;
    if u != [] {
      var n := |u| - 1;
      assert Plus(v, w)[..n] == Plus(v[..n], w[..n]);
      DotSum(u[..n], v[..n], w[..n]);
      TimesSum(u[n], v[n], w[n]);
    }
  }

  lemma {:induction false} DotSymmetric(u: Row, v: Row)
    requires |u| == |v|
    ensures Dot(u, v) == Dot(v, u)
  {
    hide Times;
    if u != [] {
      DotSymmetric(u[..|u| - 1], v[..|u| - 1]);
      TimesSum(u[|u| - 1], v[|u| - 1], 0.0);
    }
  }

  lemma {:induction false} DotStretch(u: Row, d: real, v: Row)
    requires |u| == |v|
    ensures Dot(u, Stretch(d, v)) == Times(d, Dot(u, v))
  {
    hide Times;
    if u != [] {
      var n := |u| - 1;
      assert Stretch(d, v)[..n] == Stretch(d, v[..n]);
      DotStretch(u[..n], d, v[..n]);
      TimesSum(d, Dot(u[..n], v[..n]), Times(u[n], v[n]));
      TimesReorder(u[n], d, v[n]);
    }
  }

  lemma TimesReorder(a: real, b: real, c: real)
    ensures Times(a, Times(b, c)) == Times(b, Times(a, c))
  {}

  /** A change in one place. */
  lemma {:induction false} DotUpdate(u: Row, v: Row, j: nat, d: real)
    requires |u| == |v| && j < |v|
    ensures Dot(u, v[j := v[j] + d]) == Dot(u, v) + Times(d, u[j])
  {
    hide Times;
    var n, v' := |u| - 1, v[j := v[j] + d];
    if j == n {
      assert v'[..n] == v[..n];
      TimesSum(u[n], v[n], d);
      TimesSum(u[n], d, 0.0);
    } else {
      assert v'[..n] == v[..n][j := v[..n][j] + d];
      DotUpdate(u[..n], v[..n], j, d);
    }
  }

  lemma ProductSum(a: seq<Row>, v: Row, w: Row)
    requires |v| == |w| && Matrix(a, |v|)
    ensures Product(a, Plus(v, w)) == Plus(Product(a, v), Product(a, w))
  {
    hide Dot;
    forall s | 0 <= s < |a|
      ensures Product(a, Plus(v, w))[s] == Plus(Product(a, v), Product(a, w))[s]
    {
      DotSum(a[s], v, w);
    }
  }

  lemma ProductUpdate(a: seq<Row>, v: Row, j: nat, d: real)
    requires Matrix(a, |v|) && j < |v|
    ensures Product(a, v[j := v[j] + d]) == Plus(Product(a, v), Stretch(d, Column(a, |v|, j)))
  {
    hide Dot;
    forall s | 0 <= s < |a|
      ensures Product(a, v[j := v[j] + d])[s] == Plus(Product(a, v), Stretch(d, Column(a, |v|, j)))[s]
    {
      DotUpdate(a[s], v, j, d);
    }
  }

  /** The squared length after adding a multiple of a column. */
  lemma Norm2Step(r: Row, d: real, c: Row)
    requires |r| == |c|
    ensures Norm2(Plus(r, Stretch(d, c))) == Norm2(r) + 2.0 * Times(d, Dot(r, c)) + Times(d, Times(d, Norm2(c)))
  {
    hide Dot, Times;
    var t := Stretch(d, c);
    DotSum(Plus(r, t), r, t);
    DotSymmetric(Plus(r, t), r);
    DotSymmetric(Plus(r, t), t);
    DotSum(r, r, t);
    DotSum(t, r, t);
    DotSymmetric(t, r);
    DotStretch(r, d, c);
    DotStretch(t, d, c);
    DotSymmetric(t, c);
    DotStretch(c, d, c);
  }
}
