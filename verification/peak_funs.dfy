/** Peak line shapes evaluated over a wavenumber axis, with exact reals in
    place of floating point. Only the Lorentzian is modelled. */
module PeakFuns {
  import opened Wrappers
  import opened PeakSkeletons

  /** Why evaluating a peak fails.
      - EmptyAxis: `max` of an empty axis raises.
      - PeakBeyondAxis: the assertion that the centre lies below the axis
        maximum fails.
      - ZeroWidth: the division by half the width has no real value. */
  datatype PeakError = EmptyAxis | PeakBeyondAxis | ZeroWidth

  /** The largest point of a non-empty axis (`max(x_data)`). */
  function Max(xs: seq<real>): (m: real)
    requires |xs| > 0
    ensures m in xs
    ensures forall j :: 0 <= j < |xs| ==> xs[j] <= m
  {
    if |xs| == 1 then xs[0]
    else
      var m' := Max(xs[1..]);
      assert forall j :: 1 <= j < |xs| ==> xs[j] == xs[1..][j - 1];
      if xs[0] >= m' then xs[0] else m'
  }

  /** The Lorentzian of centre `p0`, height `a` and full width `w` at one
      point `x`: `a / (1 + u^2)` with `u = (x - p0) / (w / 2)`. */
  function LorentzianAt(x: real, p0: real, a: real, w: real): real
    requires w != 0.0
  {
    var u := (x - p0) / (w / 2.0);
    assert u * u >= 0.0 by { SquareNonNegative(u); }
    a / (1.0 + u * u)
  }

  lemma {:induction false} SquareNonNegative(u: real)
    ensures u * u >= 0.0
  {
    if u < 0.0 {
      assert u * u == (-u) * (-u);
    }
  }

  lemma {:induction false} NonZeroFactor(a: real, b: real)
    requires a != 0.0 && a * b == 0.0
    ensures b == 0.0
  {
    assert b == (a * b) / a;
  }

  /** `lorentzian(x_data, p0, a, w)`: the shape evaluated at every axis point,
      after checking that the centre lies below the axis maximum. */
  function Lorentzian(xs: seq<real>, p0: real, a: real, w: real): (r: Result<seq<real>, PeakError>)
    ensures r.Success? <==> (exists j :: 0 <= j < |xs| && p0 < xs[j]) && w != 0.0
    ensures |xs| == 0 ==> r == Failure(EmptyAxis)
    ensures |xs| > 0 && (forall j :: 0 <= j < |xs| ==> xs[j] <= p0) ==> r == Failure(PeakBeyondAxis)
    ensures (exists j :: 0 <= j < |xs| && p0 < xs[j]) && w == 0.0 ==> r == Failure(ZeroWidth)
    ensures r.Success? ==> |r.value| == |xs|
    ensures r.Success? ==> forall j :: 0 <= j < |xs| ==> r.value[j] == LorentzianAt(xs[j], p0, a, w)
  {
    if |xs| == 0 then Failure(EmptyAxis)
    else if !(p0 < Max(xs)) then Failure(PeakBeyondAxis)
    else if w == 0.0 then Failure(ZeroWidth)
    else Success(seq(|xs|, j requires 0 <= j < |xs| => LorentzianAt(xs[j], p0, a, w)))
  }

  /** `lorentzian_wrapper(x_data, peak_skeleton)`: the Lorentzian of a peak
      record, taking its centre, height and width in that order. */
  function LorentzianWrapper(xs: seq<real>, pk: PeakSkeleton): (r: Result<seq<real>, PeakError>)
    ensures r.Success? <==> (exists j :: 0 <= j < |xs| && pk.wavenumber < xs[j]) && pk.width != 0.0
    ensures r.Success? ==> |r.value| == |xs|
    ensures r.Success? ==> forall j :: 0 <= j < |xs| ==>
              r.value[j] == LorentzianAt(xs[j], pk.wavenumber, pk.amplitude, pk.width)
  {
    Lorentzian(xs, pk.wavenumber, pk.amplitude, pk.width)
  }

  /** At its centre the peak takes exactly its height. */
  lemma {:induction false} LorentzianAtCentre(p0: real, a: real, w: real)
    requires w != 0.0
    ensures LorentzianAt(p0, p0, a, w) == a
  {
  }

  /** Half a width away from the centre, on either side, the peak takes
      exactly half its height: `w` is the full width at half maximum. */
  lemma {:induction false} LorentzianHalfMaximum(p0: real, a: real, w: real)
    requires w != 0.0
    ensures LorentzianAt(p0 + w / 2.0, p0, a, w) == a / 2.0
    ensures LorentzianAt(p0 - w / 2.0, p0, a, w) == a / 2.0
  {
    assert (p0 + w / 2.0 - p0) / (w / 2.0) == 1.0;
    assert (p0 - w / 2.0 - p0) / (w / 2.0) == -1.0;
  }

  /** Conversely, a non-zero peak takes half its height only half a width away
      from its centre. */
  lemma {:induction false} LorentzianHalfMaximumOnly(x: real, p0: real, a: real, w: real)
    requires w != 0.0 && a != 0.0
    requires LorentzianAt(x, p0, a, w) == a / 2.0
    ensures x == p0 + w / 2.0 || x == p0 - w / 2.0
  {
    var h := w / 2.0;
    var u := (x - p0) / h;
    SquareNonNegative(u);
    assert a / (1.0 + u * u) == a / 2.0;
    var q := 1.0 + u * u;
    assert q == 2.0 by {
      assert (a / q) * q == a;
      assert (a / 2.0) * q == a;
      assert a * (q - 2.0) == 0.0;
      NonZeroFactor(a, q - 2.0);
    }
    assert (u - 1.0) * (u + 1.0) == 0.0;
    if u == 1.0 {
      assert x - p0 == u * h;
    } else {
      assert u == -1.0;
      assert x - p0 == u * h;
    }
  }

  /** The peak is symmetric about its centre. */
  lemma {:induction false} LorentzianSymmetric(p0: real, d: real, a: real, w: real)
    requires w != 0.0
    ensures LorentzianAt(p0 + d, p0, a, w) == LorentzianAt(p0 - d, p0, a, w)
  {
    var h := w / 2.0;
    assert (p0 - d - p0) / h == -((p0 + d - p0) / h);
  }

  /** A non-negative peak stays between zero and its height, and a positive
      peak is positive everywhere. */
  lemma {:induction false} LorentzianBounds(x: real, p0: real, a: real, w: real)
    requires w != 0.0
    ensures a >= 0.0 ==> 0.0 <= LorentzianAt(x, p0, a, w) <= a
    ensures a > 0.0 ==> LorentzianAt(x, p0, a, w) > 0.0
    ensures a <= 0.0 ==> a <= LorentzianAt(x, p0, a, w) <= 0.0
  {
    var u := (x - p0) / (w / 2.0);
    var q := 1.0 + u * u;
    SquareNonNegative(u);
    var v := a / q;
    assert v * q == a;
    if a >= 0.0 {
      assert v >= 0.0;
      assert v * q - v == v * (q - 1.0);
      assert v * (q - 1.0) >= 0.0;
    } else {
      assert v < 0.0;
      assert v * q - v == v * (q - 1.0);
      assert v * (q - 1.0) <= 0.0;
    }
  }
}
