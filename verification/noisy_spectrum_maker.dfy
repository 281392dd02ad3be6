/** Spectrum synthesis (`NoisySpectrumMaker`): the wavenumber axis, component
    spectra as sums of peak shapes, and mixtures as concentration-weighted
    sums of noisy components plus an optional baseline.

    The peak function is a parameter, the concentration draws, peak draws and
    baseline vector are inputs, and vectors are `seq<real>`. */
module NoisySpectrumMakers {
  import opened Wrappers
  import opened OrderedDicts
  import opened PeakSkeletons
  import opened SpectrumSkeletons
  import opened PeakFuns
  import opened NoiseMakers

  /* ---------------------------------------------------------------------- */
  /* The wavenumber axis                                                     */

  /** The least integer not below `q`. */
  function Ceil(q: real): int {
    -((-q).Floor)
  }

  lemma {:induction false} CeilBounds(q: real)
    ensures q <= Ceil(q) as real < q + 1.0
  {
  }

  lemma {:induction false} ScaleLess(x: real, y: real, step: real)
    requires step > 0.0
    ensures x < y <==> x * step < y * step
  {
  }

  lemma {:induction false} QuotientTimes(a: real, step: real)
    requires step != 0.0
    ensures (a / step) * step == a
  {
  }

  /** `np.arange` rejects a zero step. */
  datatype AxisError = ZeroStep

  /** The number of points `np.arange(start, end, step)` produces. */
  function AxisLength(start: real, end: real, step: real): nat
    requires step != 0.0
  {
    var c := Ceil((end - start) / step);
    if c < 0 then 0 else c
  }

  /** `np.arange(start, end, step)`: the points `start + k * step` for
      `k = 0, 1, ...` as long as they lie before `end`. */
  function Arange(start: real, end: real, step: real): (r: Result<seq<real>, AxisError>)
    ensures r.Failure? <==> step == 0.0
    ensures r.Success? ==> |r.value| == AxisLength(start, end, step)
    ensures r.Success? ==> forall k :: 0 <= k < |r.value| ==> r.value[k] == start + k as real * step
  {
    if step == 0.0 then Failure(ZeroStep)
    else Success(seq(AxisLength(start, end, step), k => start + k as real * step))
  }

  /** With a positive step, the axis holds exactly the grid points that lie
      before `end`: point k is present if and only if it is below `end`. */
  lemma {:induction false} ArangeExactlyBelowEnd(start: real, end: real, step: real, k: nat)
    requires step > 0.0
    ensures k < |Arange(start, end, step).value| <==> start + k as real * step < end
  {
    var q := (end - start) / step;
    CeilBounds(q);
    ScaleLess(k as real, q, step);
    QuotientTimes(end - start, step);
  }

  /** With a positive step the axis is strictly ascending and lies in
      `[start, end)`. */
  lemma {:induction false} ArangeAscending(start: real, end: real, step: real)
    requires step > 0.0
    ensures forall i, j :: 0 <= i < j < |Arange(start, end, step).value| ==>
              Arange(start, end, step).value[i] < Arange(start, end, step).value[j]
    ensures forall i :: 0 <= i < |Arange(start, end, step).value| ==>
              start <= Arange(start, end, step).value[i] < end
  {
    var axis := Arange(start, end, step).value;
    forall i, j | 0 <= i < j < |axis|
      ensures axis[i] < axis[j]
    {
      ScaleLess(i as real, j as real, step);
    }
    forall i | 0 <= i < |axis|
      ensures start <= axis[i] < end
    {
      ScaleLess(0.0, i as real, step);
      ArangeExactlyBelowEnd(start, end, step, i);
    }
  }

  /** The axis every dataset uses, `np.arange(200, 2000, 1)`, has 1800 points,
      from 200 up to 1999. */
  lemma {:induction false} DefaultAxis()
    ensures Arange(200.0, 2000.0, 1.0).Success?
    ensures |Arange(200.0, 2000.0, 1.0).value| == 1800
    ensures Arange(200.0, 2000.0, 1.0).value[0] == 200.0
    ensures Arange(200.0, 2000.0, 1.0).value[1799] == 1999.0
  {
    assert Ceil((2000.0 - 200.0) / 1.0) == 1800;
  }

  /* ---------------------------------------------------------------------- */
  /* Vectors                                                                  */

  function Zeros(n: nat): (v: seq<real>)
    ensures |v| == n && forall j :: 0 <= j < n ==> v[j] == 0.0
  {
    seq(n, _ => 0.0)
  }

  function Add(u: seq<real>, v: seq<real>): (r: seq<real>)
    requires |u| == |v|
    ensures |r| == |u| && forall j :: 0 <= j < |u| ==> r[j] == u[j] + v[j]
  {
    seq(|u|, j requires 0 <= j < |u| => u[j] + v[j])
  }

  function Scale(c: real, v: seq<real>): (r: seq<real>)
    ensures |r| == |v| && forall j :: 0 <= j < |v| ==> r[j] == c * v[j]
  {
    seq(|v|, j requires 0 <= j < |v| => c * v[j])
  }

  /* ---------------------------------------------------------------------- */
  /* Component spectra                                                        */

  /** A peak function such as `lorentzian_wrapper`: the shape of one peak over
      an axis, or the reason it cannot be evaluated. */
  type PeakFun = (seq<real>, PeakSkeleton) -> Result<seq<real>, PeakError>

  /** The peak function returns one value per axis point. */
  ghost predicate KeepsShape(pf: PeakFun) {
    forall xs, p :: pf(xs, p).Success? ==> |pf(xs, p).value| == |xs|
  }

  /** The Lorentzian used for every dataset is such a peak function. */
  lemma {:induction false} LorentzianKeepsShape()
    ensures KeepsShape(LorentzianWrapper)
  {
  }

  /** `sum(map(partial(peak_fun, wavenumbers), peaks))`: the pointwise sum of
      the peak shapes, in peak order; the first peak that cannot be evaluated
      stops the sum with its error. */
  function SumPeaks(xs: seq<real>, peaks: seq<PeakSkeleton>, pf: PeakFun): (r: Result<seq<real>, PeakError>)
    requires KeepsShape(pf)
    ensures r.Success? <==> forall i :: 0 <= i < |peaks| ==> pf(xs, peaks[i]).Success?
    ensures r.Success? ==> |r.value| == |xs|
    ensures r.Failure? ==> exists i :: 0 <= i < |peaks| && pf(xs, peaks[i]) == Failure(r.error)
                                      && forall j :: 0 <= j < i ==> pf(xs, peaks[j]).Success?
  {
    if |peaks| == 0 then Success(Zeros(|xs|))
    else
      assert forall i :: 0 < i < |peaks| ==> peaks[i] == peaks[1..][i - 1];
      match pf(xs, peaks[0])
      case Failure(e) => Failure(e)
      case Success(v) =>
        match SumPeaks(xs, peaks[1..], pf)
        case Failure(e) => Failure(e)
        case Success(rest) => Success(Add(v, rest))
  }

  /** `generate_spectrum(spectrum_skeleton, peak_fun)`: the noiseless spectrum
      of one species over the axis. */
  function GenerateSpectrum(xs: seq<real>, s: SpectrumSkeleton, pf: PeakFun): (r: Result<seq<real>, PeakError>)
    requires KeepsShape(pf)
    ensures r.Success? <==> forall i :: 0 <= i < |s.peakList| ==> pf(xs, s.peakList[i]).Success?
    ensures r.Success? ==> |r.value| == |xs|
    ensures r.Failure? ==> exists i :: 0 <= i < |s.peakList| && pf(xs, s.peakList[i]) == Failure(r.error)
                                      && forall j :: 0 <= j < i ==> pf(xs, s.peakList[j]).Success?
  {
    SumPeaks(xs, s.peakList, pf)
  }

  /** A species with one peak has exactly that peak's shape as its spectrum. */
  lemma {:induction false} GenerateSpectrumOnePeak(xs: seq<real>, name: string, p: PeakSkeleton, pf: PeakFun)
    requires KeepsShape(pf)
    ensures GenerateSpectrum(xs, SpectrumSkeleton(name, [p]), pf) == pf(xs, p)
  {
    var peaks := [p];
    assert peaks[1..] == [];
    assert SumPeaks(xs, peaks[1..], pf) == Success(Zeros(|xs|));
    match pf(xs, p)
    case Failure(e) =>
    case Success(v) =>
      assert |v| == |xs|;
      assert Add(v, Zeros(|xs|)) == v;
  }

  /** A species with no peaks has the zero spectrum. */
  lemma {:induction false} GenerateSpectrumNoPeaks(xs: seq<real>, name: string, pf: PeakFun)
    requires KeepsShape(pf)
    ensures GenerateSpectrum(xs, SpectrumSkeleton(name, []), pf) == Success(Zeros(|xs|))
  {
  }

  /** Summing a concatenation of peak lists adds the two partial sums. */
  lemma {:induction false} SumPeaksAppend(xs: seq<real>, a: seq<PeakSkeleton>, b: seq<PeakSkeleton>, pf: PeakFun)
    requires KeepsShape(pf)
    requires SumPeaks(xs, a, pf).Success? && SumPeaks(xs, b, pf).Success?
    ensures SumPeaks(xs, a + b, pf) == Success(Add(SumPeaks(xs, a, pf).value, SumPeaks(xs, b, pf).value))
    decreases |a|
  {
    if |a| == 0 {
      assert a + b == b;
      var sb := SumPeaks(xs, b, pf).value;
      assert Add(Zeros(|xs|), sb) == sb;
    } else {
      assert (a + b)[1..] == a[1..] + b;
      assert (a + b)[0] == a[0];
      assert pf(xs, a[0]).Success?;
      SumPeaksAppend(xs, a[1..], b, pf);
      var v := pf(xs, a[0]).value;
      var sa' := SumPeaks(xs, a[1..], pf).value;
      var sb := SumPeaks(xs, b, pf).value;
      assert Add(v, Add(sa', sb)) == Add(Add(v, sa'), sb);
    }
  }

  /** Over exact reals the order of the peaks does not matter. */
  lemma {:induction false} SumPeaksSwap(xs: seq<real>, a: seq<PeakSkeleton>, b: seq<PeakSkeleton>, pf: PeakFun)
    requires KeepsShape(pf)
    requires SumPeaks(xs, a, pf).Success? && SumPeaks(xs, b, pf).Success?
    ensures SumPeaks(xs, a + b, pf) == SumPeaks(xs, b + a, pf)
  {
    SumPeaksAppend(xs, a, b, pf);
    SumPeaksAppend(xs, b, a, pf);
    var sa := SumPeaks(xs, a, pf).value;
    var sb := SumPeaks(xs, b, pf).value;
    assert Add(sa, sb) == Add(sb, sa);
  }

  /** The name and noiseless spectrum of every species, in list order. */
  function ComponentPairs(xs: seq<real>, skels: seq<SpectrumSkeleton>, pf: PeakFun)
    : (r: Result<seq<(string, seq<real>)>, PeakError>)
    requires KeepsShape(pf)
    ensures r.Success? <==> forall i :: 0 <= i < |skels| ==> GenerateSpectrum(xs, skels[i], pf).Success?
    ensures r.Success? ==> |r.value| == |skels|
    ensures r.Success? ==> forall i :: 0 <= i < |skels| ==>
              r.value[i] == (skels[i].name, GenerateSpectrum(xs, skels[i], pf).value)
    ensures r.Failure? ==> exists i :: 0 <= i < |skels| && GenerateSpectrum(xs, skels[i], pf) == Failure(r.error)
                                      && forall j :: 0 <= j < i ==> GenerateSpectrum(xs, skels[j], pf).Success?
  {
    if |skels| == 0 then Success([])
    else
      assert forall i :: 0 < i < |skels| ==> skels[i] == skels[1..][i - 1];
      match GenerateSpectrum(xs, skels[0], pf)
      case Failure(e) => Failure(e)
      case Success(v) =>
        match ComponentPairs(xs, skels[1..], pf)
        case Failure(e) => Failure(e)
        case Success(rest) => Success([(skels[0].name, v)] + rest)
  }

  /** `get_component_spectra(spectrum_skeletons)`: a dict from species name to
      its noiseless spectrum, assigned in list order. Its keys are exactly the
      species names, and each name holds the spectrum of the last species of
      that name. */
  function GetComponentSpectra(xs: seq<real>, skels: seq<SpectrumSkeleton>, pf: PeakFun)
    : (r: Result<Dict<string, seq<real>>, PeakError>)
    requires KeepsShape(pf)
    ensures r.Success? <==> forall i :: 0 <= i < |skels| ==> GenerateSpectrum(xs, skels[i], pf).Success?
    ensures r.Success? ==> forall name ::
              name in Keys(r.value) <==> exists i :: 0 <= i < |skels| && skels[i].name == name
    ensures r.Success? ==>
              forall i :: 0 <= i < |skels| && (forall j :: i < j < |skels| ==> skels[j].name != skels[i].name)
                ==> Get(r.value, skels[i].name) == Some(GenerateSpectrum(xs, skels[i], pf).value)
    ensures r.Failure? ==> exists i :: 0 <= i < |skels| && GenerateSpectrum(xs, skels[i], pf) == Failure(r.error)
                                      && forall j :: 0 <= j < i ==> GenerateSpectrum(xs, skels[j], pf).Success?
  {
    match ComponentPairs(xs, skels, pf)
    case Failure(e) => Failure(e)
    case Success(ps) =>
      ComponentSpectraKeys(xs, skels, pf);
      ComponentSpectraEntries(xs, skels, pf);
      Success(FromPairs(ps))
  }

  /** The keys of the component dict are exactly the species names. */
  lemma {:induction false} ComponentSpectraKeys(xs: seq<real>, skels: seq<SpectrumSkeleton>, pf: PeakFun)
    requires KeepsShape(pf)
    requires ComponentPairs(xs, skels, pf).Success?
    ensures forall name :: name in Keys(FromPairs(ComponentPairs(xs, skels, pf).value))
              <==> exists i :: 0 <= i < |skels| && skels[i].name == name
  {
    var ps := ComponentPairs(xs, skels, pf).value;
    forall name
      ensures name in Keys(FromPairs(ps)) <==> exists i :: 0 <= i < |skels| && skels[i].name == name
    {
      AssignAllKeys([], ps, name);
      if name in Keys(ps) {
        var i :| 0 <= i < |ps| && Keys(ps)[i] == name;
        assert skels[i].name == name;
      }
      if exists i :: 0 <= i < |skels| && skels[i].name == name {
        var i :| 0 <= i < |skels| && skels[i].name == name;
        assert Keys(ps)[i] == name;
      }
    }
  }

  /** Each species name maps to the spectrum of the last species of that
      name. */
  lemma {:induction false} ComponentSpectraEntries(xs: seq<real>, skels: seq<SpectrumSkeleton>, pf: PeakFun)
    requires KeepsShape(pf)
    requires ComponentPairs(xs, skels, pf).Success?
    ensures forall i :: 0 <= i < |skels| && (forall j :: i < j < |skels| ==> skels[j].name != skels[i].name)
              ==> Get(FromPairs(ComponentPairs(xs, skels, pf).value), skels[i].name)
                  == Some(GenerateSpectrum(xs, skels[i], pf).value)
  {
    var ps := ComponentPairs(xs, skels, pf).value;
    forall i | 0 <= i < |skels| && (forall j :: i < j < |skels| ==> skels[j].name != skels[i].name)
      ensures Get(FromPairs(ps), skels[i].name) == Some(GenerateSpectrum(xs, skels[i], pf).value)
    {
      AssignAllGet([], ps, skels[i].name);
      LastValueAt(ps, skels[i].name, i);
    }
  }

  /* ---------------------------------------------------------------------- */
  /* Mixtures                                                                 */

  /** The random input of one mixture: the peak draws of every species, one
      concentration per species (`concentration_fun()`), and the baseline
      vector `random_baseline` would return. */
  datatype MixtureDraws = MixtureDraws(noise: seq<seq<PeakDraw>>, concentrations: seq<real>, baseline: seq<real>)

  /** One peak draw per peak of every species, one concentration per species,
      one baseline value per axis point. */
  ghost predicate DrawsFit(xs: seq<real>, skels: seq<SpectrumSkeleton>, md: MixtureDraws) {
    && |md.noise| == |skels|
    && (forall i :: 0 <= i < |skels| ==> |md.noise[i]| == |skels[i].peakList|)
    && |md.concentrations| == |skels|
    && |md.baseline| == |xs|
  }

  /** The spectra of the given species, in list order; the first species
      whose spectrum cannot be evaluated stops the list with its error. */
  function Spectra(xs: seq<real>, skels: seq<SpectrumSkeleton>, pf: PeakFun)
    : (r: Result<seq<seq<real>>, PeakError>)
    requires KeepsShape(pf)
    ensures r.Success? <==> forall i :: 0 <= i < |skels| ==> GenerateSpectrum(xs, skels[i], pf).Success?
    ensures r.Success? ==> |r.value| == |skels|
    ensures r.Success? ==> forall i :: 0 <= i < |skels| ==> r.value[i] == GenerateSpectrum(xs, skels[i], pf).value
    ensures r.Failure? ==> exists i :: 0 <= i < |skels| && GenerateSpectrum(xs, skels[i], pf) == Failure(r.error)
                                      && forall j :: 0 <= j < i ==> GenerateSpectrum(xs, skels[j], pf).Success?
  {
    if |skels| == 0 then Success([])
    else
      assert forall i :: 0 < i < |skels| ==> skels[i] == skels[1..][i - 1];
      match GenerateSpectrum(xs, skels[0], pf)
      case Failure(e) => Failure(e)
      case Success(v) =>
        match Spectra(xs, skels[1..], pf)
        case Failure(e) => Failure(e)
        case Success(rest) => Success([v] + rest)
  }

  /** The noisy copy of every species, each perturbed with its own draws. */
  function NoisyCopies(nm: NoiseMaker, skels: seq<SpectrumSkeleton>, noise: seq<seq<PeakDraw>>)
    : (r: seq<SpectrumSkeleton>)
    requires |noise| == |skels| && forall i :: 0 <= i < |skels| ==> |noise[i]| == |skels[i].peakList|
    ensures |r| == |skels|
    ensures forall i :: 0 <= i < |skels| ==> r[i] == AddNoise(nm, skels[i], noise[i])
  {
    seq(|skels|, i requires 0 <= i < |skels| => AddNoise(nm, skels[i], noise[i]))
  }

  /** The spectra of the noisy copies of every species, in list order: each
      species is perturbed with its own draws before it is evaluated, and the
      first species whose noisy copy cannot be evaluated gives the error. */
  function NoisySpectra(xs: seq<real>, skels: seq<SpectrumSkeleton>, nm: NoiseMaker,
                        noise: seq<seq<PeakDraw>>, pf: PeakFun)
    : (r: Result<seq<seq<real>>, PeakError>)
    requires KeepsShape(pf)
    requires |noise| == |skels| && forall i :: 0 <= i < |skels| ==> |noise[i]| == |skels[i].peakList|
    ensures r.Success? <==> forall i :: 0 <= i < |skels| ==>
              GenerateSpectrum(xs, AddNoise(nm, skels[i], noise[i]), pf).Success?
    ensures r.Success? ==> |r.value| == |skels|
    ensures r.Success? ==> forall i :: 0 <= i < |skels| ==>
              r.value[i] == GenerateSpectrum(xs, AddNoise(nm, skels[i], noise[i]), pf).value
    ensures r.Failure? ==>
              exists i :: 0 <= i < |skels|
                && GenerateSpectrum(xs, AddNoise(nm, skels[i], noise[i]), pf) == Failure(r.error)
                && forall j :: 0 <= j < i ==> GenerateSpectrum(xs, AddNoise(nm, skels[j], noise[j]), pf).Success?
  {
    Spectra(xs, NoisyCopies(nm, skels, noise), pf)
  }

  /** Every vector has `n` points. */
  ghost predicate AllOfLength(vs: seq<seq<real>>, n: nat) {
    forall i :: 0 <= i < |vs| ==> |vs[i]| == n
  }

  /** `sum_i c_i * v_i`, starting from the zero vector of length `n`. */
  function Combine(vs: seq<seq<real>>, cs: seq<real>, n: nat): (r: seq<real>)
    requires |vs| == |cs| && AllOfLength(vs, n)
    ensures |r| == n
  {
    if |vs| == 0 then Zeros(n)
    else Add(Scale(cs[0], vs[0]), Combine(vs[1..], cs[1..], n))
  }

  /** A weighted sum over a concatenation is the sum of the two weighted sums. */
  lemma {:induction false} CombineAppend(vs1: seq<seq<real>>, cs1: seq<real>, vs2: seq<seq<real>>, cs2: seq<real>, n: nat)
    requires |vs1| == |cs1| && AllOfLength(vs1, n)
    requires |vs2| == |cs2| && AllOfLength(vs2, n)
    ensures AllOfLength(vs1 + vs2, n)
    ensures Combine(vs1 + vs2, cs1 + cs2, n) == Add(Combine(vs1, cs1, n), Combine(vs2, cs2, n))
    decreases |vs1|
  {
    if |vs1| == 0 {
      assert vs1 + vs2 == vs2 && cs1 + cs2 == cs2;
      var c2 := Combine(vs2, cs2, n);
      assert Add(Zeros(n), c2) == c2;
    } else {
      assert (vs1 + vs2)[1..] == vs1[1..] + vs2;
      assert (cs1 + cs2)[1..] == cs1[1..] + cs2;
      CombineAppend(vs1[1..], cs1[1..], vs2, cs2, n);
      var head := Scale(cs1[0], vs1[0]);
      var a := Combine(vs1[1..], cs1[1..], n);
      var b := Combine(vs2, cs2, n);
      assert Add(head, Add(a, b)) == Add(Add(head, a), b);
    }
  }

  /** Scaling every concentration by `t` scales the weighted sum by `t`. */
  lemma {:induction false} CombineScale(vs: seq<seq<real>>, cs: seq<real>, ts: seq<real>, n: nat, t: real)
    requires |vs| == |cs| && AllOfLength(vs, n)
    requires |ts| == |cs| && forall i :: 0 <= i < |cs| ==> ts[i] == t * cs[i]
    ensures Combine(vs, ts, n) == Scale(t, Combine(vs, cs, n))
    decreases |vs|
  {
    if |vs| == 0 {
      assert Scale(t, Zeros(n)) == Zeros(n);
    } else {
      CombineScale(vs[1..], cs[1..], ts[1..], n, t);
      var rest := Combine(vs[1..], cs[1..], n);
      var head := Scale(cs[0], vs[0]);
      ScaleScale(t, cs[0], ts[0], vs[0]);
      ScaleAdd(t, head, rest);
    }
  }

  /** Scaling twice is scaling by the product. */
  lemma {:induction false} ScaleScale(t: real, c: real, tc: real, v: seq<real>)
    requires tc == t * c
    ensures Scale(tc, v) == Scale(t, Scale(c, v))
  {
    forall j | 0 <= j < |v|
      ensures Scale(tc, v)[j] == Scale(t, Scale(c, v))[j]
    {
    }
  }

  /** Scaling distributes over a pointwise sum. */
  lemma {:induction false} ScaleAdd(t: real, u: seq<real>, v: seq<real>)
    requires |u| == |v|
    ensures Scale(t, Add(u, v)) == Add(Scale(t, u), Scale(t, v))
  {
    forall j | 0 <= j < |u|
      ensures Scale(t, Add(u, v))[j] == Add(Scale(t, u), Scale(t, v))[j]
    {
      MulDistrib(t, u[j], v[j]);
    }
  }

  lemma {:induction false} MulDistrib(t: real, a: real, b: real)
    ensures t * (a + b) == t * a + t * b
  {
  }

  /** The weighted sum of a single vector is that vector scaled. */
  lemma {:induction false} CombineOne(v: seq<real>, c: real)
    ensures Combine([v], [c], |v|) == Scale(c, v)
  {
    assert [v][1..] == [];
    assert Add(Scale(c, v), Zeros(|v|)) == Scale(c, v);
  }

  /** The pairs the concentration dict is assigned from: each species' name
      with its concentration, in list order. */
  function ConcentrationPairs(skels: seq<SpectrumSkeleton>, cs: seq<real>): (ps: seq<(string, real)>)
    requires |cs| == |skels|
    ensures |ps| == |skels|
    ensures forall i :: 0 <= i < |skels| ==> ps[i] == (skels[i].name, cs[i])
  {
    seq(|skels|, i requires 0 <= i < |skels| => (skels[i].name, cs[i]))
  }

  /** `generate_mixture_spectrum(spectrum_skeletons, noise_maker)`: the
      concentration-weighted sum of the noisy species spectra, plus the
      baseline when the noise maker asks for one, with the dict of drawn
      concentrations. */
  function GenerateMixtureSpectrum(xs: seq<real>, skels: seq<SpectrumSkeleton>, nm: NoiseMaker,
                                   md: MixtureDraws, pf: PeakFun)
    : (r: Result<(seq<real>, Dict<string, real>), PeakError>)
    requires KeepsShape(pf) && DrawsFit(xs, skels, md)
    ensures r.Success? <==> NoisySpectra(xs, skels, nm, md.noise, pf).Success?
    ensures r.Success? ==> |r.value.0| == |xs|
    ensures r.Success? && !nm.addBaseline ==>
              r.value.0 == Combine(NoisySpectra(xs, skels, nm, md.noise, pf).value, md.concentrations, |xs|)
    ensures r.Success? && nm.addBaseline ==>
              r.value.0 == Add(Combine(NoisySpectra(xs, skels, nm, md.noise, pf).value, md.concentrations, |xs|),
                               md.baseline)
    ensures r.Success? ==> r.value.1 == FromPairs(ConcentrationPairs(skels, md.concentrations))
    ensures r.Failure? ==>
              exists i :: 0 <= i < |skels|
                && GenerateSpectrum(xs, AddNoise(nm, skels[i], md.noise[i]), pf) == Failure(r.error)
                && forall j :: 0 <= j < i ==> GenerateSpectrum(xs, AddNoise(nm, skels[j], md.noise[j]), pf).Success?
  {
    match NoisySpectra(xs, skels, nm, md.noise, pf)
    case Failure(e) => Failure(e)
    case Success(spectra) =>
      var weighted := Combine(spectra, md.concentrations, |xs|);
      var mixture := if nm.addBaseline then Add(weighted, md.baseline) else weighted;
      Success((mixture, FromPairs(ConcentrationPairs(skels, md.concentrations))))
  }

  /** Every species name is a key of the concentration dict and nothing else
      is; each name holds the concentration drawn for the last species of that
      name, so distinct names keep every draw. */
  lemma {:induction false} ConcentrationDictEntries(skels: seq<SpectrumSkeleton>, cs: seq<real>, name: string)
    requires |cs| == |skels|
    ensures name in Keys(FromPairs(ConcentrationPairs(skels, cs)))
        <==> exists i :: 0 <= i < |skels| && skels[i].name == name
    ensures forall i :: 0 <= i < |skels| ==>
              (skels[i].name == name && (forall j :: i < j < |skels| ==> skels[j].name != name)) ==>
                Get(FromPairs(ConcentrationPairs(skels, cs)), name) == Some(cs[i])
  {
    var ps := ConcentrationPairs(skels, cs);
    AssignAllKeys([], ps, name);
    assert forall i :: 0 <= i < |skels| ==> Keys(ps)[i] == skels[i].name;
    AssignAllGet([], ps, name);
    forall i | 0 <= i < |skels| && skels[i].name == name
               && (forall j :: i < j < |skels| ==> skels[j].name != name)
      ensures Get(FromPairs(ps), name) == Some(cs[i])
    {
      LastValueAt(ps, name, i);
    }
  }

  /** With no perturbation (every draw (0, 1, 1)), the noisy spectra are the
      noiseless component spectra `get_component_spectra` reports, in order. */
  lemma {:induction false} NoiseFreeSpectra(xs: seq<real>, skels: seq<SpectrumSkeleton>, nm: NoiseMaker,
                         noise: seq<seq<PeakDraw>>, pf: PeakFun)
    requires KeepsShape(pf)
    requires |noise| == |skels|
    requires forall i :: 0 <= i < |skels| ==> noise[i] == seq(|skels[i].peakList|, _ => NoChange)
    ensures NoisySpectra(xs, skels, nm, noise, pf).Success? <==> GetComponentSpectra(xs, skels, pf).Success?
    ensures NoisySpectra(xs, skels, nm, noise, pf).Success? ==>
              forall i :: 0 <= i < |skels| ==>
                NoisySpectra(xs, skels, nm, noise, pf).value[i] == ComponentPairs(xs, skels, pf).value[i].1
  {
    forall i | 0 <= i < |skels|
      ensures AddNoise(nm, skels[i], noise[i]) == skels[i]
    {
      AddNoiseNoChange(nm, skels[i]);
    }
  }

  /** A mixture of one species without baseline is that species' noisy
      spectrum scaled by its concentration. */
  lemma {:induction false} MixtureOfOne(xs: seq<real>, s: SpectrumSkeleton, nm: NoiseMaker, md: MixtureDraws, pf: PeakFun)
    requires KeepsShape(pf) && DrawsFit(xs, [s], md) && !nm.addBaseline
    requires GenerateSpectrum(xs, AddNoise(nm, s, md.noise[0]), pf).Success?
    ensures GenerateMixtureSpectrum(xs, [s], nm, md, pf).Success?
    ensures GenerateMixtureSpectrum(xs, [s], nm, md, pf).value.0
         == Scale(md.concentrations[0], GenerateSpectrum(xs, AddNoise(nm, s, md.noise[0]), pf).value)
  {
    var v := GenerateSpectrum(xs, AddNoise(nm, s, md.noise[0]), pf).value;
    assert NoisySpectra(xs, [s], nm, md.noise, pf).value == [v];
    assert md.concentrations == [md.concentrations[0]];
    CombineOne(v, md.concentrations[0]);
  }
}
