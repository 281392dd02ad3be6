/** Peak-parameter noise (`NoiseMaker`). The random draws are inputs: one
    `PeakDraw` per peak, in peak order. */
module NoiseMakers {
  import opened PeakSkeletons
  import opened SpectrumSkeletons

  /** `NoiseMaker(wavenumber_std, amplitude_std, width_std, add_baseline)`:
      the spread of each perturbation, and whether a mixture made with this
      noise gets a baseline. */
  datatype NoiseMaker = NoiseMaker(wavenumberStd: real, amplitudeStd: real, widthStd: real, addBaseline: bool)

  /** The three numbers drawn for one peak, in the order they are drawn: a
      shift from `normal(0, wavenumber_std)`, then factors from
      `lognormal(1, amplitude_std)` and `lognormal(1, width_std)`. */
  datatype PeakDraw = PeakDraw(shift: real, amplitudeFactor: real, widthFactor: real)

  /** What every draw of this noise maker satisfies: log-normal factors are
      positive, and a normal of zero spread returns exactly zero. A log-normal
      of zero spread returns e, not 1, so nothing more is known of factors. */
  ghost predicate Plausible(nm: NoiseMaker, draws: seq<PeakDraw>) {
    forall i :: 0 <= i < |draws| ==>
      && draws[i].amplitudeFactor > 0.0
      && draws[i].widthFactor > 0.0
      && (nm.wavenumberStd == 0.0 ==> draws[i].shift == 0.0)
  }

  /** One peak after its draw: shifted position, scaled height and width. */
  function PerturbPeak(p: PeakSkeleton, d: PeakDraw): PeakSkeleton {
    p.(wavenumber := p.wavenumber + d.shift,
       amplitude := p.amplitude * d.amplitudeFactor,
       width := p.width * d.widthFactor)
  }

  /** `add_noise(spectrum_skeleton)`: a perturbed copy of the skeleton. Each
      peak uses its own draw; the name and the peak labels are carried over.
      The noise maker's spreads only shape the draws, and its baseline flag is
      not read here. */
  function AddNoise(nm: NoiseMaker, s: SpectrumSkeleton, draws: seq<PeakDraw>): (r: SpectrumSkeleton)
    requires |draws| == |s.peakList|
    ensures r.name == s.name
    ensures |r.peakList| == |s.peakList|
    ensures forall i :: 0 <= i < |s.peakList| ==>
              && r.peakList[i].wavenumber == s.peakList[i].wavenumber + draws[i].shift
              && r.peakList[i].amplitude == s.peakList[i].amplitude * draws[i].amplitudeFactor
              && r.peakList[i].width == s.peakList[i].width * draws[i].widthFactor
              && r.peakList[i].idenity == s.peakList[i].idenity
  {
    SpectrumSkeleton(s.name, seq(|s.peakList|, i requires 0 <= i < |s.peakList| => PerturbPeak(s.peakList[i], draws[i])))
  }

  /** The draw that changes nothing: no shift, unit factors. */
  const NoChange: PeakDraw := PeakDraw(0.0, 1.0, 1.0)

  /** Draws of (0, 1, 1) for every peak give back the input exactly. */
  lemma {:induction false} AddNoiseNoChange(nm: NoiseMaker, s: SpectrumSkeleton)
    ensures AddNoise(nm, s, seq(|s.peakList|, _ => NoChange)) == s
  {
    var r := AddNoise(nm, s, seq(|s.peakList|, _ => NoChange));
    assert r.peakList == s.peakList;
  }

  /** The draw that undoes `d` (for non-zero factors). */
  function Inverse(d: PeakDraw): PeakDraw
    requires d.amplitudeFactor != 0.0 && d.widthFactor != 0.0
  {
    PeakDraw(-d.shift, 1.0 / d.amplitudeFactor, 1.0 / d.widthFactor)
  }

  /** Perturbing with a draw and then with its inverse restores the input. */
  lemma {:induction false} AddNoiseInverse(nm: NoiseMaker, s: SpectrumSkeleton, draws: seq<PeakDraw>)
    requires |draws| == |s.peakList|
    requires forall i :: 0 <= i < |draws| ==> draws[i].amplitudeFactor != 0.0 && draws[i].widthFactor != 0.0
    ensures AddNoise(nm, AddNoise(nm, s, draws), seq(|draws|, i requires 0 <= i < |draws| => Inverse(draws[i]))) == s
  {
    var inv := seq(|draws|, i requires 0 <= i < |draws| => Inverse(draws[i]));
    var r := AddNoise(nm, AddNoise(nm, s, draws), inv);
    forall i | 0 <= i < |s.peakList|
      ensures r.peakList[i] == s.peakList[i]
    {
      var p := s.peakList[i];
      var d := draws[i];
      assert p.amplitude * d.amplitudeFactor * (1.0 / d.amplitudeFactor) == p.amplitude;
      assert p.width * d.widthFactor * (1.0 / d.widthFactor) == p.width;
    }
    assert r.peakList == s.peakList;
  }

  /** Two perturbations in a row are one perturbation whose shifts add and
      whose factors multiply. */
  lemma {:induction false} AddNoiseCompose(nm: NoiseMaker, s: SpectrumSkeleton, d1: seq<PeakDraw>, d2: seq<PeakDraw>)
    requires |d1| == |s.peakList| && |d2| == |s.peakList|
    ensures AddNoise(nm, AddNoise(nm, s, d1), d2)
         == AddNoise(nm, s, seq(|d1|, i requires 0 <= i < |d1| =>
              PeakDraw(d1[i].shift + d2[i].shift,
                       d1[i].amplitudeFactor * d2[i].amplitudeFactor,
                       d1[i].widthFactor * d2[i].widthFactor)))
  {
    var d := seq(|d1|, i requires 0 <= i < |d1| =>
               PeakDraw(d1[i].shift + d2[i].shift,
                        d1[i].amplitudeFactor * d2[i].amplitudeFactor,
                        d1[i].widthFactor * d2[i].widthFactor));
    var r1 := AddNoise(nm, AddNoise(nm, s, d1), d2);
    var r2 := AddNoise(nm, s, d);
    forall i | 0 <= i < |s.peakList|
      ensures r1.peakList[i] == r2.peakList[i]
    {
      var p := s.peakList[i];
      assert p.amplitude * d1[i].amplitudeFactor * d2[i].amplitudeFactor
          == p.amplitude * (d1[i].amplitudeFactor * d2[i].amplitudeFactor);
      assert p.width * d1[i].widthFactor * d2[i].widthFactor
          == p.width * (d1[i].widthFactor * d2[i].widthFactor);
    }
  }

  /** Plausible draws keep the sign of every height and width, and leave
      positions alone when the position spread is zero. */
  lemma {:induction false} AddNoisePlausible(nm: NoiseMaker, s: SpectrumSkeleton, draws: seq<PeakDraw>)
    requires |draws| == |s.peakList| && Plausible(nm, draws)
    ensures forall i :: 0 <= i < |s.peakList| ==>
              && (AddNoise(nm, s, draws).peakList[i].amplitude > 0.0 <==> s.peakList[i].amplitude > 0.0)
              && (AddNoise(nm, s, draws).peakList[i].amplitude < 0.0 <==> s.peakList[i].amplitude < 0.0)
              && (AddNoise(nm, s, draws).peakList[i].width > 0.0 <==> s.peakList[i].width > 0.0)
              && (AddNoise(nm, s, draws).peakList[i].width < 0.0 <==> s.peakList[i].width < 0.0)
    ensures nm.wavenumberStd == 0.0 ==>
              forall i :: 0 <= i < |s.peakList| ==>
                AddNoise(nm, s, draws).peakList[i].wavenumber == s.peakList[i].wavenumber
  {
    var r := AddNoise(nm, s, draws);
    forall i | 0 <= i < |s.peakList|
      ensures r.peakList[i].amplitude > 0.0 <==> s.peakList[i].amplitude > 0.0
      ensures r.peakList[i].amplitude < 0.0 <==> s.peakList[i].amplitude < 0.0
      ensures r.peakList[i].width > 0.0 <==> s.peakList[i].width > 0.0
      ensures r.peakList[i].width < 0.0 <==> s.peakList[i].width < 0.0
    {
      SignOfScaled(s.peakList[i].amplitude, draws[i].amplitudeFactor);
      SignOfScaled(s.peakList[i].width, draws[i].widthFactor);
    }
  }

  lemma {:induction false} SignOfScaled(x: real, f: real)
    requires f > 0.0
    ensures x * f > 0.0 <==> x > 0.0
    ensures x * f < 0.0 <==> x < 0.0
  {
  }

  /** The baseline flag does not affect the perturbation. */
  lemma {:induction false} AddNoiseIgnoresBaselineFlag(nm: NoiseMaker, s: SpectrumSkeleton, draws: seq<PeakDraw>, flag: bool)
    requires |draws| == |s.peakList|
    ensures AddNoise(nm.(addBaseline := flag), s, draws) == AddNoise(nm, s, draws)
  {
  }
}
