/** A species' noiseless definition (`SpectrumSkeleton`): its name and its
    peaks, built from the JSON list of peak dicts. */
module SpectrumSkeletons {
  import opened Wrappers
  import opened PeakSkeletons

  /** A named species and its peaks, in file order. */
  datatype SpectrumSkeleton = SpectrumSkeleton(name: string, peakList: seq<PeakSkeleton>)

  /** Every dict carries numbers in its numeric fields. */
  ghost predicate AllNumeric(dicts: seq<PeakDict>) {
    forall i :: 0 <= i < |dicts| ==> NumericFields(dicts[i])
  }

  /** The peaks built from `dicts` in order; the first dict the constructor
      rejects stops the loop with its error. */
  function MakePeaks(dicts: seq<PeakDict>): (r: Result<seq<PeakSkeleton>, ConstructionError>)
    requires AllNumeric(dicts)
    ensures r.Success? <==> forall i :: 0 <= i < |dicts| ==> MakePeak(dicts[i]).Success?
    ensures r.Success? ==> |r.value| == |dicts|
    ensures r.Success? ==> forall i :: 0 <= i < |dicts| ==> r.value[i] == MakePeak(dicts[i]).value
    ensures r.Failure? ==> exists i :: 0 <= i < |dicts| && MakePeak(dicts[i]) == Failure(r.error)
                                      && forall j :: 0 <= j < i ==> MakePeak(dicts[j]).Success?
  {
    if |dicts| == 0 then Success([])
    else match MakePeak(dicts[0])
      case Failure(e) => Failure(e)
      case Success(p) =>
        match MakePeaks(dicts[1..])
        case Failure(e) =>
          LaterRejection(dicts, e);
          Failure(e)
        case Success(ps) =>
          assert forall j :: 0 < j < |dicts| ==> dicts[j] == dicts[1..][j - 1];
          Success([p] + ps)
  }

  /** A rejection found past an accepted first dict is a first rejection of
      the whole list, one place further on. */
  lemma {:induction false} LaterRejection(dicts: seq<PeakDict>, e: ConstructionError)
    requires AllNumeric(dicts) && |dicts| > 0 && MakePeak(dicts[0]).Success?
    requires AllNumeric(dicts[1..])
    requires exists i :: 0 <= i < |dicts[1..]| && MakePeak(dicts[1..][i]) == Failure(e)
                         && forall j :: 0 <= j < i ==> MakePeak(dicts[1..][j]).Success?
    ensures exists i :: 0 <= i < |dicts| && MakePeak(dicts[i]) == Failure(e)
                        && forall j :: 0 <= j < i ==> MakePeak(dicts[j]).Success?
  {
    var i :| 0 <= i < |dicts[1..]| && MakePeak(dicts[1..][i]) == Failure(e)
             && forall j :: 0 <= j < i ==> MakePeak(dicts[1..][j]).Success?;
    assert dicts[i + 1] == dicts[1..][i];
    forall j | 0 <= j < i + 1
      ensures MakePeak(dicts[j]).Success?
    {
      if j > 0 {
        assert dicts[j] == dicts[1..][j - 1];
      }
    }
  }

  /** `SpectrumSkeleton.make_spectrum_skeleton(species_name, peak_dict_list)`. */
  function MakeSpectrumSkeleton(speciesName: string, dicts: seq<PeakDict>)
    : (r: Result<SpectrumSkeleton, ConstructionError>)
    requires AllNumeric(dicts)
    ensures r.Success? <==> MakePeaks(dicts).Success?
    ensures r.Success? ==> r.value.name == speciesName
    ensures r.Success? ==> r.value.peakList == MakePeaks(dicts).value
    ensures r.Failure? ==> r.error == MakePeaks(dicts).error
  {
    match MakePeaks(dicts)
    case Failure(e) => Failure(e)
    case Success(ps) => Success(SpectrumSkeleton(speciesName, ps))
  }

  /** An empty dict list gives a species with no peaks. */
  lemma {:induction false} EmptySkeleton(speciesName: string)
    ensures MakeSpectrumSkeleton(speciesName, []) == Success(SpectrumSkeleton(speciesName, []))
  {
  }

  /** The dicts of a peak list rebuild exactly that peak list. */
  lemma {:induction false} SkeletonRoundTrip(speciesName: string, peaks: seq<PeakSkeleton>)
    ensures AllNumeric(seq(|peaks|, i requires 0 <= i < |peaks| => AsDict(peaks[i])))
    ensures MakeSpectrumSkeleton(speciesName, seq(|peaks|, i requires 0 <= i < |peaks| => AsDict(peaks[i])))
         == Success(SpectrumSkeleton(speciesName, peaks))
  {
    var dicts := seq(|peaks|, i requires 0 <= i < |peaks| => AsDict(peaks[i]));
    forall i | 0 <= i < |peaks|
      ensures NumericFields(dicts[i]) && MakePeak(dicts[i]) == Success(peaks[i])
    {
      AsDictRoundTrip(peaks[i]);
    }
    assert MakePeaks(dicts).value == peaks;
  }
}
