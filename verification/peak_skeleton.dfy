/** The peak record (`PeakSkeleton`, a dataclass) and its construction from a
    JSON peak dict by keyword arguments, `PeakSkeleton(**peak_dict)`. */
module PeakSkeletons {
  import opened Wrappers

  /** A JSON value as it can appear in a peak dict. */
  datatype Value = Number(x: real) | Text(s: string) | Null

  /** One spectral peak: position, height, width, and an optional label.
      The label keeps the source's spelling, `idenity`; it defaults to None. */
  datatype PeakSkeleton = PeakSkeleton(wavenumber: real, amplitude: real, width: real, idenity: Value)

  /** A parsed JSON object describing one peak. */
  type PeakDict = map<string, Value>

  /** The dataclass fields without a default. */
  const RequiredFields: set<string> := {"wavenumber", "amplitude", "width"}

  /** Every keyword the dataclass constructor accepts. */
  const AllFields: set<string> := RequiredFields + {"idenity"}

  /** The `TypeError`s the generated constructor raises. An unexpected keyword
      is reported before missing arguments. */
  datatype ConstructionError =
    | UnexpectedKeywords(unexpected: set<string>)
    | MissingArguments(missing: set<string>)

  /** The numeric fields that are present hold numbers. */
  ghost predicate NumericFields(d: PeakDict) {
    forall f :: f in RequiredFields && f in d ==> d[f].Number?
  }

  /** `PeakSkeleton(**d)`. */
  function MakePeak(d: PeakDict): (r: Result<PeakSkeleton, ConstructionError>)
    requires NumericFields(d)
    ensures r.Success? <==> RequiredFields <= d.Keys && d.Keys <= AllFields
    ensures !(d.Keys <= AllFields) ==> r == Failure(UnexpectedKeywords(d.Keys - AllFields))
    ensures d.Keys <= AllFields && !(RequiredFields <= d.Keys) ==>
              r == Failure(MissingArguments(RequiredFields - d.Keys))
    ensures r.Success? ==>
              && r.value.wavenumber == d["wavenumber"].x
              && r.value.amplitude == d["amplitude"].x
              && r.value.width == d["width"].x
    ensures r.Success? ==> r.value.idenity == (if "idenity" in d then d["idenity"] else Null)
  {
    if !(d.Keys <= AllFields) then
      Failure(UnexpectedKeywords(d.Keys - AllFields))
    else if !(RequiredFields <= d.Keys) then
      Failure(MissingArguments(RequiredFields - d.Keys))
    else
      Success(PeakSkeleton(d["wavenumber"].x, d["amplitude"].x, d["width"].x,
                           if "idenity" in d then d["idenity"] else Null))
  }

  /** The dict holding every field of a peak record (`dataclasses.asdict`). */
  function AsDict(p: PeakSkeleton): (d: PeakDict)
    ensures d.Keys == AllFields
  {
    map["wavenumber" := Number(p.wavenumber), "amplitude" := Number(p.amplitude),
        "width" := Number(p.width), "idenity" := p.idenity]
  }

  /** A peak record is rebuilt exactly from its own dict. */
  lemma {:induction false} AsDictRoundTrip(p: PeakSkeleton)
    ensures NumericFields(AsDict(p))
    ensures MakePeak(AsDict(p)) == Success(p)
  {
  }

  /** A dict the constructor accepts is the record's dict, up to the default
      label the constructor fills in. */
  lemma {:induction false} MakePeakRoundTrip(d: PeakDict)
    requires NumericFields(d)
    requires MakePeak(d).Success?
    ensures AsDict(MakePeak(d).value) == d["idenity" := if "idenity" in d then d["idenity"] else Null]
  {
    var d' := d["idenity" := if "idenity" in d then d["idenity"] else Null];
    assert AsDict(MakePeak(d).value).Keys == d'.Keys;
  }

  /** The correctly spelled `identity` key is not a field of the record, so a
      dict using it is rejected. */
  lemma {:induction false} IdentitySpellingRejected(w: real, a: real, wd: real, tag: string)
    ensures MakePeak(map["wavenumber" := Number(w), "amplitude" := Number(a), "width" := Number(wd),
                         "identity" := Text(tag)])
         == Failure(UnexpectedKeywords({"identity"}))
  {
    var d := map["wavenumber" := Number(w), "amplitude" := Number(a), "width" := Number(wd),
                 "identity" := Text(tag)];
    assert "identity" in d.Keys - AllFields;
    assert d.Keys - AllFields == {"identity"};
  }
}
