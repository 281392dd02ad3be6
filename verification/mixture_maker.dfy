/** The dataset generator (`MixtureMaker`): the state its constructor builds
    from the species and the noise sweep, the label vector of one mixture
    (`make_y`), and the X and y arrays of one setting (`make_datasets`).

    The species come in already loaded; the random draws of every sample are
    inputs. */
module MixtureMakers {
  import opened Wrappers
  import opened OrderedDicts
  import opened NumberText
  import opened SpectrumSkeletons
  import opened PeakFuns
  import opened NoiseMakers
  import opened NoisySpectrumMakers
  import opened Permutations

  /** What the constructor builds. */
  datatype MixtureMaker = MixtureMaker(
    spectrumSkeletons: seq<SpectrumSkeleton>,
    permutationDict: Dict<string, Permutation>,
    noiseMakerDict: Dict<string, NoiseMaker>,
    chemicalNames: seq<string>,
    chemicalNamesMap: Dict<string, nat>)

  /** Why a dataset cannot be built.
      - MissingKey: a dict lookup raises `KeyError`.
      - NegativeDimensions: `np.zeros` rejects a negative row count.
      - Peak: a peak cannot be evaluated over the axis. */
  datatype MakerError = MissingKey(key: string) | NegativeDimensions(rows: int) | Peak(error: PeakError)

  /* ---------------------------------------------------------------------- */
  /* Construction                                                             */

  /** `get_chemical_names()`: the species names in list order. */
  function GetChemicalNames(skels: seq<SpectrumSkeleton>): (names: seq<string>)
    ensures |names| == |skels|
    ensures forall i :: 0 <= i < |skels| ==> names[i] == skels[i].name
  {
    seq(|skels|, i requires 0 <= i < |skels| => skels[i].name)
  }

  /** The pairs `(name, index)` the names map is assigned from. */
  function IndexPairs(names: seq<string>): (ps: seq<(string, nat)>)
    ensures |ps| == |names|
    ensures forall i :: 0 <= i < |names| ==> ps[i] == (names[i], i)
  {
    seq(|names|, i requires 0 <= i < |names| => (names[i], i))
  }

  /** `chemical_names_map`: each name mapped to its position in the list. */
  function NamesMap(names: seq<string>): Dict<string, nat> {
    FromPairs(IndexPairs(names))
  }

  /** `NoiseMaker(**perm)`: the three noise levels and the baseline flag; the
      size is swallowed by the keyword catch-all. */
  function ToNoiseMaker(p: Permutation): (nm: NoiseMaker)
    ensures nm.wavenumberStd == Value(p.wavenumberStd)
    ensures nm.amplitudeStd == Value(p.amplitudeStd)
    ensures nm.widthStd == Value(p.widthStd)
    ensures nm.addBaseline == p.addBaseline
  {
    NoiseMaker(Value(p.wavenumberStd), Value(p.amplitudeStd), Value(p.widthStd), p.addBaseline)
  }

  function NoiseMakerPairs(perms: Dict<string, Permutation>): (ps: seq<(string, NoiseMaker)>)
    ensures |ps| == |perms|
    ensures forall i :: 0 <= i < |perms| ==> ps[i] == (perms[i].0, ToNoiseMaker(perms[i].1))
  {
    seq(|perms|, i requires 0 <= i < |perms| => (perms[i].0, ToNoiseMaker(perms[i].1)))
  }

  /** `noise_maker_dict`: a noise maker per permutation key. */
  function NoiseMakerDict(perms: Dict<string, Permutation>): Dict<string, NoiseMaker> {
    FromPairs(NoiseMakerPairs(perms))
  }

  /** `MixtureMaker(file_paths, noise_dict)`, given the loaded species. */
  function NewMixtureMaker(skels: seq<SpectrumSkeleton>, spec: NoiseSpec): MixtureMaker {
    var perms := MakePermutations(spec);
    var names := GetChemicalNames(skels);
    MixtureMaker(skels, perms, NoiseMakerDict(perms), names, NamesMap(names))
  }

  /** The relations the constructor establishes between the fields. */
  ghost predicate Valid(mm: MixtureMaker) {
    && mm.chemicalNames == GetChemicalNames(mm.spectrumSkeletons)
    && mm.chemicalNamesMap == NamesMap(mm.chemicalNames)
    && DistinctKeys(mm.permutationDict)
    && mm.noiseMakerDict == NoiseMakerDict(mm.permutationDict)
  }

  /** A freshly built generator is valid. */
  lemma {:induction false} NewMixtureMakerValid(skels: seq<SpectrumSkeleton>, spec: NoiseSpec)
    ensures Valid(NewMixtureMaker(skels, spec))
  {
    MakePermutationsCount(spec);
  }

  /** A name is in the names map exactly when it is a species name; it maps
      to the position of its last occurrence. */
  lemma {:induction false} NamesMapGet(names: seq<string>, k: string)
    ensures Get(NamesMap(names), k).Some? <==> k in names
    ensures Get(NamesMap(names), k).Some? ==>
              && Get(NamesMap(names), k).value < |names|
              && names[Get(NamesMap(names), k).value] == k
              && forall j :: Get(NamesMap(names), k).value < j < |names| ==> names[j] != k
  {
    var ps := IndexPairs(names);
    FromPairsGet(ps, k);
    var g := Get(NamesMap(names), k);
    if k in names {
      var i :| 0 <= i < |names| && names[i] == k;
      assert Keys(ps)[i] == k;
    }
    if g.Some? {
      LastValueIn(ps, k);
      var i :| 0 <= i < |ps| && ps[i] == (k, g.value) && forall j :: i < j < |ps| ==> ps[j].0 != k;
      assert ps[i] == (names[i], i);
      forall j | g.value < j < |names|
        ensures names[j] != k
      {
        assert ps[j].0 == names[j];
      }
    }
  }

  /** With distinct names, the map lists every name with its own position, in
      order: it is the inverse of the name list. */
  lemma {:induction false} NamesMapDistinct(names: seq<string>)
    requires forall i, j :: 0 <= i < j < |names| ==> names[i] != names[j]
    ensures NamesMap(names) == IndexPairs(names)
    ensures forall i :: 0 <= i < |names| ==> Get(NamesMap(names), names[i]) == Some(i)
  {
    FromPairsFresh(IndexPairs(names));
    forall i | 0 <= i < |names|
      ensures Get(NamesMap(names), names[i]) == Some(i)
    {
      NamesMapGet(names, names[i]);
    }
  }

  /** Both dicts of the generator have the same keys, in the same order, and
      the noise maker under a key carries that permutation's noise levels. */
  lemma {:induction false} NoiseMakerDictMatches(perms: Dict<string, Permutation>, key: string)
    requires DistinctKeys(perms)
    ensures Keys(NoiseMakerDict(perms)) == Keys(perms)
    ensures Get(NoiseMakerDict(perms), key).Some? <==> Get(perms, key).Some?
    ensures Get(perms, key).Some? ==> Get(NoiseMakerDict(perms), key) == Some(ToNoiseMaker(Get(perms, key).value))
  {
    var ps := NoiseMakerPairs(perms);
    FromPairsFresh(ps);
    IndexOfSamePositions(ps, perms, key);
  }

  /* ---------------------------------------------------------------------- */
  /* Labels                                                                   */

  /** The slot the names map gives every key of a dict, in dict order. */
  function Slots(namesMap: Dict<string, nat>, yDict: Dict<string, real>): (slots: seq<Option<nat>>)
    ensures |slots| == |yDict|
    ensures forall i :: 0 <= i < |yDict| ==> slots[i] == Get(namesMap, yDict[i].0)
  {
    seq(|yDict|, i requires 0 <= i < |yDict| => Get(namesMap, yDict[i].0))
  }

  /** The amounts of a dict, in dict order. */
  function Amounts(yDict: Dict<string, real>): (amounts: seq<real>)
    ensures |amounts| == |yDict|
    ensures forall i :: 0 <= i < |yDict| ==> amounts[i] == yDict[i].1
  {
    seq(|yDict|, i requires 0 <= i < |yDict| => yDict[i].1)
  }

  /** A label vector of `n` slots written from `amounts[i]` at `slots[i]`:
      every slot is known and in range, the last write aimed at a slot wins,
      and a slot nobody aims at stays zero. */
  ghost predicate Placed(slots: seq<Option<nat>>, amounts: seq<real>, n: nat, y: seq<real>)
    requires |slots| == |amounts|
  {
    && |y| == n
    && (forall i :: 0 <= i < |slots| ==> slots[i].Some? && slots[i].value < n)
    && (forall j :: 0 <= j < n && (forall i :: 0 <= i < |slots| ==> slots[i] != Some(j)) ==> y[j] == 0.0)
    && (forall i :: 0 <= i < |slots| && (forall i' :: i < i' < |slots| ==> slots[i'] != slots[i])
          ==> y[slots[i].value] == amounts[i])
  }

  /** The label vector a concentration dict describes under a names map. */
  ghost predicate PlacedLabels(namesMap: Dict<string, nat>, n: nat, yDict: Dict<string, real>, y: seq<real>) {
    Placed(Slots(namesMap, yDict), Amounts(yDict), n, y)
  }

  /** An entry of a dict has a slot exactly when its key is a species name,
      and the slot is a position in the name list. */
  lemma {:induction false} NameSlots(names: seq<string>, yDict: Dict<string, real>)
    ensures forall i :: 0 <= i < |yDict| ==>
              (Slots(NamesMap(names), yDict)[i].Some? <==> yDict[i].0 in names)
    ensures forall i :: 0 <= i < |yDict| && Slots(NamesMap(names), yDict)[i].Some? ==>
              Slots(NamesMap(names), yDict)[i].value < |names|
  {
    forall i | 0 <= i < |yDict|
      ensures Slots(NamesMap(names), yDict)[i].Some? <==> yDict[i].0 in names
      ensures Slots(NamesMap(names), yDict)[i].Some? ==> Slots(NamesMap(names), yDict)[i].value < |names|
    {
      NamesMapGet(names, yDict[i].0);
    }
  }

  /** The loop of `make_y`: write each amount to its slot, in order, stopping
      at the first entry without a slot, whose position it reports. */
  method PlaceLabels(slots: seq<Option<nat>>, amounts: seq<real>, n: nat) returns (r: Result<seq<real>, nat>)
    requires |slots| == |amounts|
    requires forall i :: 0 <= i < |slots| && slots[i].Some? ==> slots[i].value < n
    ensures r.Success? <==> forall i :: 0 <= i < |slots| ==> slots[i].Some?
    ensures r.Failure? ==> && r.error < |slots| && slots[r.error].None?
                           && forall i :: 0 <= i < r.error ==> slots[i].Some?
    ensures r.Success? ==> Placed(slots, amounts, n, r.value)
  {
    var y := Zeros(n);
    var i := 0;
    while i < |slots|
      invariant 0 <= i <= |slots|
      invariant |y| == n
      invariant forall i' :: 0 <= i' < i ==> slots[i'].Some?
      invariant forall j :: 0 <= j < n && (forall i' :: 0 <= i' < i ==> slots[i'] != Some(j)) ==> y[j] == 0.0
      invariant forall i' :: 0 <= i' < i && (forall i'' :: i' < i'' < i ==> slots[i''] != slots[i'])
                  ==> y[slots[i'].value] == amounts[i']
    {
      if slots[i].None? {
        return Failure(i);
      }
      y := y[slots[i].value := amounts[i]];
      i := i + 1;
    }
    return Success(y);
  }

  /** `make_y(y_dict)`: a zero vector with one slot per species, each entry of
      the dict written to its species' slot in dict order. A key that is not a
      species name raises `KeyError` when it is reached. */
  method MakeY(mm: MixtureMaker, yDict: Dict<string, real>) returns (r: Result<seq<real>, MakerError>)
    requires Valid(mm)
    ensures r.Success? <==> forall i :: 0 <= i < |yDict| ==> yDict[i].0 in mm.chemicalNames
    ensures r.Failure? ==> exists i :: 0 <= i < |yDict| && yDict[i].0 !in mm.chemicalNames
                                       && r.error == MissingKey(yDict[i].0)
                                       && forall i' :: 0 <= i' < i ==> yDict[i'].0 in mm.chemicalNames
    ensures r.Success? ==> PlacedLabels(mm.chemicalNamesMap, |mm.chemicalNames|, yDict, r.value)
  {
    var slots := Slots(mm.chemicalNamesMap, yDict);
    NameSlots(mm.chemicalNames, yDict);
    var placed := PlaceLabels(slots, Amounts(yDict), |mm.chemicalNames|);
    match placed
    case Success(y) => r := Success(y);
    case Failure(i) => r := Failure(MissingKey(yDict[i].0));
  }

  /** When entry `i` aims at slot `i`, every write is the last to its slot
      and the labels are the amounts themselves. */
  lemma {:induction false} PlacedInOrder(slots: seq<Option<nat>>, amounts: seq<real>, y: seq<real>)
    requires |slots| == |amounts|
    requires forall i :: 0 <= i < |slots| ==> slots[i] == Some(i)
    requires Placed(slots, amounts, |slots|, y)
    ensures y == amounts
  {
    forall i | 0 <= i < |slots|
      ensures y[i] == amounts[i]
    {
      forall i' | i < i' < |slots|
        ensures slots[i'] != slots[i]
      {
        assert slots[i'] == Some(i');
      }
    }
  }

  /** A slot some entry aims at has a last entry aiming at it. */
  lemma {:induction false} LastWriter(slots: seq<Option<nat>>, j: nat, i: nat)
    requires i < |slots| && slots[i] == Some(j)
    ensures exists l :: i <= l < |slots| && slots[l] == Some(j) && forall l' :: l < l' < |slots| ==> slots[l'] != Some(j)
    decreases |slots| - i
  {
    if exists l' :: i < l' < |slots| && slots[l'] == Some(j) {
      var l' :| i < l' < |slots| && slots[l'] == Some(j);
      LastWriter(slots, j, l');
    }
  }

  /** Every label is zero or one of the amounts. */
  lemma {:induction false} PlacedValues(slots: seq<Option<nat>>, amounts: seq<real>, n: nat, y: seq<real>, j: nat)
    requires |slots| == |amounts| && Placed(slots, amounts, n, y) && j < n
    ensures y[j] == 0.0 || exists i :: 0 <= i < |amounts| && y[j] == amounts[i]
  {
    if exists i :: 0 <= i < |slots| && slots[i] == Some(j) {
      var i :| 0 <= i < |slots| && slots[i] == Some(j);
      LastWriter(slots, j, i);
      var l :| i <= l < |slots| && slots[l] == Some(j) && forall l' :: l < l' < |slots| ==> slots[l'] != Some(j);
      assert y[slots[l].value] == amounts[l];
    }
  }

  /** Concentrations drawn from `[0, 1)` give labels in `[0, 1)`. */
  lemma {:induction false} LabelsInUnitRange(namesMap: Dict<string, nat>, n: nat, yDict: Dict<string, real>, y: seq<real>)
    requires PlacedLabels(namesMap, n, yDict, y)
    requires forall i :: 0 <= i < |yDict| ==> 0.0 <= yDict[i].1 < 1.0
    ensures forall j :: 0 <= j < |y| ==> 0.0 <= y[j] < 1.0
  {
    forall j | 0 <= j < |y|
      ensures 0.0 <= y[j] < 1.0
    {
      PlacedValues(Slots(namesMap, yDict), Amounts(yDict), n, y, j);
    }
  }

  /** The pairs of a dict holding one amount per species name, in name
      order. */
  function NamePairs(names: seq<string>, amounts: seq<real>): (ps: Dict<string, real>)
    requires |amounts| == |names|
    ensures |ps| == |names|
    ensures forall i :: 0 <= i < |names| ==> ps[i] == (names[i], amounts[i])
  {
    seq(|names|, i requires 0 <= i < |names| => (names[i], amounts[i]))
  }

  /** With distinct names, a dict assigned one amount per name lists the
      names in order, and the names map sends its `i`-th entry to slot `i`. */
  lemma {:induction false} NamePairsSlots(names: seq<string>, amounts: seq<real>)
    requires |amounts| == |names|
    requires forall i, j :: 0 <= i < j < |names| ==> names[i] != names[j]
    ensures FromPairs(NamePairs(names, amounts)) == NamePairs(names, amounts)
    ensures forall i :: 0 <= i < |names| ==> Slots(NamesMap(names), NamePairs(names, amounts))[i] == Some(i)
    ensures Amounts(NamePairs(names, amounts)) == amounts
  {
    NamesMapDistinct(names);
    FromPairsFresh(NamePairs(names, amounts));
  }

  /** With distinct species names, the labels of a dict holding one amount
      per name are those amounts, in name order. */
  lemma {:induction false} LabelsInNameOrder(names: seq<string>, amounts: seq<real>, y: seq<real>)
    requires |amounts| == |names|
    requires forall i, j :: 0 <= i < j < |names| ==> names[i] != names[j]
    requires PlacedLabels(NamesMap(names), |names|, FromPairs(NamePairs(names, amounts)), y)
    ensures y == amounts
  {
    NamePairsSlots(names, amounts);
    var d := NamePairs(names, amounts);
    PlacedInOrder(Slots(NamesMap(names), d), Amounts(d), y);
  }

  /** With distinct species names, the labels of a concentration dict are the
      concentrations themselves, in species order. */
  lemma {:induction false} LabelsAreConcentrations(skels: seq<SpectrumSkeleton>, cs: seq<real>, y: seq<real>)
    requires |cs| == |skels|
    requires forall i, j :: 0 <= i < j < |skels| ==> skels[i].name != skels[j].name
    requires PlacedLabels(NamesMap(GetChemicalNames(skels)), |skels|, FromPairs(ConcentrationPairs(skels, cs)), y)
    ensures y == cs
  {
    assert ConcentrationPairs(skels, cs) == NamePairs(GetChemicalNames(skels), cs);
    LabelsInNameOrder(GetChemicalNames(skels), cs, y);
  }

  /* ---------------------------------------------------------------------- */
  /* Datasets                                                                 */

  /** `get_wavenumbers()`: the axis every dataset uses, 200 to 2000 in steps
      of one. */
  function Wavenumbers(): (xs: seq<real>)
    ensures |xs| == 1800
    ensures forall k :: 0 <= k < 1800 ==> xs[k] == 200.0 + k as real
  {
    DefaultAxis();
    Arange(200.0, 2000.0, 1.0).value
  }

  /** The noiseless Lorentzian spectrum of one species on the dataset axis. */
  function SpeciesSpectrum(s: SpectrumSkeleton): (r: Result<seq<real>, PeakError>)
    ensures r.Success? <==> forall i :: 0 <= i < |s.peakList| ==> LorentzianWrapper(Wavenumbers(), s.peakList[i]).Success?
    ensures r.Success? ==> |r.value| == 1800
    ensures r.Failure? ==> exists i :: 0 <= i < |s.peakList| && LorentzianWrapper(Wavenumbers(), s.peakList[i]) == Failure(r.error)
  {
    LorentzianKeepsShape();
    GenerateSpectrum(Wavenumbers(), s, LorentzianWrapper)
  }

  /** `get_component_spectra()`: the species spectra on the dataset axis,
      keyed by exactly the species names, each name holding the spectrum of
      the last species so named. */
  function ComponentSpectra(mm: MixtureMaker): (r: Result<Dict<string, seq<real>>, PeakError>)
    ensures r.Success? <==> forall i :: 0 <= i < |mm.spectrumSkeletons| ==> SpeciesSpectrum(mm.spectrumSkeletons[i]).Success?
    ensures r.Success? ==> forall name ::
              name in Keys(r.value) <==> exists i :: 0 <= i < |mm.spectrumSkeletons| && mm.spectrumSkeletons[i].name == name
    ensures r.Success? ==>
              forall i :: 0 <= i < |mm.spectrumSkeletons|
                && (forall j :: i < j < |mm.spectrumSkeletons| ==> mm.spectrumSkeletons[j].name != mm.spectrumSkeletons[i].name)
                ==> Get(r.value, mm.spectrumSkeletons[i].name) == Some(SpeciesSpectrum(mm.spectrumSkeletons[i]).value)
    ensures r.Failure? ==>
              exists i :: 0 <= i < |mm.spectrumSkeletons|
                && SpeciesSpectrum(mm.spectrumSkeletons[i]) == Failure(r.error)
                && forall j :: 0 <= j < i ==> SpeciesSpectrum(mm.spectrumSkeletons[j]).Success?
  {
    LorentzianKeepsShape();
    GetComponentSpectra(Wavenumbers(), mm.spectrumSkeletons, LorentzianWrapper)
  }

  /** The lookups `make_datasets` starts with: the setting's noise maker,
      then its permutation, whose size `int()` turns into the row count, which
      `np.zeros` refuses when negative. */
  function Setting(mm: MixtureMaker, key: string): (r: Result<(NoiseMaker, nat), MakerError>)
    requires Valid(mm)
    ensures key !in Keys(mm.permutationDict) ==> r == Failure(MissingKey(key))
    ensures key in Keys(mm.permutationDict) && Truncate(Get(mm.permutationDict, key).value.size) < 0 ==>
              r == Failure(NegativeDimensions(Truncate(Get(mm.permutationDict, key).value.size)))
    ensures key in Keys(mm.permutationDict) && Truncate(Get(mm.permutationDict, key).value.size) >= 0 ==> r.Success?
    ensures r.Success? ==>
              && key in Keys(mm.permutationDict)
              && r.value.0 == ToNoiseMaker(Get(mm.permutationDict, key).value)
              && r.value.1 == Truncate(Get(mm.permutationDict, key).value.size)
  {
    NoiseMakerDictMatches(mm.permutationDict, key);
    match Get(mm.noiseMakerDict, key)
    case None => Failure(MissingKey(key))
    case Some(nm) =>
      var n := Truncate(Get(mm.permutationDict, key).value.size);
      if n < 0 then Failure(NegativeDimensions(n)) else Success((nm, n))
  }

  /** The number of samples to supply draws for: none when the setting
      cannot be used. */
  function DrawsNeeded(mm: MixtureMaker, key: string): nat
    requires Valid(mm)
  {
    match Setting(mm, key)
    case Success((_, n)) => n
    case Failure(_) => 0
  }

  /** The mixture of one sample under a setting's noise maker. */
  function Sample(mm: MixtureMaker, nm: NoiseMaker, md: MixtureDraws): (r: Result<(seq<real>, Dict<string, real>), PeakError>)
    requires DrawsFit(Wavenumbers(), mm.spectrumSkeletons, md)
    ensures r.Success? <==> forall i :: 0 <= i < |mm.spectrumSkeletons| ==>
              SpeciesSpectrum(AddNoise(nm, mm.spectrumSkeletons[i], md.noise[i])).Success?
    ensures r.Success? ==> |r.value.0| == 1800
    ensures r.Success? ==> r.value.1 == FromPairs(ConcentrationPairs(mm.spectrumSkeletons, md.concentrations))
    ensures r.Failure? ==>
              exists i :: 0 <= i < |mm.spectrumSkeletons|
                && SpeciesSpectrum(AddNoise(nm, mm.spectrumSkeletons[i], md.noise[i])) == Failure(r.error)
  {
    LorentzianKeepsShape();
    GenerateMixtureSpectrum(Wavenumbers(), mm.spectrumSkeletons, nm, md, LorentzianWrapper)
  }

  /** Every key of a concentration dict is a species name. */
  lemma {:induction false} ConcentrationKeysAreNames(mm: MixtureMaker, cs: seq<real>)
    requires Valid(mm) && |cs| == |mm.spectrumSkeletons|
    ensures forall i :: 0 <= i < |FromPairs(ConcentrationPairs(mm.spectrumSkeletons, cs))| ==>
              FromPairs(ConcentrationPairs(mm.spectrumSkeletons, cs))[i].0 in mm.chemicalNames
  {
    var d := FromPairs(ConcentrationPairs(mm.spectrumSkeletons, cs));
    forall i | 0 <= i < |d|
      ensures d[i].0 in mm.chemicalNames
    {
      assert Keys(d)[i] == d[i].0;
      ConcentrationDictEntries(mm.spectrumSkeletons, cs, d[i].0);
      var j :| 0 <= j < |mm.spectrumSkeletons| && mm.spectrumSkeletons[j].name == d[i].0;
      assert mm.chemicalNames[j] == d[i].0;
    }
  }

  /** Distinct species names. */
  ghost predicate DistinctNames(mm: MixtureMaker) {
    forall i, j :: 0 <= i < j < |mm.chemicalNames| ==> mm.chemicalNames[i] != mm.chemicalNames[j]
  }

  /** `x` and `y` are the rows of one sample: the mixture its draws give and
      the labels of its concentration dict, which with distinct species names
      are the drawn concentrations themselves. */
  ghost predicate IsRow(mm: MixtureMaker, nm: NoiseMaker, md: MixtureDraws, x: seq<real>, y: seq<real>) {
    && DrawsFit(Wavenumbers(), mm.spectrumSkeletons, md)
    && Sample(mm, nm, md).Success?
    && x == Sample(mm, nm, md).value.0 && |x| == 1800
    && |y| == |mm.chemicalNames|
    && PlacedLabels(mm.chemicalNamesMap, |mm.chemicalNames|, Sample(mm, nm, md).value.1, y)
    && (DistinctNames(mm) ==> y == md.concentrations)
  }

  /** The first `|xRows|` samples have produced `xRows` and `yRows`. */
  ghost predicate AreRows(mm: MixtureMaker, nm: NoiseMaker, samples: seq<MixtureDraws>,
                          xRows: seq<seq<real>>, yRows: seq<seq<real>>)
  {
    && |xRows| == |yRows| <= |samples|
    && forall i :: 0 <= i < |xRows| ==> IsRow(mm, nm, samples[i], xRows[i], yRows[i])
  }

  lemma {:induction false} AreRowsAppend(mm: MixtureMaker, nm: NoiseMaker, samples: seq<MixtureDraws>,
                      xRows: seq<seq<real>>, yRows: seq<seq<real>>, x: seq<real>, y: seq<real>)
    requires AreRows(mm, nm, samples, xRows, yRows) && |xRows| < |samples|
    requires IsRow(mm, nm, samples[|xRows|], x, y)
    ensures AreRows(mm, nm, samples, xRows + [x], yRows + [y])
  {
    var xs, ys := xRows + [x], yRows + [y];
    forall i | 0 <= i < |xs|
      ensures IsRow(mm, nm, samples[i], xs[i], ys[i])
    {
      if i < |xRows| {
        assert xs[i] == xRows[i] && ys[i] == yRows[i];
      } else {
        assert i == |xRows| && xs[i] == x && ys[i] == y;
      }
    }
  }

  /** One pass of the loop of `make_datasets`: a mixture and its labels. */
  method MakeRow(mm: MixtureMaker, nm: NoiseMaker, md: MixtureDraws) returns (r: Result<(seq<real>, seq<real>), MakerError>)
    requires Valid(mm)
    requires DrawsFit(Wavenumbers(), mm.spectrumSkeletons, md)
    ensures r.Success? <==> Sample(mm, nm, md).Success?
    ensures r.Failure? ==> r.error == Peak(Sample(mm, nm, md).error)
    ensures r.Success? ==> IsRow(mm, nm, md, r.value.0, r.value.1)
  {
    var sample := Sample(mm, nm, md);
    if sample.Failure? {
      return Failure(Peak(sample.error));
    }
    var (x, yDict) := sample.value;
    ConcentrationKeysAreNames(mm, md.concentrations);
    var labels := MakeY(mm, yDict);
    var y := labels.value;
    if DistinctNames(mm) {
      LabelsAreConcentrations(mm.spectrumSkeletons, md.concentrations, y);
    }
    return Success((x, y));
  }

  /** What the loop of `make_datasets` leaves for the first `n` samples: it
      succeeds exactly when every one of them has a mixture; then it holds one
      row of X and one row of y per sample, in order; otherwise it reports the
      peak error of the first sample that has none. */
  ghost predicate RowsOutcome(mm: MixtureMaker, nm: NoiseMaker, n: nat, samples: seq<MixtureDraws>,
                              r: Result<(seq<seq<real>>, seq<seq<real>>), MakerError>)
    requires n <= |samples|
    requires forall i :: 0 <= i < |samples| ==> DrawsFit(Wavenumbers(), mm.spectrumSkeletons, samples[i])
  {
    && (r.Success? <==> forall i :: 0 <= i < n ==> Sample(mm, nm, samples[i]).Success?)
    && (r.Failure? ==>
          exists i :: 0 <= i < n && Sample(mm, nm, samples[i]).Failure?
            && r.error == Peak(Sample(mm, nm, samples[i]).error)
            && forall i' :: 0 <= i' < i ==> Sample(mm, nm, samples[i']).Success?)
    && (r.Success? ==> |r.value.0| == n && AreRows(mm, nm, samples, r.value.0, r.value.1))
  }

  /** The loop of `make_datasets`: the rows of the first `n` samples, in
      order, stopping at the first sample whose mixture cannot be formed. */
  method FillRows(mm: MixtureMaker, nm: NoiseMaker, n: nat, samples: seq<MixtureDraws>)
    returns (r: Result<(seq<seq<real>>, seq<seq<real>>), MakerError>)
    requires Valid(mm)
    requires n <= |samples|
    requires forall i :: 0 <= i < |samples| ==> DrawsFit(Wavenumbers(), mm.spectrumSkeletons, samples[i])
    ensures RowsOutcome(mm, nm, n, samples, r)
  {
    var xRows: seq<seq<real>> := [];
    var yRows: seq<seq<real>> := [];
    var i := 0;
    while i < n
      invariant 0 <= i <= n
      invariant |xRows| == i
      invariant AreRows(mm, nm, samples, xRows, yRows)
    {
      var next := NextRow(mm, nm, n, samples, xRows, yRows);
      if next.Failure? {
        return next;
      }
      xRows, yRows := next.value.0, next.value.1;
      i := i + 1;
    }
    RowsDone(mm, nm, n, samples, xRows, yRows);
    return Success((xRows, yRows));
  }

  /** One pass of that loop: the rows so far extended by the next sample's
      row, or the outcome of the whole loop when that sample has none. */
  method NextRow(mm: MixtureMaker, nm: NoiseMaker, n: nat, samples: seq<MixtureDraws>,
                 xRows: seq<seq<real>>, yRows: seq<seq<real>>)
    returns (r: Result<(seq<seq<real>>, seq<seq<real>>), MakerError>)
    requires Valid(mm)
    requires n <= |samples|
    requires forall i :: 0 <= i < |samples| ==> DrawsFit(Wavenumbers(), mm.spectrumSkeletons, samples[i])
    requires AreRows(mm, nm, samples, xRows, yRows) && |xRows| < n
    ensures r.Success? <==> Sample(mm, nm, samples[|xRows|]).Success?
    ensures r.Failure? ==> RowsOutcome(mm, nm, n, samples, r)
    ensures r.Success? ==> |r.value.0| == |xRows| + 1 && AreRows(mm, nm, samples, r.value.0, r.value.1)
  {
    var row := MakeRow(mm, nm, samples[|xRows|]);
    if row.Failure? {
      RowsFailed(mm, nm, n, samples, xRows, yRows, row.error);
      return Failure(row.error);
    }
    AreRowsAppend(mm, nm, samples, xRows, yRows, row.value.0, row.value.1);
    return Success((xRows + [row.value.0], yRows + [row.value.1]));
  }

  /** A failing sample right after the rows built so far is the first
      failing sample. */
  lemma {:induction false} RowsFailed(mm: MixtureMaker, nm: NoiseMaker, n: nat, samples: seq<MixtureDraws>,
                                      xRows: seq<seq<real>>, yRows: seq<seq<real>>, e: MakerError)
    requires n <= |samples|
    requires forall i :: 0 <= i < |samples| ==> DrawsFit(Wavenumbers(), mm.spectrumSkeletons, samples[i])
    requires AreRows(mm, nm, samples, xRows, yRows) && |xRows| < n
    requires Sample(mm, nm, samples[|xRows|]).Failure?
    requires e == Peak(Sample(mm, nm, samples[|xRows|]).error)
    ensures RowsOutcome(mm, nm, n, samples, Failure(e))
  {
    var k := |xRows|;
    forall i' | 0 <= i' < k
      ensures Sample(mm, nm, samples[i']).Success?
    {
      assert IsRow(mm, nm, samples[i'], xRows[i'], yRows[i']);
    }
  }

  /** Rows for all of the first `n` samples are a successful outcome. */
  lemma {:induction false} RowsDone(mm: MixtureMaker, nm: NoiseMaker, n: nat, samples: seq<MixtureDraws>,
                                    xRows: seq<seq<real>>, yRows: seq<seq<real>>)
    requires n <= |samples|
    requires forall i :: 0 <= i < |samples| ==> DrawsFit(Wavenumbers(), mm.spectrumSkeletons, samples[i])
    requires AreRows(mm, nm, samples, xRows, yRows) && |xRows| == n
    ensures RowsOutcome(mm, nm, n, samples, Success((xRows, yRows)))
  {
    forall i | 0 <= i < n
      ensures Sample(mm, nm, samples[i]).Success?
    {
      assert IsRow(mm, nm, samples[i], xRows[i], yRows[i]);
    }
  }

  /** `make_datasets(key)`: one row of X and one row of y per sample of the
      setting `key`, each row the mixture of that sample's draws and its
      labels. A missing setting raises `KeyError`, a negative size is refused
      by `np.zeros`, and a peak that cannot be evaluated stops the run at the
      first sample that has one. */
  method MakeDatasets(mm: MixtureMaker, key: string, samples: seq<MixtureDraws>)
    returns (r: Result<(seq<seq<real>>, seq<seq<real>>), MakerError>)
    requires Valid(mm)
    requires |samples| >= DrawsNeeded(mm, key)
    requires forall i :: 0 <= i < |samples| ==> DrawsFit(Wavenumbers(), mm.spectrumSkeletons, samples[i])
    ensures Setting(mm, key).Failure? ==> r == Failure(Setting(mm, key).error)
    ensures Setting(mm, key).Success? ==>
              RowsOutcome(mm, Setting(mm, key).value.0, Setting(mm, key).value.1, samples, r)
    ensures r.Success? && UnitConcentrations(samples) ==>
              forall i, j :: 0 <= i < |r.value.1| && 0 <= j < |r.value.1[i]| ==> 0.0 <= r.value.1[i][j] < 1.0
  {
    var setting := Setting(mm, key);
    if setting.Failure? {
      return Failure(setting.error);
    }
    var (nm, n) := setting.value;
    r := FillRows(mm, nm, n, samples);
    if r.Success? && UnitConcentrations(samples) {
      RowsInUnitRange(mm, nm, samples, r.value.0, r.value.1);
    }
  }

  /** Every concentration drawn lies in `[0, 1)`, as `uniform(0, 1)` draws
      do. */
  ghost predicate UnitConcentrations(samples: seq<MixtureDraws>) {
    forall i, c :: 0 <= i < |samples| && 0 <= c < |samples[i].concentrations| ==>
      0.0 <= samples[i].concentrations[c] < 1.0
  }

  /** Concentrations in `[0, 1)` give a row's labels in `[0, 1)`, whether or
      not species names repeat: each label is zero or the concentration of
      the last species of its name. */
  lemma {:induction false} RowLabelsInUnitRange(mm: MixtureMaker, nm: NoiseMaker, md: MixtureDraws, x: seq<real>, y: seq<real>)
    requires IsRow(mm, nm, md, x, y)
    requires forall c :: 0 <= c < |md.concentrations| ==> 0.0 <= md.concentrations[c] < 1.0
    ensures forall j :: 0 <= j < |y| ==> 0.0 <= y[j] < 1.0
  {
    var ps := ConcentrationPairs(mm.spectrumSkeletons, md.concentrations);
    AssignAllValues([], ps, v => 0.0 <= v < 1.0);
    var yDict := Sample(mm, nm, md).value.1;
    assert yDict == FromPairs(ps);
    LabelsInUnitRange(mm.chemicalNamesMap, |mm.chemicalNames|, yDict, y);
  }

  /** Concentrations in `[0, 1)` give every label of every row in `[0, 1)`. */
  lemma {:induction false} RowsInUnitRange(mm: MixtureMaker, nm: NoiseMaker, samples: seq<MixtureDraws>,
                                           xRows: seq<seq<real>>, yRows: seq<seq<real>>)
    requires AreRows(mm, nm, samples, xRows, yRows)
    requires UnitConcentrations(samples)
    ensures forall i, j :: 0 <= i < |yRows| && 0 <= j < |yRows[i]| ==> 0.0 <= yRows[i][j] < 1.0
  {
    forall i | 0 <= i < |yRows|
      ensures forall j :: 0 <= j < |yRows[i]| ==> 0.0 <= yRows[i][j] < 1.0
    {
      assert IsRow(mm, nm, samples[i], xRows[i], yRows[i]);
      RowLabelsInUnitRange(mm, nm, samples[i], xRows[i], yRows[i]);
    }
  }
}
