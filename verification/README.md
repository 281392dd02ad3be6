# RaMix mixture generator, modelled in Dafny

RaMix builds training data for Raman spectroscopy: synthetic spectra of chemical mixtures, with the
concentration of each species as labels. Each species is a *spectrum skeleton*: a name and a list of
*peak skeletons* (centre wavenumber, amplitude, width and an optional label). A `NoiseMaker`
perturbs every peak with random draws. A `NoisySpectrumMaker` sums Lorentzian peaks over the
wavenumber axis `arange(200, 2000, 1)`. It weights each species' noisy spectrum by a random
concentration and can add a baseline. A `MixtureMaker` sweeps a grid of noise settings
(`make_permutations`). It keys each setting by a string spelling its values. For one setting it
builds the arrays X (one mixture spectrum per row) and y (one label vector per row).

The model uses exact reals in place of floating point and pure functions in place of mutation. A
Python dict is an ordered list of key/value pairs (`OrderedDicts`): assigning to a present key
keeps its position, and a new key is appended. Every random draw is an explicit input: one
`PeakDraw` per peak, one concentration per species and one baseline vector per sample.

| module | file | models |
|---|---|---|
| `Wrappers` | wrappers.dfy | `Option` and `Result` |
| `OrderedDicts` | ordered_dicts.dfy | insertion-ordered dicts |
| `NumberText` | number_text.dfy | `str()` and `int()` of the sweep values |
| `PeakSkeletons` | peak_skeleton.dfy | `PeakSkeleton` and `PeakSkeleton(**d)` |
| `SpectrumSkeletons` | spectrum_skeleton.dfy | `SpectrumSkeleton.make_spectrum_skeleton` |
| `PeakFuns` | peak_funs.dfy | `lorentzian` and `lorentzian_wrapper` |
| `NoiseMakers` | noise_maker.dfy | `NoiseMaker.add_noise` |
| `NoisySpectrumMakers` | noisy_spectrum_maker.dfy | the axis, `generate_spectrum`, `get_component_spectra`, `generate_mixture_spectrum` |
| `Permutations` | permutations.dfy | `MixtureMaker.make_permutations` |
| `MixtureMakers` | mixture_maker.dfy | `MixtureMaker.__init__`, `make_y`, `make_datasets`, `get_component_spectra`, `get_wavenumbers`, `get_chemical_names` |

The model follows the code wherever the code and its tests disagree. The multi-permutation test
(tests/test_mixture_maker.py:95) expects the second key to start with `size_1`. The loops in
ramix/mixture_maker.py:111-118 spell the second size into that key, so it starts with `size_2`;
`Permutations.TwoSizes` proves this.

## Model

| member | source | states |
|---|---|---|
| OrderedDicts.Assign | ramix/mixture_maker.py:37-39 | `d[k] = v`: afterwards `k` holds `v` and every other key keeps its value; an existing key keeps its place and a new key is appended; distinct keys stay distinct |
| OrderedDicts.FromPairsGet | ramix/mixture_maker.py:37-39 | a dict filled by assigning a list of pairs in order has exactly the keys of the list, and each key holds the value of its last pair |
| OrderedDicts.AssignAllValues | ramix/noisy_spectrum_maker.py:37-41 | a property held by every old value and every assigned value holds of every value of the dict afterwards |
| OrderedDicts.AssignAllDistinct | ramix/mixture_maker.py:119-123 | assigning pairs one by one never creates a duplicate key |
| OrderedDicts.SameKeyTwice | ramix/mixture_maker.py:119-123 | assigning the same key twice leaves one entry holding the second value |
| NumberText.Str | ramix/mixture_maker.py:116-118 | `str()` of a sweep value; its contract is stated by `NumberText.StrRoundTrip`, `NumberText.StrInjective`, `NumberText.StrHasNoUnderscore` and the two example lemmas |
| NumberText.Truncate | ramix/mixture_maker.py:67 | `int(size)` truncates toward zero: an int is unchanged, and a decimal's result lies between zero and the value, less than one away |
| NumberText.StrRoundTrip | ramix/mixture_maker.py:116-118 | reading back the `str()` text of a sweep value gives the value, in canonical form |
| NumberText.StrInjective | ramix/mixture_maker.py:116-118 | two sweep values have the same `str()` text only when they are the same number written the same way (int or float) |
| NumberText.StrHasNoUnderscore | ramix/mixture_maker.py:116-118 | the text of a sweep value never contains `_`, the separator of the key |
| NumberText.StrIntExamples | ramix/mixture_maker.py:116-118 | `str()` of the ints 1 and -3 is `1` and `-3` |
| NumberText.StrFloatExamples | ramix/mixture_maker.py:116-118 | `str()` of floats keeps at least one decimal and drops trailing zeros: `0.1`, `2.0`, `-1.25` |
| PeakSkeletons.MakePeak | ramix/peak_skeleton.py:4-9 | `PeakSkeleton(**d)` succeeds exactly when the keys include the three required fields and lie within the four fields; unexpected keys are reported before missing ones; the fields are copied and the label defaults to None |
| PeakSkeletons.AsDictRoundTrip | ramix/peak_skeleton.py:4-9 | a peak is rebuilt exactly from its own field dict |
| PeakSkeletons.MakePeakRoundTrip | ramix/peak_skeleton.py:4-9 | an accepted dict is the built peak's field dict, with the default label filled in |
| PeakSkeletons.IdentitySpellingRejected | ramix/peak_skeleton.py:9 | the field is spelled `idenity`, so a dict keyed `identity` is rejected as an unexpected keyword |
| SpectrumSkeletons.MakePeaks | ramix/spectrum_skeleton.py:15-17 | the peak list is built, in order, exactly when every dict builds a peak; otherwise the error is that of a rejected dict |
| SpectrumSkeletons.MakeSpectrumSkeleton | ramix/spectrum_skeleton.py:12-19 | the skeleton carries the species name and the peaks of the dicts in order; a rejected dict makes the whole call fail with its error |
| SpectrumSkeletons.EmptySkeleton | ramix/spectrum_skeleton.py:12-19 | no peak dicts give a skeleton with an empty peak list |
| SpectrumSkeletons.SkeletonRoundTrip | ramix/spectrum_skeleton.py:12-19 | the field dicts of any peak list rebuild that peak list exactly |
| PeakFuns.Lorentzian | ramix/peak_funs.py:6-21 | fails on an empty axis and when no axis point lies above the centre (the assertion); a zero width with the centre inside the axis fails with `ZeroWidth`; otherwise gives one value per axis point, `a / (1 + ((x - p0) / (w / 2))^2)` |
| PeakFuns.LorentzianWrapper | ramix/peak_funs.py:40-41 | the peak's centre, amplitude and width are passed in that order: success and every value are those of the Lorentzian of the record |
| PeakFuns.LorentzianAtCentre | ramix/peak_funs.py:19-21 | at its centre the peak equals its amplitude |
| PeakFuns.LorentzianHalfMaximum | ramix/peak_funs.py:19-21 | half a width from the centre, on either side, the peak is half its amplitude, so `w` is the full width at half maximum |
| PeakFuns.LorentzianHalfMaximumOnly | ramix/peak_funs.py:19-21 | a non-zero peak is at half its amplitude only at those two points |
| PeakFuns.LorentzianSymmetric | ramix/peak_funs.py:19-21 | the peak is symmetric about its centre |
| PeakFuns.LorentzianBounds | ramix/peak_funs.py:19-21 | each value lies between zero and the amplitude, and a positive amplitude gives positive values everywhere |
| NoiseMakers.AddNoise | ramix/noise_maker.py:17-23 | the copy keeps the name, the number of peaks and every peak label; each peak is shifted by its own draw, and its amplitude and width are scaled by it |
| NoiseMakers.AddNoiseNoChange | ramix/noise_maker.py:17-23 | zero shifts and unit factors give back the input |
| NoiseMakers.AddNoiseInverse | ramix/noise_maker.py:17-23 | perturbing with draws and then with their inverses restores the input |
| NoiseMakers.AddNoiseCompose | ramix/noise_maker.py:17-23 | two perturbations are one perturbation with the shifts added and the factors multiplied |
| NoiseMakers.AddNoisePlausible | ramix/noise_maker.py:12-23 | with log-normal (positive) factors every amplitude and width keeps its sign; with zero position spread no peak moves |
| NoiseMakers.AddNoiseIgnoresBaselineFlag | ramix/noise_maker.py:15-23 | the baseline flag does not affect the perturbation |
| NoisySpectrumMakers.Arange | ramix/noisy_spectrum_maker.py:23 | `np.arange` fails only for a zero step; otherwise its points are `start + k * step` for k below the computed length |
| NoisySpectrumMakers.ArangeExactlyBelowEnd | ramix/noisy_spectrum_maker.py:23 | with a positive step, grid point k is on the axis exactly when it lies below the end |
| NoisySpectrumMakers.ArangeAscending | ramix/noisy_spectrum_maker.py:23 | with a positive step the axis is strictly ascending and lies in `[start, end)` |
| NoisySpectrumMakers.DefaultAxis | ramix/mixture_maker.py:64 | `arange(200, 2000, 1)` has 1800 points, from 200 to 1999 |
| NoisySpectrumMakers.LorentzianKeepsShape | ramix/peak_funs.py:40-41 | the Lorentzian gives one value per axis point whenever it succeeds |
| NoisySpectrumMakers.SumPeaks | ramix/noisy_spectrum_maker.py:50 | `sum(map(partial(peak_fun, axis), peaks))` succeeds exactly when every peak does, has the axis length, and otherwise fails with the error of a failing peak; `NoisySpectrumMakers.SumPeaksAppend` and `NoisySpectrumMakers.SumPeaksSwap` state its sum |
| NoisySpectrumMakers.GenerateSpectrum | ramix/noisy_spectrum_maker.py:49-50 | the spectrum exists exactly when every peak can be evaluated, and has one value per axis point; otherwise it is the error of the first peak that cannot be |
| NoisySpectrumMakers.GenerateSpectrumOnePeak | ramix/noisy_spectrum_maker.py:49-50 | a one-peak species has exactly that peak's shape as its spectrum |
| NoisySpectrumMakers.GenerateSpectrumNoPeaks | ramix/noisy_spectrum_maker.py:49-50 | a species with no peaks has the zero spectrum |
| NoisySpectrumMakers.SumPeaksAppend | ramix/noisy_spectrum_maker.py:49-50 | the spectrum of a concatenated peak list is the pointwise sum of the two spectra |
| NoisySpectrumMakers.SumPeaksSwap | ramix/noisy_spectrum_maker.py:49-50 | the order of the peaks does not change the spectrum |
| NoisySpectrumMakers.GetComponentSpectra | ramix/noisy_spectrum_maker.py:52-61 | succeeds exactly when every species spectrum exists, and otherwise gives the error of the first species whose spectrum fails; the keys are exactly the species names, each holding the spectrum of the last species of that name |
| NoisySpectrumMakers.ComponentSpectraKeys | ramix/noisy_spectrum_maker.py:57-59 | the keys of the component dict are exactly the species names |
| NoisySpectrumMakers.ComponentSpectraEntries | ramix/noisy_spectrum_maker.py:57-59 | each name holds the spectrum of the last species so named |
| NoisySpectrumMakers.NoisySpectra | ramix/noisy_spectrum_maker.py:39-43 | each species is perturbed with its own draws and then evaluated, in list order; this fails exactly when one of them cannot be evaluated, with the error of the first such species |
| NoisySpectrumMakers.Spectra | ramix/noisy_spectrum_maker.py:39-43 | the species spectra in list order, or the error of the first species whose spectrum cannot be evaluated |
| NoisySpectrumMakers.GenerateMixtureSpectrum | ramix/noisy_spectrum_maker.py:25-47 | the mixture is the concentration-weighted sum of the noisy species spectra, plus the baseline exactly when the flag is set; the dict maps each name to its drawn concentration; a failure is the error of the first species whose noisy copy cannot be evaluated |
| NoisySpectrumMakers.Combine | ramix/noisy_spectrum_maker.py:38-43 | the weighted sum `sum_i c_i * v_i`, from a zero vector of the axis length; `NoisySpectrumMakers.CombineAppend`, `NoisySpectrumMakers.CombineScale` and `NoisySpectrumMakers.MixtureOfOne` state what it computes |
| NoisySpectrumMakers.CombineAppend | ramix/noisy_spectrum_maker.py:38-43 | the weighted sum over two groups of species is the sum of the two weighted sums |
| NoisySpectrumMakers.CombineScale | ramix/noisy_spectrum_maker.py:38-43 | scaling every concentration by `t` scales the weighted sum by `t` |
| NoisySpectrumMakers.ConcentrationDictEntries | ramix/noisy_spectrum_maker.py:37-41 | the concentration dict's keys are exactly the species names; each holds the concentration drawn for the last species of that name |
| NoisySpectrumMakers.NoiseFreeSpectra | ramix/noisy_spectrum_maker.py:39-43 | without perturbation the noisy spectra are the component spectra of `get_component_spectra`, and exist exactly when those do |
| NoisySpectrumMakers.MixtureOfOne | ramix/noisy_spectrum_maker.py:37-47 | a one-species mixture without baseline is that species' noisy spectrum times its concentration |
| Permutations.Key | ramix/mixture_maker.py:116-118 | the key spelling the five values; `Permutations.KeyInjective` states that it identifies them |
| Permutations.MakePermutations | ramix/mixture_maker.py:99-124 | the dict of every combination under its key, in loop order, a repeated key overwriting in place; stated by `Permutations.MakePermutationsLookup`, `Permutations.MakePermutationsCovers`, `Permutations.MakePermutationsCount`, `Permutations.MakePermutationsFresh` and the examples |
| Permutations.Zip3 | ramix/mixture_maker.py:112-114 | `zip` of the three noise lists stops at the shortest list and pairs equal positions |
| Permutations.CombinationsLength | ramix/mixture_maker.py:111-115 | the loops visit `sizes * zipped triples * flags` combinations |
| Permutations.CombinationsAt | ramix/mixture_maker.py:111-123 | size i, triple j and flag k are visited at position `(i * triples + j) * flags + k`: sizes outermost, flags innermost |
| Permutations.KeyInjective | ramix/mixture_maker.py:116-118 | two combinations get the same key exactly when their five values are the same numbers written the same way |
| Permutations.MakePermutationsLookup | ramix/mixture_maker.py:119-123 | a key is in the dict exactly when some combination spells it, and holds the last such combination |
| Permutations.MakePermutationsCovers | ramix/mixture_maker.py:110-124 | every visited combination can be found under its own key |
| Permutations.MakePermutationsCount | ramix/mixture_maker.py:110-124 | the keys are distinct and there is one per distinct key spelled |
| Permutations.MakePermutationsFresh | ramix/mixture_maker.py:110-124 | with no repeated sizes, triples or flags, the dict lists every combination under its key, in loop order, and has `sizes * triples * flags` entries |
| Permutations.SinglePermutation | tests/test_mixture_maker.py:66-81 | the single-valued sweep gives the one entry `size_1_wn_std_2_amp_std_3_width_std_4_add_baseline_True` holding its values |
| Permutations.TwoSizes | tests/test_mixture_maker.py:83-106 | the two-size sweep gives the keys of size 1 and size 2, in that order, and the second entry holds size 2 |
| Permutations.RepeatedKeyOverwrites | ramix/mixture_maker.py:116-123 | `0.10` and `0.1` spell the same key, so the later combination overwrites the earlier one in place |
| MixtureMakers.NewMixtureMaker | ramix/mixture_maker.py:16-39 | the constructor's state; `MixtureMakers.NewMixtureMakerValid` states the relations it establishes |
| MixtureMakers.NamesMap | ramix/mixture_maker.py:36-39 | `chemical_names_map`; `MixtureMakers.NamesMapGet` and `MixtureMakers.NamesMapDistinct` state its contents |
| MixtureMakers.GetChemicalNames | ramix/mixture_maker.py:126-131 | one name per species, in list order |
| MixtureMakers.ToNoiseMaker | ramix/noise_maker.py:10-15 | `NoiseMaker(**perm)` takes the three noise levels and the flag from the permutation; the size goes to the catch-all |
| MixtureMakers.NewMixtureMakerValid | ramix/mixture_maker.py:16-39 | the constructor builds the names, the names map, a permutation dict with distinct keys and its matching noise-maker dict |
| MixtureMakers.NamesMapGet | ramix/mixture_maker.py:36-39 | a name is in the names map exactly when it is a species name; it maps to the position of its last occurrence |
| MixtureMakers.NamesMapDistinct | ramix/mixture_maker.py:36-39 | with distinct names, the map sends each name to its own position, in name order |
| MixtureMakers.NoiseMakerDictMatches | ramix/mixture_maker.py:33-34 | the noise-maker dict has the permutation dict's keys in the same order, and each holds the noise maker of that permutation |
| MixtureMakers.NameSlots | ramix/mixture_maker.py:50-52 | a dict entry has a slot exactly when its key is a species name, and the slot is a position in the name list |
| MixtureMakers.PlaceLabels | ramix/mixture_maker.py:50-52 | succeeds exactly when every entry has a slot; then the last write to a slot wins and untouched slots stay zero; otherwise it stops at the first entry without a slot |
| MixtureMakers.MakeY | ramix/mixture_maker.py:41-53 | succeeds exactly when every key is a species name, giving one label per species; otherwise a `KeyError` names the first unknown key |
| MixtureMakers.PlacedInOrder | ramix/mixture_maker.py:50-52 | when entry i aims at slot i, the labels are the amounts |
| MixtureMakers.PlacedValues | ramix/mixture_maker.py:50-52 | every label is zero or one of the dict's amounts |
| MixtureMakers.LabelsInUnitRange | ramix/mixture_maker.py:50-52 | amounts drawn from `[0, 1)` give labels in `[0, 1)` |
| MixtureMakers.RowLabelsInUnitRange | ramix/mixture_maker.py:64-73 | concentrations in `[0, 1)` give a row's labels in `[0, 1)`, whether or not species names repeat |
| MixtureMakers.RowsInUnitRange | ramix/mixture_maker.py:64-73 | concentrations in `[0, 1)` give every label of every row in `[0, 1)` |
| MixtureMakers.LabelsInNameOrder | tests/test_mixture_maker.py:9-25 | with distinct names, a dict of one amount per name, in name order, gives exactly those amounts as labels |
| MixtureMakers.LabelsAreConcentrations | ramix/mixture_maker.py:70-73 | with distinct species names, the labels of a concentration dict are the drawn concentrations, in species order |
| MixtureMakers.Wavenumbers | ramix/mixture_maker.py:141-143 | the dataset axis has 1800 points, `200 + k` |
| MixtureMakers.SpeciesSpectrum | ramix/mixture_maker.py:138-139 | one species' Lorentzian spectrum on the dataset axis exists exactly when each of its peaks can be evaluated, has 1800 points, and otherwise is one of its peaks' errors |
| MixtureMakers.ComponentSpectra | ramix/mixture_maker.py:133-139 | the component dict on the dataset axis has exactly the species names as keys, each holding the Lorentzian spectrum of the last species so named; a failure is the error of the first species whose spectrum fails |
| MixtureMakers.Setting | ramix/mixture_maker.py:65-69 | an unknown key raises `KeyError`, and a size whose `int()` is negative is refused by `np.zeros`; otherwise it succeeds, giving the key's noise maker and row count |
| MixtureMakers.Sample | ramix/mixture_maker.py:71 | exists exactly when every species' noisy copy has a spectrum, and otherwise fails with one of those species' errors; a mixture on the dataset axis has 1800 points, and its dict maps the species names to their drawn concentrations |
| MixtureMakers.MakeRow | ramix/mixture_maker.py:71-73 | a row exists exactly when the sample's mixture does: the row of X is the mixture, the row of y its labels (the concentrations when names are distinct); otherwise the peak error is reported |
| MixtureMakers.FillRows | ramix/mixture_maker.py:70-73 | succeeds exactly when each of the first n samples has a mixture, giving n rows in sample order; otherwise it reports the first sample's peak error |
| MixtureMakers.MakeDatasets | ramix/mixture_maker.py:55-75 | a missing key or negative size fails before any sample; otherwise X has `int(size)` rows of 1800 points and y as many rows of one label per species, row i from sample i (the shapes tests/test_mixture_maker.py:40-50 checks); concentrations in `[0, 1)` give every label in `[0, 1)` |

## Left out

- `random_baseline` and its `baseline_als` smoothing (ramix/noisy_spectrum_maker.py:63-89) use sparse linear algebra and random draws. The baseline is an input vector of one value per axis point.
- `gaussian` (ramix/peak_funs.py:23-38) needs `exp` and `log`, and no dataset uses it.
- The random number generators are not modelled. Their draws are inputs: `PeakDraw` per peak, one concentration per species and one baseline per sample. `NoiseMakers.Plausible` records what the distributions guarantee.
- `generate_all`, `output_dir`, printing and saving files (ramix/mixture_maker.py:77-96) are I/O.
- `DataLoader` and JSON reading (ramix/data_loader.py) are I/O. The species skeletons are given to the constructor in file order, and `file_paths` is not modelled.
- The noise dict is a record of five lists, so a missing list is not represented. In `make_permutations` a missing `size` always raises `KeyError`. The three noise lists are looked up only when `size` is non-empty. `add_baseline` is looked up only when there is also at least one zipped triple.
- PeakFuns.Lorentzian: a zero width divides by zero, which numpy turns into `inf`/`nan` with a warning, not an exception. The model reports it as the error `ZeroWidth`, since exact reals have no such values.
- PeakSkeletons.MakePeak: requires that the three numeric fields that are present hold numbers. JSON text or null in those fields would be stored unchecked by the dataclass; the model does not represent that.
- SpectrumSkeletons.MakePeaks: the same numeric-field requirement for every dict.
- NumberText.Str: `str()` of a float is modelled in positional notation with a finite decimal expansion. Exponent notation (`1e-05`) and binary rounding are not modelled.
- NoisySpectrumMakers.GenerateSpectrum: for an empty peak list Python's `sum` gives the scalar 0, which numpy broadcasts. The model gives the zero vector of the axis length.
- NoisySpectrumMakers.ArangeAscending: stated for a positive step only. A negative step gives a descending axis that no caller uses.
- NoiseMakers.AddNoise: numpy's `normal` and `lognormal` raise `ValueError` for a negative spread at the first draw that uses it, so `add_noise` raises on a skeleton with a peak when one of the three spreads is negative, and `make_datasets` raises for such a setting when `int(size) >= 1` and some species has a peak. The model takes the draws as given and does not fail there; `MixtureMakers.MakeDatasets` succeeds on such a setting.
- MixtureMakers.MakeDatasets: requires draws for at least `int(size)` samples, since the draws are inputs.
- Python's `deepcopy` in `add_noise` and the in-place updates become pure functions, so "the input skeleton is unchanged" holds trivially.
- Plotting and the plot test (tests/test_mixture_maker.py:27-37) are not modelled.
