/** The sweep of noise settings (`MixtureMaker.make_permutations`): every
    size, every zipped triple of wavenumber, amplitude and width noise, and
    every baseline flag, each stored under a key spelling its five values. */
module Permutations {
  import opened OrderedDicts
  import opened NumberText

  /** The noise dict: a list of values per setting. */
  datatype NoiseSpec = NoiseSpec(
    size: seq<Num>,
    wavenumberNoise: seq<Num>,
    amplitudeNoise: seq<Num>,
    widthNoise: seq<Num>,
    addBaseline: seq<bool>)

  /** One combination of settings, the value stored under a key. */
  datatype Permutation = Permutation(
    size: Num,
    wavenumberStd: Num,
    amplitudeStd: Num,
    widthStd: Num,
    addBaseline: bool)

  /** The three noise levels that are swept together. */
  datatype Triplet = Triplet(wavenumberStd: Num, amplitudeStd: Num, widthStd: Num)

  /** `zip(wavenumber_noise, amplitude_noise, width_noise)`: stops at the
      shortest list. */
  function Zip3(a: seq<Num>, b: seq<Num>, c: seq<Num>): (t: seq<Triplet>)
    ensures |t| <= |a| && |t| <= |b| && |t| <= |c|
    ensures |t| == |a| || |t| == |b| || |t| == |c|
    ensures forall j :: 0 <= j < |t| ==> t[j] == Triplet(a[j], b[j], c[j])
  {
    if |a| == 0 || |b| == 0 || |c| == 0 then []
    else [Triplet(a[0], b[0], c[0])] + Zip3(a[1..], b[1..], c[1..])
  }

  function MakePermutation(size: Num, t: Triplet, flag: bool): Permutation {
    Permutation(size, t.wavenumberStd, t.amplitudeStd, t.widthStd, flag)
  }

  /** The innermost loop, over the baseline flags. */
  function ForFlags(size: Num, t: Triplet, flags: seq<bool>): (r: seq<Permutation>)
    ensures |r| == |flags|
    ensures forall k :: 0 <= k < |flags| ==> r[k] == MakePermutation(size, t, flags[k])
  {
    seq(|flags|, k requires 0 <= k < |flags| => MakePermutation(size, t, flags[k]))
  }

  /** The middle loop, over the zipped noise levels. */
  function ForTriplets(size: Num, ts: seq<Triplet>, flags: seq<bool>): (r: seq<Permutation>)
    ensures |r| == |ts| * |flags|
  {
    if |ts| == 0 then []
    else
      NextBlock(|ts|, |flags|, 0);
      ForFlags(size, ts[0], flags) + ForTriplets(size, ts[1..], flags)
  }

  /** The outer loop, over the sizes. */
  function ForSizes(sizes: seq<Num>, ts: seq<Triplet>, flags: seq<bool>): seq<Permutation> {
    if |sizes| == 0 then [] else ForTriplets(sizes[0], ts, flags) + ForSizes(sizes[1..], ts, flags)
  }

  /** The combinations in the order the three nested loops visit them. */
  function Combinations(spec: NoiseSpec): seq<Permutation> {
    ForSizes(spec.size, Triplets(spec), spec.addBaseline)
  }

  /** The key spelled from the five value texts. */
  function KeyText(size: string, wn: string, amp: string, width: string, flag: string): string {
    "size_" + size + ("_wn_std_" + wn + ("_amp_std_" + amp + ("_width_std_" + width + ("_add_baseline_" + flag))))
  }

  /** `'size_' + str(size) + '_wn_std_' + ... + '_add_baseline_' + str(add_baseline)`. */
  function Key(p: Permutation): string {
    KeyText(Str(p.size), Str(p.wavenumberStd), Str(p.amplitudeStd), Str(p.widthStd), BoolText(p.addBaseline))
  }

  function Entries(ps: seq<Permutation>): (es: seq<(string, Permutation)>)
    ensures |es| == |ps|
    ensures forall i :: 0 <= i < |ps| ==> es[i] == (Key(ps[i]), ps[i])
  {
    seq(|ps|, i requires 0 <= i < |ps| => (Key(ps[i]), ps[i]))
  }

  /** `make_permutations(noise_dict)`: each combination assigned under its
      key, in loop order; a repeated key overwrites the earlier value. */
  function MakePermutations(spec: NoiseSpec): Dict<string, Permutation> {
    FromPairs(Entries(Combinations(spec)))
  }

  /* ---------------------------------------------------------------------- */
  /* Loop order                                                               */

  lemma {:induction false} NextBlock(j: nat, f: nat, k: nat)
    requires j >= 1
    ensures j * f + k == f + ((j - 1) * f + k)
  {
  }

  /** The middle and inner loops visit triplet `j` with flag `k` at position
      `j * |flags| + k`. */
  lemma {:induction false} ForTripletsAt(size: Num, ts: seq<Triplet>, flags: seq<bool>, j: nat, k: nat)
    requires j < |ts| && k < |flags|
    ensures j * |flags| + k < |ForTriplets(size, ts, flags)|
    ensures ForTriplets(size, ts, flags)[j * |flags| + k] == MakePermutation(size, ts[j], flags[k])
    decreases j
  {
    var head := ForFlags(size, ts[0], flags);
    var rest := ForTriplets(size, ts[1..], flags);
    assert ForTriplets(size, ts, flags) == head + rest;
    if j == 0 {
      assert j * |flags| + k == k;
    } else {
      var m := (j - 1) * |flags| + k;
      ForTripletsAt(size, ts[1..], flags, j - 1, k);
      NextBlock(j, |flags|, k);
      assert ts[1..][j - 1] == ts[j];
      assert (head + rest)[|head| + m] == rest[m];
    }
  }

  /** The outer loop visits `|sizes|` blocks of `|ts| * |flags|`. */
  lemma {:induction false} ForSizesLength(sizes: seq<Num>, ts: seq<Triplet>, flags: seq<bool>, b: nat)
    requires b == |ts| * |flags|
    ensures |ForSizes(sizes, ts, flags)| == |sizes| * b
    decreases |sizes|
  {
    if |sizes| > 0 {
      ForSizesLength(sizes[1..], ts, flags, b);
      NextBlock(|sizes|, b, 0);
    }
  }

  /** The first block of the outer loop is the one for the first size. */
  lemma {:induction false} FirstBlock(sizes: seq<Num>, ts: seq<Triplet>, flags: seq<bool>, m: nat)
    requires 0 < |sizes| && m < |ForTriplets(sizes[0], ts, flags)|
    ensures m < |ForSizes(sizes, ts, flags)|
    ensures ForSizes(sizes, ts, flags)[m] == ForTriplets(sizes[0], ts, flags)[m]
  {
  }

  /** Past the first block, the outer loop continues with the other sizes. */
  lemma {:induction false} LaterBlock(sizes: seq<Num>, ts: seq<Triplet>, flags: seq<bool>, b: nat, x: nat)
    requires 0 < |sizes| && b == |ForTriplets(sizes[0], ts, flags)|
    requires x < |ForSizes(sizes[1..], ts, flags)|
    ensures b + x < |ForSizes(sizes, ts, flags)|
    ensures ForSizes(sizes, ts, flags)[b + x] == ForSizes(sizes[1..], ts, flags)[x]
  {
  }

  /** The outer loop visits size `i` in the block of `b = |ts| * |flags|`
      combinations starting at `i * b`. */
  lemma {:induction false} ForSizesAt(sizes: seq<Num>, ts: seq<Triplet>, flags: seq<bool>, b: nat, i: nat, m: nat)
    requires b == |ts| * |flags|
    requires i < |sizes| && m < b
    ensures i * b + m < |ForSizes(sizes, ts, flags)|
    ensures ForSizes(sizes, ts, flags)[i * b + m] == ForTriplets(sizes[i], ts, flags)[m]
    decreases i
  {
    if i == 0 {
      FirstBlock(sizes, ts, flags, m);
    } else {
      ForSizesAt(sizes[1..], ts, flags, b, i - 1, m);
      NextBlock(i, b, m);
      LaterBlock(sizes, ts, flags, b, (i - 1) * b + m);
      assert sizes[1..][i - 1] == sizes[i];
    }
  }

  lemma {:induction false} Position(i: nat, j: nat, k: nat, t: nat, f: nat)
    requires j < t && k < f
    ensures (i * t + j) * f + k == i * (t * f) + (j * f + k)
    ensures j * f + k < t * f
  {
    assert j * f + k < (j + 1) * f;
    assert (j + 1) * f <= t * f;
  }

  /** The zipped noise levels of a sweep. */
  function Triplets(spec: NoiseSpec): seq<Triplet> {
    Zip3(spec.wavenumberNoise, spec.amplitudeNoise, spec.widthNoise)
  }

  /** There are `|size| * |triplets| * |add_baseline|` combinations. */
  lemma {:induction false} CombinationsLength(spec: NoiseSpec)
    ensures |Combinations(spec)| == |spec.size| * (|Triplets(spec)| * |spec.addBaseline|)
  {
    ForSizesLength(spec.size, Triplets(spec), spec.addBaseline, |Triplets(spec)| * |spec.addBaseline|);
  }

  /** The three nested loops visit size `i`, triplet `j` and flag `k` at
      position `(i * |ts| + j) * |flags| + k`. */
  lemma {:induction false} ForSizesAtPosition(sizes: seq<Num>, ts: seq<Triplet>, flags: seq<bool>, i: nat, j: nat, k: nat)
    requires i < |sizes| && j < |ts| && k < |flags|
    ensures (i * |ts| + j) * |flags| + k < |ForSizes(sizes, ts, flags)|
    ensures ForSizes(sizes, ts, flags)[(i * |ts| + j) * |flags| + k] == MakePermutation(sizes[i], ts[j], flags[k])
  {
    var t, f := |ts|, |flags|;
    var b := t * f;
    var m := j * f + k;
    Position(i, j, k, t, f);
    ForSizesAt(sizes, ts, flags, b, i, m);
    ForTripletsAt(sizes[i], ts, flags, j, k);
  }

  /** The combination for size `i`, triplet `j` and flag `k` sits at position
      `(i * |triplets| + j) * |add_baseline| + k`. */
  lemma {:induction false} CombinationsAt(spec: NoiseSpec, i: nat, j: nat, k: nat)
    requires i < |spec.size| && j < |Triplets(spec)| && k < |spec.addBaseline|
    ensures (i * |Triplets(spec)| + j) * |spec.addBaseline| + k < |Combinations(spec)|
    ensures Combinations(spec)[(i * |Triplets(spec)| + j) * |spec.addBaseline| + k]
         == Permutation(spec.size[i], spec.wavenumberNoise[j], spec.amplitudeNoise[j],
                        spec.widthNoise[j], spec.addBaseline[k])
  {
    ForSizesAtPosition(spec.size, Triplets(spec), spec.addBaseline, i, j, k);
  }

  /* ---------------------------------------------------------------------- */
  /* Keys                                                                     */

  /** A key splits into its five texts only one way, as long as the number
      texts hold no underscore. */
  lemma {:induction false} KeyTextInjective(s1: string, w1: string, a1: string, d1: string, b1: string,
                         s2: string, w2: string, a2: string, d2: string, b2: string)
    requires NoUnderscore(s1) && NoUnderscore(w1) && NoUnderscore(a1) && NoUnderscore(d1)
    requires NoUnderscore(s2) && NoUnderscore(w2) && NoUnderscore(a2) && NoUnderscore(d2)
    requires KeyText(s1, w1, a1, d1, b1) == KeyText(s2, w2, a2, d2, b2)
    ensures s1 == s2 && w1 == w2 && a1 == a2 && d1 == d2 && b1 == b2
  {
    var p4 := "_add_baseline_" + b1;
    var p3 := "_width_std_" + d1 + p4;
    var p2 := "_amp_std_" + a1 + p3;
    var p1 := "_wn_std_" + w1 + p2;
    var q4 := "_add_baseline_" + b2;
    var q3 := "_width_std_" + d2 + q4;
    var q2 := "_amp_std_" + a2 + q3;
    var q1 := "_wn_std_" + w2 + q2;
    PeelField("size_", s1, p1, s2, q1);
    PeelField("_wn_std_", w1, p2, w2, q2);
    PeelField("_amp_std_", a1, p3, a2, q3);
    PeelField("_width_std_", d1, p4, d2, q4);
    StripPrefix("_add_baseline_", b1, b2);
  }

  /** The field after `name` is read up to the next separator. */
  lemma {:induction false} PeelField(name: string, x1: string, r1: string, x2: string, r2: string)
    requires NoUnderscore(x1) && NoUnderscore(x2)
    requires |r1| > 0 && r1[0] == '_' && |r2| > 0 && r2[0] == '_'
    requires name + x1 + r1 == name + x2 + r2
    ensures x1 == x2 && r1 == r2
  {
    assert name + x1 + r1 == name + (x1 + r1);
    assert name + x2 + r2 == name + (x2 + r2);
    StripPrefix(name, x1 + r1, x2 + r2);
    SplitAtSeparator(x1, r1, x2, r2);
  }

  /** Two combinations print the same five values. */
  predicate SamePermutation(p: Permutation, q: Permutation) {
    && SameNumber(p.size, q.size)
    && SameNumber(p.wavenumberStd, q.wavenumberStd)
    && SameNumber(p.amplitudeStd, q.amplitudeStd)
    && SameNumber(p.widthStd, q.widthStd)
    && p.addBaseline == q.addBaseline
  }

  /** Two combinations share a key exactly when they hold the same values:
      the key's separators cannot occur inside the number texts. */
  lemma {:induction false} KeyInjective(p: Permutation, q: Permutation)
    ensures Key(p) == Key(q) <==> SamePermutation(p, q)
  {
    if Key(p) == Key(q) {
      KeyPartsHaveNoUnderscore(p);
      KeyPartsHaveNoUnderscore(q);
      KeyTextInjective(Str(p.size), Str(p.wavenumberStd), Str(p.amplitudeStd), Str(p.widthStd), BoolText(p.addBaseline),
                       Str(q.size), Str(q.wavenumberStd), Str(q.amplitudeStd), Str(q.widthStd), BoolText(q.addBaseline));
      StrInjective(p.size, q.size);
      StrInjective(p.wavenumberStd, q.wavenumberStd);
      StrInjective(p.amplitudeStd, q.amplitudeStd);
      StrInjective(p.widthStd, q.widthStd);
    }
    if SamePermutation(p, q) {
      SameNumberSameText(p.size, q.size);
      SameNumberSameText(p.wavenumberStd, q.wavenumberStd);
      SameNumberSameText(p.amplitudeStd, q.amplitudeStd);
      SameNumberSameText(p.widthStd, q.widthStd);
    }
  }

  lemma {:induction false} SameNumberSameText(a: Num, b: Num)
    requires SameNumber(a, b)
    ensures Str(a) == Str(b)
  {
  }

  lemma {:induction false} StripPrefix(c: string, x: string, y: string)
    requires c + x == c + y
    ensures x == y
  {
    assert x == (c + x)[|c|..];
    assert y == (c + y)[|c|..];
  }

  /** A number text followed by a separator splits only one way. */
  lemma {:induction false} SplitAtSeparator(a1: string, r1: string, a2: string, r2: string)
    requires NoUnderscore(a1) && NoUnderscore(a2)
    requires |r1| > 0 && r1[0] == '_' && |r2| > 0 && r2[0] == '_'
    requires a1 + r1 == a2 + r2
    ensures a1 == a2 && r1 == r2
  {
    var s := a1 + r1;
    assert forall j :: 0 <= j < |a1| ==> s[j] == a1[j];
    assert forall j :: 0 <= j < |a2| ==> s[j] == a2[j];
    assert s[|a1|] == '_' && s[|a2|] == '_';
    assert |a1| == |a2|;
    assert a1 == s[..|a1|] && a2 == s[..|a2|];
    assert r1 == s[|a1|..] && r2 == s[|a2|..];
  }

  /** The number texts hold no separator character. */
  lemma {:induction false} KeyPartsHaveNoUnderscore(p: Permutation)
    ensures NoUnderscore(Str(p.size)) && NoUnderscore(Str(p.wavenumberStd))
    ensures NoUnderscore(Str(p.amplitudeStd)) && NoUnderscore(Str(p.widthStd))
  {
    StrHasNoUnderscore(p.size);
    StrHasNoUnderscore(p.wavenumberStd);
    StrHasNoUnderscore(p.amplitudeStd);
    StrHasNoUnderscore(p.widthStd);
  }

  /* ---------------------------------------------------------------------- */
  /* The permutation dict                                                     */

  /** Keying a list of combinations: a key is present exactly when some
      combination spells it, and it holds the last such combination. */
  lemma {:induction false} EntriesLookup(cs: seq<Permutation>, key: string)
    ensures key in Keys(FromPairs(Entries(cs))) <==> exists i :: 0 <= i < |cs| && Key(cs[i]) == key
    ensures Get(FromPairs(Entries(cs)), key) == LastValue(Entries(cs), key)
    ensures Get(FromPairs(Entries(cs)), key).Some? ==>
              && Key(Get(FromPairs(Entries(cs)), key).value) == key
              && Get(FromPairs(Entries(cs)), key).value in cs
  {
    var es := Entries(cs);
    FromPairsGet(es, key);
    if key in Keys(es) {
      var i :| 0 <= i < |es| && Keys(es)[i] == key;
      assert Key(cs[i]) == key;
    }
    if exists i :: 0 <= i < |cs| && Key(cs[i]) == key {
      var i :| 0 <= i < |cs| && Key(cs[i]) == key;
      assert Keys(es)[i] == key;
    }
    if LastValue(es, key).Some? {
      LastValueIn(es, key);
      var i :| 0 <= i < |es| && es[i] == (key, LastValue(es, key).value);
      assert cs[i] == LastValue(es, key).value;
    }
  }

  /** The dict holds a key exactly when some combination spells it, and the
      value under it is the last combination the loops visited with that key. */
  lemma {:induction false} MakePermutationsLookup(spec: NoiseSpec, key: string)
    ensures key in Keys(MakePermutations(spec))
        <==> exists i :: 0 <= i < |Combinations(spec)| && Key(Combinations(spec)[i]) == key
    ensures Get(MakePermutations(spec), key) == LastValue(Entries(Combinations(spec)), key)
    ensures Get(MakePermutations(spec), key).Some? ==>
              && Key(Get(MakePermutations(spec), key).value) == key
              && Get(MakePermutations(spec), key).value in Combinations(spec)
  {
    EntriesLookup(Combinations(spec), key);
  }

  /** Every combination is found under its own key, holding the same values. */
  lemma {:induction false} MakePermutationsCovers(spec: NoiseSpec, i: nat)
    requires i < |Combinations(spec)|
    ensures Get(MakePermutations(spec), Key(Combinations(spec)[i])).Some?
    ensures SamePermutation(Get(MakePermutations(spec), Key(Combinations(spec)[i])).value, Combinations(spec)[i])
  {
    var p := Combinations(spec)[i];
    MakePermutationsLookup(spec, Key(p));
    KeyInjective(Get(MakePermutations(spec), Key(p)).value, p);
  }

  /** A key is among the dict's entries exactly when a combination spells it. */
  lemma {:induction false} EntriesKey(cs: seq<Permutation>, key: string)
    ensures key in Keys(FromPairs(Entries(cs))) <==> exists p :: p in cs && Key(p) == key
  {
    EntriesLookup(cs, key);
    if exists i :: 0 <= i < |cs| && Key(cs[i]) == key {
      var i :| 0 <= i < |cs| && Key(cs[i]) == key;
      assert cs[i] in cs;
    }
    if exists p :: p in cs && Key(p) == key {
      var p :| p in cs && Key(p) == key;
      var i :| 0 <= i < |cs| && cs[i] == p;
      assert Key(cs[i]) == key;
    }
  }

  /** Keying a list of combinations gives one entry per distinct key. */
  lemma {:induction false} EntriesCount(cs: seq<Permutation>)
    ensures DistinctKeys(FromPairs(Entries(cs)))
    ensures |FromPairs(Entries(cs))| == |set p | p in cs :: Key(p)|
  {
    var r := FromPairs(Entries(cs));
    AssignAllDistinct([], Entries(cs));
    var ks := set p | p in cs :: Key(p);
    forall key
      ensures key in Keys(r) <==> key in ks
    {
      EntriesKey(cs, key);
    }
    DistinctKeysCountSet(r, ks);
  }

  /** The dict has one entry per distinct key the loops spell. */
  lemma {:induction false} MakePermutationsCount(spec: NoiseSpec)
    ensures DistinctKeys(MakePermutations(spec))
    ensures |MakePermutations(spec)| == |set p | p in Combinations(spec) :: Key(p)|
  {
    EntriesCount(Combinations(spec));
  }

  /* ---------------------------------------------------------------------- */
  /* Sweeps without repeated values                                           */

  /** No two combinations share a key. */
  ghost predicate KeysDistinct(ps: seq<Permutation>) {
    forall x, y :: 0 <= x < y < |ps| ==> Key(ps[x]) != Key(ps[y])
  }

  predicate SameTriplet(a: Triplet, b: Triplet) {
    && SameNumber(a.wavenumberStd, b.wavenumberStd)
    && SameNumber(a.amplitudeStd, b.amplitudeStd)
    && SameNumber(a.widthStd, b.widthStd)
  }

  ghost predicate NoRepeatedNumbers(ns: seq<Num>) {
    forall x, y :: 0 <= x < y < |ns| ==> !SameNumber(ns[x], ns[y])
  }

  ghost predicate NoRepeatedTriplets(ts: seq<Triplet>) {
    forall x, y :: 0 <= x < y < |ts| ==> !SameTriplet(ts[x], ts[y])
  }

  ghost predicate NoRepeatedFlags(flags: seq<bool>) {
    forall x, y :: 0 <= x < y < |flags| ==> flags[x] != flags[y]
  }

  function TripletOf(p: Permutation): Triplet {
    Triplet(p.wavenumberStd, p.amplitudeStd, p.widthStd)
  }

  lemma {:induction false} KeysDistinctConcat(a: seq<Permutation>, b: seq<Permutation>)
    requires KeysDistinct(a) && KeysDistinct(b)
    requires forall x, y :: 0 <= x < |a| && 0 <= y < |b| ==> Key(a[x]) != Key(b[y])
    ensures KeysDistinct(a + b)
  {
    forall x, y | 0 <= x < y < |a + b|
      ensures Key((a + b)[x]) != Key((a + b)[y])
    {
      if y < |a| {
      } else if x < |a| {
        assert (a + b)[y] == b[y - |a|];
      } else {
        assert (a + b)[x] == b[x - |a|] && (a + b)[y] == b[y - |a|];
      }
    }
  }

  /** Every combination of the middle loop carries its size and one of the
      triplets. */
  lemma {:induction false} ForTripletsMember(size: Num, ts: seq<Triplet>, flags: seq<bool>, x: nat)
    requires x < |ForTriplets(size, ts, flags)|
    ensures ForTriplets(size, ts, flags)[x].size == size
    ensures exists j :: 0 <= j < |ts| && TripletOf(ForTriplets(size, ts, flags)[x]) == ts[j]
    decreases |ts|
  {
    var head := ForFlags(size, ts[0], flags);
    var rest := ForTriplets(size, ts[1..], flags);
    if x < |head| {
      assert TripletOf(ForTriplets(size, ts, flags)[x]) == ts[0];
    } else {
      ForTripletsMember(size, ts[1..], flags, x - |head|);
      assert ForTriplets(size, ts, flags)[x] == rest[x - |head|];
      var j :| 0 <= j < |ts[1..]| && TripletOf(rest[x - |head|]) == ts[1..][j];
      assert ts[1..][j] == ts[j + 1];
    }
  }

  /** Every combination of the outer loop carries one of the sizes. */
  lemma {:induction false} ForSizesMember(sizes: seq<Num>, ts: seq<Triplet>, flags: seq<bool>, x: nat)
    requires x < |ForSizes(sizes, ts, flags)|
    ensures exists i :: 0 <= i < |sizes| && ForSizes(sizes, ts, flags)[x].size == sizes[i]
    decreases |sizes|
  {
    var head := ForTriplets(sizes[0], ts, flags);
    var rest := ForSizes(sizes[1..], ts, flags);
    if x < |head| {
      ForTripletsMember(sizes[0], ts, flags, x);
      assert ForSizes(sizes, ts, flags)[x].size == sizes[0];
    } else {
      ForSizesMember(sizes[1..], ts, flags, x - |head|);
      assert ForSizes(sizes, ts, flags)[x] == rest[x - |head|];
      var i :| 0 <= i < |sizes[1..]| && rest[x - |head|].size == sizes[1..][i];
      assert sizes[1..][i] == sizes[i + 1];
    }
  }

  lemma {:induction false} ForFlagsDistinct(size: Num, t: Triplet, flags: seq<bool>)
    requires NoRepeatedFlags(flags)
    ensures KeysDistinct(ForFlags(size, t, flags))
  {
    var ps := ForFlags(size, t, flags);
    forall x, y | 0 <= x < y < |ps|
      ensures Key(ps[x]) != Key(ps[y])
    {
      KeyInjective(ps[x], ps[y]);
    }
  }

  lemma {:induction false} ForTripletsDistinct(size: Num, ts: seq<Triplet>, flags: seq<bool>)
    requires NoRepeatedTriplets(ts) && NoRepeatedFlags(flags)
    ensures KeysDistinct(ForTriplets(size, ts, flags))
    decreases |ts|
  {
    if |ts| > 0 {
      var head := ForFlags(size, ts[0], flags);
      var rest := ForTriplets(size, ts[1..], flags);
      ForFlagsDistinct(size, ts[0], flags);
      assert NoRepeatedTriplets(ts[1..]) by {
        forall x, y | 0 <= x < y < |ts[1..]|
          ensures !SameTriplet(ts[1..][x], ts[1..][y])
        {
          assert ts[1..][x] == ts[x + 1] && ts[1..][y] == ts[y + 1];
        }
      }
      ForTripletsDistinct(size, ts[1..], flags);
      forall x, y | 0 <= x < |head| && 0 <= y < |rest|
        ensures Key(head[x]) != Key(rest[y])
      {
        ForTripletsMember(size, ts[1..], flags, y);
        var j :| 0 <= j < |ts[1..]| && TripletOf(rest[y]) == ts[1..][j];
        assert ts[1..][j] == ts[j + 1];
        assert !SameTriplet(ts[0], ts[j + 1]);
        KeyInjective(head[x], rest[y]);
      }
      KeysDistinctConcat(head, rest);
    }
  }

  lemma {:induction false} ForSizesDistinct(sizes: seq<Num>, ts: seq<Triplet>, flags: seq<bool>)
    requires NoRepeatedNumbers(sizes) && NoRepeatedTriplets(ts) && NoRepeatedFlags(flags)
    ensures KeysDistinct(ForSizes(sizes, ts, flags))
    decreases |sizes|
  {
    if |sizes| > 0 {
      var head := ForTriplets(sizes[0], ts, flags);
      var rest := ForSizes(sizes[1..], ts, flags);
      ForTripletsDistinct(sizes[0], ts, flags);
      assert NoRepeatedNumbers(sizes[1..]) by {
        forall x, y | 0 <= x < y < |sizes[1..]|
          ensures !SameNumber(sizes[1..][x], sizes[1..][y])
        {
          assert sizes[1..][x] == sizes[x + 1] && sizes[1..][y] == sizes[y + 1];
        }
      }
      ForSizesDistinct(sizes[1..], ts, flags);
      forall x, y | 0 <= x < |head| && 0 <= y < |rest|
        ensures Key(head[x]) != Key(rest[y])
      {
        ForTripletsMember(sizes[0], ts, flags, x);
        ForSizesMember(sizes[1..], ts, flags, y);
        var i :| 0 <= i < |sizes[1..]| && rest[y].size == sizes[1..][i];
        assert sizes[1..][i] == sizes[i + 1];
        assert !SameNumber(sizes[0], sizes[i + 1]);
        KeyInjective(head[x], rest[y]);
      }
      KeysDistinctConcat(head, rest);
    }
  }

  /** When no value repeats in the sweep, every combination gets its own key:
      the dict lists all `|size| * |triplets| * |add_baseline|` combinations,
      in loop order. */
  lemma {:induction false} MakePermutationsFresh(spec: NoiseSpec)
    requires NoRepeatedNumbers(spec.size)
    requires NoRepeatedTriplets(Triplets(spec))
    requires NoRepeatedFlags(spec.addBaseline)
    ensures MakePermutations(spec) == Entries(Combinations(spec))
    ensures |MakePermutations(spec)| == |spec.size| * (|Triplets(spec)| * |spec.addBaseline|)
  {
    var cs := Combinations(spec);
    ForSizesDistinct(spec.size, Triplets(spec), spec.addBaseline);
    var es := Entries(cs);
    assert [] + es == es;
    assert DistinctKeys(es) by {
      forall x, y | 0 <= x < y < |es|
        ensures es[x].0 != es[y].0
      {
        assert Key(cs[x]) != Key(cs[y]);
      }
    }
    AssignAllFresh([], es);
    CombinationsLength(spec);
  }

  /* ---------------------------------------------------------------------- */
  /* Examples                                                                 */

  /** A sweep of single values gives one entry, under the key spelling them. */
  lemma {:induction false} SinglePermutation()
    ensures MakePermutations(NoiseSpec([Int(1)], [Int(2)], [Int(3)], [Int(4)], [true]))
         == [(KeyText("1", "2", "3", "4", "True"), Permutation(Int(1), Int(2), Int(3), Int(4), true))]
  {
    var p := Permutation(Int(1), Int(2), Int(3), Int(4), true);
    var spec := NoiseSpec([Int(1)], [Int(2)], [Int(3)], [Int(4)], [true]);
    assert Combinations(spec) == [p];
    NumberTexts();
    assert Key(p) == KeyText("1", "2", "3", "4", "True");
  }

  lemma {:induction false} NumberTexts()
    ensures Str(Int(1)) == "1" && Str(Int(2)) == "2" && Str(Int(3)) == "3" && Str(Int(4)) == "4"
    ensures Str(Float(10, 2)) == "0.1" && Str(Float(1, 1)) == "0.1"
  {
    assert NatText(1) == "1" && NatText(2) == "2" && NatText(3) == "3" && NatText(4) == "4";
    assert Normal(Float(10, 2)) == Float(1, 1);
    assert NatText(0) == "0";
    assert PaddedText(1, 1) == "1";
  }

  /** Two sizes give two entries, the first size's first. */
  lemma {:induction false} TwoSizes()
    ensures Keys(MakePermutations(NoiseSpec([Int(1), Int(2)], [Int(2)], [Int(3)], [Int(4)], [true])))
         == [KeyText("1", "2", "3", "4", "True"), KeyText("2", "2", "3", "4", "True")]
    ensures MakePermutations(NoiseSpec([Int(1), Int(2)], [Int(2)], [Int(3)], [Int(4)], [true]))[1].1
         == Permutation(Int(2), Int(2), Int(3), Int(4), true)
  {
    var spec := NoiseSpec([Int(1), Int(2)], [Int(2)], [Int(3)], [Int(4)], [true]);
    var p1 := Permutation(Int(1), Int(2), Int(3), Int(4), true);
    var p2 := Permutation(Int(2), Int(2), Int(3), Int(4), true);
    TwoSizesFresh();
    var es := Entries([p1, p2]);
    assert MakePermutations(spec) == es;
    NumberTexts();
    assert Keys(es) == [Key(p1), Key(p2)];
  }

  /** The two-size sweep visits its two combinations once each, so the dict
      is their entry list. */
  lemma {:induction false} TwoSizesFresh()
    ensures MakePermutations(NoiseSpec([Int(1), Int(2)], [Int(2)], [Int(3)], [Int(4)], [true]))
         == Entries([Permutation(Int(1), Int(2), Int(3), Int(4), true), Permutation(Int(2), Int(2), Int(3), Int(4), true)])
  {
    var spec := NoiseSpec([Int(1), Int(2)], [Int(2)], [Int(3)], [Int(4)], [true]);
    assert Triplets(spec) == [Triplet(Int(2), Int(3), Int(4))];
    assert Combinations(spec) == [Permutation(Int(1), Int(2), Int(3), Int(4), true), Permutation(Int(2), Int(2), Int(3), Int(4), true)];
    assert NoRepeatedNumbers(spec.size) by {
      assert !SameNumber(Int(1), Int(2));
    }
    MakePermutationsFresh(spec);
  }

  /** A value written two ways (`0.10` and `0.1`) spells the same key, so the
      later combination overwrites the earlier one in place. */
  lemma {:induction false} RepeatedKeyOverwrites()
    ensures MakePermutations(NoiseSpec([Int(1)], [Float(10, 2), Float(1, 1)], [Int(3), Int(3)],
                                       [Int(4), Int(4)], [true]))
         == [(KeyText("1", "0.1", "3", "4", "True"), Permutation(Int(1), Float(1, 1), Int(3), Int(4), true))]
  {
    var spec := NoiseSpec([Int(1)], [Float(10, 2), Float(1, 1)], [Int(3), Int(3)], [Int(4), Int(4)], [true]);
    var p1 := Permutation(Int(1), Float(10, 2), Int(3), Int(4), true);
    var p2 := Permutation(Int(1), Float(1, 1), Int(3), Int(4), true);
    assert Combinations(spec) == [p1, p2] by {
      assert Triplets(spec) == [Triplet(Float(10, 2), Int(3), Int(4)), Triplet(Float(1, 1), Int(3), Int(4))];
    }
    NumberTexts();
    var k := KeyText("1", "0.1", "3", "4", "True");
    assert Key(p1) == k && Key(p2) == k;
    assert Entries([p1, p2]) == [(k, p1), (k, p2)];
    SameKeyTwice(k, p1, p2);
  }

}
