/** Python's insertion-ordered `dict`, as a sequence of entries.

    Assigning to a key that is already present overwrites its value and keeps
    its position; assigning to a new key appends an entry. Every dict the
    source builds (the permutation dict, the chemical-names map, the
    concentration dict, the component-spectra dict) is a fold of assignments. */
module OrderedDicts {
  import opened Wrappers

  /** The entries of a dict, in insertion order. */
  type Dict<K, V> = seq<(K, V)>

  /** The keys of a dict, in insertion order (`list(d.keys())`). */
  function Keys<K, V>(d: Dict<K, V>): (ks: seq<K>)
    ensures |ks| == |d|
    ensures forall i :: 0 <= i < |d| ==> ks[i] == d[i].0
  {
    if |d| == 0 then [] else [d[0].0] + Keys(d[1..])
  }

  /** No key occurs twice, which every Python dict guarantees. */
  ghost predicate DistinctKeys<K, V>(d: Dict<K, V>) {
    forall i, j :: 0 <= i < j < |d| ==> d[i].0 != d[j].0
  }

  /** The position of the entry for `k`, if there is one. */
  function IndexOf<K(==), V>(d: Dict<K, V>, k: K): (r: Option<nat>)
    ensures r.Some? ==> r.value < |d| && d[r.value].0 == k
    ensures r.Some? ==> forall j :: 0 <= j < r.value ==> d[j].0 != k
    ensures r.None? <==> k !in Keys(d)
  {
    if |d| == 0 then None
    else if d[0].0 == k then Some(0)
    else match IndexOf(d[1..], k)
      case None => None
      case Some(i) => Some(i + 1)
  }

  /** `d.get(k)`: the value stored under `k`, or None. */
  function Get<K(==), V>(d: Dict<K, V>, k: K): (r: Option<V>)
    ensures r.Some? <==> k in Keys(d)
  {
    match IndexOf(d, k)
    case None => None
    case Some(i) => Some(d[i].1)
  }

  /** The first entry holding `k` is the one IndexOf finds. */
  lemma {:induction false} IndexOfIsFirst<K, V>(d: Dict<K, V>, k: K, i: nat)
    requires i < |d| && d[i].0 == k
    requires forall j :: 0 <= j < i ==> d[j].0 != k
    ensures IndexOf(d, k) == Some(i)
    decreases i
  {
    if i > 0 {
      assert d[0].0 != k;
      IndexOfIsFirst(d[1..], k, i - 1);
    }
  }

  /** Two dicts that hold `k` at the same positions find it at the same place. */
  lemma {:induction false} IndexOfSamePositions<K, V1, V2>(d1: Dict<K, V1>, d2: Dict<K, V2>, k: K)
    requires |d1| == |d2|
    requires forall j :: 0 <= j < |d1| ==> (d1[j].0 == k <==> d2[j].0 == k)
    ensures IndexOf(d1, k) == IndexOf(d2, k)
    decreases |d1|
  {
    if |d1| > 0 {
      assert d1[0].0 == k <==> d2[0].0 == k;
      IndexOfSamePositions(d1[1..], d2[1..], k);
    }
  }

  /** `d[k] = v`: overwrite the entry for `k` in place, or append one. */
  function Assign<K(==,!new), V>(d: Dict<K, V>, k: K, v: V): (r: Dict<K, V>)
    ensures Get(r, k) == Some(v)
    ensures forall k' :: k' != k ==> Get(r, k') == Get(d, k')
    ensures k in Keys(d) ==> Keys(r) == Keys(d)
    ensures k !in Keys(d) ==> Keys(r) == Keys(d) + [k]
    ensures forall i :: 0 <= i < |d| && d[i].0 != k ==> r[i] == d[i]
    ensures DistinctKeys(d) ==> DistinctKeys(r)
  {
    match IndexOf(d, k)
    case Some(i) =>
      OverwriteKeepsOthers(d, k, v, i);
      d[i := (k, v)]
    case None =>
      AppendKeepsOthers(d, k, v);
      d + [(k, v)]
  }

  /** Overwriting the first entry for `k` leaves every other key's lookup alone. */
  lemma {:induction false} OverwriteKeepsOthers<K(!new), V>(d: Dict<K, V>, k: K, v: V, i: nat)
    requires IndexOf(d, k) == Some(i)
    ensures Get(d[i := (k, v)], k) == Some(v)
    ensures forall k' :: k' != k ==> Get(d[i := (k, v)], k') == Get(d, k')
    ensures Keys(d[i := (k, v)]) == Keys(d)
  {
    var r := d[i := (k, v)];
    IndexOfIsFirst(r, k, i);
    forall k' | k' != k
      ensures Get(r, k') == Get(d, k')
    {
      OverwriteGetOther(d, k, v, i, k');
    }
    assert Keys(r) == Keys(d);
  }

  lemma {:induction false} OverwriteGetOther<K, V>(d: Dict<K, V>, k: K, v: V, i: nat, k': K)
    requires i < |d| && d[i].0 == k && k' != k
    ensures Get(d[i := (k, v)], k') == Get(d, k')
  {
    var r := d[i := (k, v)];
    IndexOfSamePositions(r, d, k');
    match IndexOf(d, k')
    case Some(j) =>
      assert j != i;
    case None =>
  }

  /** Appending a fresh key leaves every other key's lookup alone. */
  lemma {:induction false} AppendKeepsOthers<K(!new), V>(d: Dict<K, V>, k: K, v: V)
    requires k !in Keys(d)
    ensures Get(d + [(k, v)], k) == Some(v)
    ensures forall k' :: k' != k ==> Get(d + [(k, v)], k') == Get(d, k')
    ensures Keys(d + [(k, v)]) == Keys(d) + [k]
  {
    var r := d + [(k, v)];
    assert forall j :: 0 <= j < |d| ==> Keys(d)[j] != k;
    IndexOfIsFirst(r, k, |d|);
    forall k' | k' != k
      ensures Get(r, k') == Get(d, k')
    {
      AppendGetOther(d, k, v, k');
    }
    assert Keys(r) == Keys(d) + [k];
  }

  lemma {:induction false} AppendGetOther<K, V>(d: Dict<K, V>, k: K, v: V, k': K)
    requires k' != k
    ensures Get(d + [(k, v)], k') == Get(d, k')
  {
    var r := d + [(k, v)];
    match IndexOf(d, k')
    case Some(i) =>
      IndexOfIsFirst(r, k', i);
    case None =>
      forall j | 0 <= j < |r|
        ensures Keys(r)[j] != k'
      {
        if j < |d| {
          assert Keys(d)[j] == r[j].0;
        }
      }
  }

  /** Assigning every pair of `ps` to `d`, in order. */
  function AssignAll<K(==,!new), V>(d: Dict<K, V>, ps: seq<(K, V)>): Dict<K, V>
    decreases |ps|
  {
    if |ps| == 0 then d else AssignAll(Assign(d, ps[0].0, ps[0].1), ps[1..])
  }

  /** The dict a loop of `d[k] = v` over `ps` builds from an empty dict. */
  function FromPairs<K(==,!new), V>(ps: seq<(K, V)>): Dict<K, V> {
    AssignAll([], ps)
  }

  /** The value of the last pair of `ps` whose key is `k`. */
  function LastValue<K(==), V>(ps: seq<(K, V)>, k: K): (r: Option<V>)
    ensures r.Some? <==> k in Keys(ps)
  {
    if |ps| == 0 then None
    else match LastValue(ps[1..], k)
      case Some(v) => Some(v)
      case None => if ps[0].0 == k then Some(ps[0].1) else None
  }

  /** The value LastValue finds is the one of the last pair holding `k`. */
  lemma {:induction false} LastValueAt<K, V>(ps: seq<(K, V)>, k: K, i: nat)
    requires i < |ps| && ps[i].0 == k
    requires forall j :: i < j < |ps| ==> ps[j].0 != k
    ensures LastValue(ps, k) == Some(ps[i].1)
    decreases i
  {
    if i == 0 {
      assert forall j :: 0 <= j < |ps| - 1 ==> Keys(ps[1..])[j] == ps[j + 1].0;
      assert k !in Keys(ps[1..]);
    } else {
      LastValueAt(ps[1..], k, i - 1);
    }
  }

  /** The value LastValue finds was paired with that key, and no later pair
      holds the key. */
  lemma {:induction false} LastValueIn<K, V>(ps: seq<(K, V)>, k: K)
    requires LastValue(ps, k).Some?
    ensures exists i :: 0 <= i < |ps| && ps[i] == (k, LastValue(ps, k).value)
                        && forall j :: i < j < |ps| ==> ps[j].0 != k
    decreases |ps|
  {
    var rest := ps[1..];
    match LastValue(rest, k)
    case Some(v) =>
      LastValueIn(rest, k);
      var i :| 0 <= i < |rest| && rest[i] == (k, v) && forall j :: i < j < |rest| ==> rest[j].0 != k;
      assert ps[i + 1] == (k, v);
      forall j | i + 1 < j < |ps|
        ensures ps[j].0 != k
      {
        assert ps[j] == rest[j - 1];
      }
    case None =>
      assert ps[0] == (k, LastValue(ps, k).value);
      forall j | 0 < j < |ps|
        ensures ps[j].0 != k
      {
        assert Keys(rest)[j - 1] == ps[j].0;
      }
  }

  /** After a run of assignments, a key holds the value assigned last, and a
      key never assigned keeps its old value. */
  lemma {:induction false} AssignAllGet<K(!new), V>(d: Dict<K, V>, ps: seq<(K, V)>, k: K)
    ensures Get(AssignAll(d, ps), k)
         == (match LastValue(ps, k) case Some(v) => Some(v) case None => Get(d, k))
    decreases |ps|
  {
    if |ps| > 0 {
      AssignAllGet(Assign(d, ps[0].0, ps[0].1), ps[1..], k);
    }
  }

  /** A run of assignments holds exactly the old keys and the assigned ones. */
  lemma {:induction false} AssignAllKeys<K(!new), V>(d: Dict<K, V>, ps: seq<(K, V)>, k: K)
    ensures k in Keys(AssignAll(d, ps)) <==> k in Keys(d) || k in Keys(ps)
    decreases |ps|
  {
    if |ps| > 0 {
      var d' := Assign(d, ps[0].0, ps[0].1);
      AssignAllKeys(d', ps[1..], k);
      assert Keys(ps) == [ps[0].0] + Keys(ps[1..]);
    }
  }

  /** The dict built from pairs holds exactly their keys, each with the value
      paired with it last. */
  lemma {:induction false} FromPairsGet<K(!new), V>(ps: seq<(K, V)>, k: K)
    ensures k in Keys(FromPairs(ps)) <==> k in Keys(ps)
    ensures Get(FromPairs(ps), k) == LastValue(ps, k)
  {
    AssignAllKeys([], ps, k);
    AssignAllGet([], ps, k);
  }

  /** A run of assignments never makes a key occur twice. */
  lemma {:induction false} AssignAllDistinct<K(!new), V>(d: Dict<K, V>, ps: seq<(K, V)>)
    requires DistinctKeys(d)
    ensures DistinctKeys(AssignAll(d, ps))
    decreases |ps|
  {
    if |ps| > 0 {
      AssignAllDistinct(Assign(d, ps[0].0, ps[0].1), ps[1..]);
    }
  }

  /** An assignment only ever stores the old values and the new one, so a
      property every one of them has holds of every value afterwards. */
  lemma {:induction false} AssignValues<K(!new), V>(d: Dict<K, V>, k: K, v: V, P: V -> bool)
    requires forall i :: 0 <= i < |d| ==> P(d[i].1)
    requires P(v)
    ensures forall i :: 0 <= i < |Assign(d, k, v)| ==> P(Assign(d, k, v)[i].1)
  {
    match IndexOf(d, k)
    case Some(j) =>
      assert Assign(d, k, v) == d[j := (k, v)];
    case None =>
      assert Assign(d, k, v) == d + [(k, v)];
  }

  /** The same for a run of assignments. */
  lemma {:induction false} AssignAllValues<K(!new), V>(d: Dict<K, V>, ps: seq<(K, V)>, P: V -> bool)
    requires forall i :: 0 <= i < |d| ==> P(d[i].1)
    requires forall i :: 0 <= i < |ps| ==> P(ps[i].1)
    ensures forall i :: 0 <= i < |AssignAll(d, ps)| ==> P(AssignAll(d, ps)[i].1)
    decreases |ps|
  {
    if |ps| > 0 {
      AssignValues(d, ps[0].0, ps[0].1, P);
      assert forall i :: 0 <= i < |ps[1..]| ==> ps[1..][i] == ps[i + 1];
      AssignAllValues(Assign(d, ps[0].0, ps[0].1), ps[1..], P);
    }
  }

  /** When no key repeats, the assignments simply append, in order. */
  lemma {:induction false} AssignAllFresh<K(!new), V>(d: Dict<K, V>, ps: seq<(K, V)>)
    requires DistinctKeys(d + ps)
    ensures AssignAll(d, ps) == d + ps
    decreases |ps|
  {
    if |ps| > 0 {
      var p := ps[0];
      assert p.0 !in Keys(d) by {
        forall j | 0 <= j < |d|
          ensures Keys(d)[j] != p.0
        {
          assert (d + ps)[j] == d[j] && (d + ps)[|d|] == p;
        }
      }
      assert d + ps == (d + [p]) + ps[1..];
      AssignAllFresh(d + [p], ps[1..]);
    }
  }

  /** Pairs with distinct keys are assigned as they are. */
  lemma {:induction false} FromPairsFresh<K(!new), V>(ps: seq<(K, V)>)
    requires DistinctKeys(ps)
    ensures FromPairs(ps) == ps
  {
    assert [] + ps == ps;
    AssignAllFresh([], ps);
  }

  /** A dict with distinct keys has as many entries as it has keys. */
  lemma {:induction false} DistinctKeysCount<K, V>(d: Dict<K, V>)
    requires DistinctKeys(d)
    ensures |d| == |set i | 0 <= i < |d| :: d[i].0|
  {
    if |d| > 0 {
      var rest := d[1..];
      DistinctKeysCount(rest);
      var s := set i | 0 <= i < |d| :: d[i].0;
      var s' := set i | 0 <= i < |rest| :: rest[i].0;
      assert s == s' + {d[0].0} by {
        forall x | x in s ensures x in s' + {d[0].0} {
          var i :| 0 <= i < |d| && d[i].0 == x;
          if i > 0 { assert rest[i - 1].0 == x; }
        }
        forall x | x in s' ensures x in s {
          var i :| 0 <= i < |rest| && rest[i].0 == x;
          assert d[i + 1].0 == x;
        }
      }
      forall i | 0 <= i < |rest|
        ensures rest[i].0 != d[0].0
      {
        assert rest[i] == d[i + 1];
      }
      assert d[0].0 !in s';
    }
  }

  /** A dict with distinct keys has as many entries as its set of keys. */
  lemma {:induction false} DistinctKeysCountSet<K, V>(d: Dict<K, V>, s: set<K>)
    requires DistinctKeys(d)
    requires forall k :: k in Keys(d) <==> k in s
    ensures |d| == |s|
  {
    DistinctKeysCount(d);
    var ks := set i | 0 <= i < |d| :: d[i].0;
    forall k
      ensures k in ks <==> k in s
    {
      if k in ks {
        var i :| 0 <= i < |d| && d[i].0 == k;
        assert Keys(d)[i] == k;
      }
      if k in Keys(d) {
        var i :| 0 <= i < |d| && Keys(d)[i] == k;
        assert d[i].0 == k;
      }
    }
    assert ks == s;
  }

  /** Assigning the same key twice leaves one entry with the later value. */
  lemma {:induction false} SameKeyTwice<K(!new), V>(k: K, a: V, b: V)
    ensures FromPairs([(k, a), (k, b)]) == [(k, b)]
  {
    var ps := [(k, a), (k, b)];
    var empty: Dict<K, V> := [];
    var d1 := Assign(empty, k, a);
    assert IndexOf(empty, k) == None;
    assert d1 == [(k, a)];
    assert IndexOf(d1, k) == Some(0);
    var d2 := Assign(d1, k, b);
    assert d2 == [(k, b)];
    assert ps[1..] == [(k, b)] && ps[1..][1..] == [];
    assert AssignAll(empty, ps) == AssignAll(d1, [(k, b)]);
    assert AssignAll(d1, [(k, b)]) == AssignAll(d2, []);
  }

}
