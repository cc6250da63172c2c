/**
 * Insertion-ordered dictionaries. The analyser's symbol tables are Python
 * dicts whose iteration order is the order in which keys were first
 * inserted; assigning to an existing key keeps its position. They are
 * modelled here as lists of (key, value) entries with distinct keys.
 */
module AssocList {
  import opened Wrappers

  type AList<K, V> = seq<(K, V)>

  /** The keys in iteration order */
  function Keys<K, V>(m: AList<K, V>): (ks: seq<K>)
    ensures |ks| == |m|
    ensures forall i :: 0 <= i < |m| ==> ks[i] == m[i].0
    decreases |m|
  {
    if |m| == 0 then [] else [m[0].0] + Keys(m[1..])
  }

  /** No key occurs twice, as in every Python dict */
  ghost predicate UniqueKeys<K, V>(m: AList<K, V>) {
    forall i, j :: 0 <= i < j < |m| ==> m[i].0 != m[j].0
  }

  /** `m.get(k)`: the value stored under `k`, if any */
  function Get<K(==), V>(m: AList<K, V>, k: K): (r: Option<V>)
    ensures r.Some? <==> k in Keys(m)
    ensures r.Some? ==> (k, r.value) in m
    decreases |m|
  {
    if |m| == 0 then None
    else if m[0].0 == k then Some(m[0].1)
    else Get(m[1..], k)
  }

  /** With distinct keys, looking up an entry's key finds that entry's value. */
  lemma {:induction false} GetEntry<K, V>(m: AList<K, V>, i: nat)
    requires UniqueKeys(m)
    requires i < |m|
    ensures Get(m, m[i].0) == Some(m[i].1)
    decreases i
  {
    if i > 0 {
      assert m[0].0 != m[i].0;
      assert m[1..][i - 1] == m[i];
      GetEntry(m[1..], i - 1);
    }
  }

  /** `m[k] = v`: overwrites in place when `k` is present, appends otherwise;
      every other key keeps its value, and every old key keeps its position. */
  function Put<K(==,!new), V>(m: AList<K, V>, k: K, v: V): (r: AList<K, V>)
    ensures Get(r, k) == Some(v)
    ensures k in Keys(m) ==> Keys(r) == Keys(m)
    ensures k !in Keys(m) ==> r == m + [(k, v)]
    decreases |m|
  {
    if |m| == 0 then [(k, v)]
    else if m[0].0 == k then
      PutHead(m, k, v);
      [(k, v)] + m[1..]
    else
      var t := Put(m[1..], k, v);
      PutCons(m, k, v, t);
      [m[0]] + t
  }

  /** Overwriting the first entry keeps every key in place. */
  lemma PutHead<K, V>(m: AList<K, V>, k: K, v: V)
    requires |m| > 0 && m[0].0 == k
    ensures var r := [(k, v)] + m[1..];
      Get(r, k) == Some(v) && k in Keys(m) && Keys(r) == Keys(m)
  {
    var r := [(k, v)] + m[1..];
    assert r[1..] == m[1..];
    assert Keys(r) == [k] + Keys(m[1..]);
  }

  /** Storing past a first entry of another key keeps that entry in front. */
  lemma PutCons<K, V>(m: AList<K, V>, k: K, v: V, t: AList<K, V>)
    requires |m| > 0 && m[0].0 != k
    requires Get(t, k) == Some(v)
    requires k in Keys(m[1..]) ==> Keys(t) == Keys(m[1..])
    requires k !in Keys(m[1..]) ==> t == m[1..] + [(k, v)]
    ensures var r := [m[0]] + t;
      && Get(r, k) == Some(v)
      && (k in Keys(m) ==> Keys(r) == Keys(m))
      && (k !in Keys(m) ==> r == m + [(k, v)])
  {
    var r := [m[0]] + t;
    assert r[1..] == t;
    assert Keys(r) == [m[0].0] + Keys(t);
    assert Keys(m) == [m[0].0] + Keys(m[1..]);
    if k !in Keys(m) {
      assert m == [m[0]] + m[1..];
      AppendAssoc([m[0]], m[1..], [(k, v)]);
    }
  }

  /** Storing under one key leaves every other key's lookup unchanged. */
  lemma {:induction false} PutOther<K(!new), V>(m: AList<K, V>, k: K, v: V, k': K)
    requires k' != k
    ensures Get(Put(m, k, v), k') == Get(m, k')
    decreases |m|
  {
    if |m| > 0 && m[0].0 != k {
      var r := Put(m, k, v);
      assert r[1..] == Put(m[1..], k, v);
      PutOther(m[1..], k, v, k');
    }
  }

  /** Storing under a key keeps the keys distinct. */
  lemma PutKeepsKeysUnique<K(!new), V>(m: AList<K, V>, k: K, v: V)
    requires UniqueKeys(m)
    ensures UniqueKeys(Put(m, k, v))
  {
    var r := Put(m, k, v);
    if k in Keys(m) {
      assert Keys(r) == Keys(m);
      forall i, j | 0 <= i < j < |r| ensures r[i].0 != r[j].0 {
        assert r[i].0 == Keys(r)[i] == Keys(m)[i] == m[i].0;
        assert r[j].0 == Keys(r)[j] == Keys(m)[j] == m[j].0;
      }
    } else {
      forall i, j | 0 <= i < j < |r| ensures r[i].0 != r[j].0 {
        if j == |m| {
          assert r[i].0 == Keys(m)[i];
        }
      }
    }
  }

  /** Looking up in a concatenation consults the first list, then the second. */
  lemma {:induction false} GetConcat<K, V>(m: AList<K, V>, n: AList<K, V>, k: K)
    ensures Get(m + n, k) == if k in Keys(m) then Get(m, k) else Get(n, k)
    decreases |m|
  {
    if |m| > 0 {
      assert (m + n)[1..] == m[1..] + n;
      assert Keys(m) == [m[0].0] + Keys(m[1..]);
      GetConcat(m[1..], n, k);
    } else {
      assert m + n == n;
    }
  }

  /** `if k not in m: m[k] = v`: records only the first value stored under a
      key; the old entries stay as they were, in the same order. */
  function PutIfAbsent<K(==,!new), V>(m: AList<K, V>, k: K, v: V): (r: AList<K, V>)
    ensures |m| <= |r| <= |m| + 1 && r[..|m|] == m
    ensures forall e :: e in r ==> e in m || e == (k, v)
    ensures Get(r, k) == if k in Keys(m) then Get(m, k) else Some(v)
  {
    if k in Keys(m) then m
    else
      var r := m + [(k, v)];
      assert r[..|m|] == m;
      GetConcat(m, [(k, v)], k);
      r
  }

  /** Recording under one key leaves every other key's lookup unchanged. */
  lemma PutIfAbsentOther<K(!new), V>(m: AList<K, V>, k: K, v: V, k': K)
    requires k' != k
    ensures Get(PutIfAbsent(m, k, v), k') == Get(m, k')
  {
    if k !in Keys(m) {
      GetConcat(m, [(k, v)], k');
      assert Keys([(k, v)]) == [k];
    }
  }

  /** Recording a value under an absent key keeps the keys distinct. */
  lemma PutIfAbsentKeepsKeysUnique<K(!new), V>(m: AList<K, V>, k: K, v: V)
    requires UniqueKeys(m)
    ensures UniqueKeys(PutIfAbsent(m, k, v))
  {
    var r := PutIfAbsent(m, k, v);
    if k !in Keys(m) {
      forall i, j | 0 <= i < j < |r| ensures r[i].0 != r[j].0 {
        if j == |m| {
          assert r[i] == m[i];
          assert m[i].0 == Keys(m)[i];
        } else {
          assert r[i] == m[i] && r[j] == m[j];
        }
      }
    }
  }

  /** Every entry after `m[k] = v` is `(k, v)` or an entry that was already there. */
  lemma {:induction false} PutEntries<K(!new), V>(m: AList<K, V>, k: K, v: V)
    ensures forall e :: e in Put(m, k, v) ==> e == (k, v) || e in m
    decreases |m|
  {
    if |m| > 0 && m[0].0 != k {
      PutEntries(m[1..], k, v);
      assert Put(m, k, v) == [m[0]] + Put(m[1..], k, v);
    }
  }

  /** With distinct keys, an entry after `m[k] = v` is `(k, v)` when its key
      is `k`, and an entry that was already there otherwise. */
  lemma PutEntry<K(!new), V>(m: AList<K, V>, k: K, v: V, e: (K, V))
    requires UniqueKeys(m) && e in Put(m, k, v)
    ensures e.0 == k ==> e.1 == v
    ensures e.0 != k ==> e in m
  {
    var r := Put(m, k, v);
    PutKeepsKeysUnique(m, k, v);
    PutEntries(m, k, v);
    var i :| 0 <= i < |r| && r[i] == e;
    GetEntry(r, i);
  }

  /** A key stored with any value is among the keys. */
  lemma EntryKey<K, V>(m: AList<K, V>, k: K, v: V)
    requires (k, v) in m
    ensures k in Keys(m)
  {
    var i :| 0 <= i < |m| && m[i] == (k, v);
    assert Keys(m)[i] == k;
  }

  /** Storing never loses a key. */
  lemma PutKeepsKeys<K(!new), V>(m: AList<K, V>, k: K, v: V, k': K)
    requires k' in Keys(m)
    ensures k' in Keys(Put(m, k, v))
  {
    if k !in Keys(m) {
      var r := Put(m, k, v);
      var i :| 0 <= i < |m| && Keys(m)[i] == k';
      assert r[i] == m[i];
      assert Keys(r)[i] == k';
    }
  }

  /** The keys of a list are keys of every extension of it. */
  lemma PrefixKeys<K, V>(m: AList<K, V>, r: AList<K, V>)
    requires |m| <= |r| && r[..|m|] == m
    ensures forall k :: k in Keys(m) ==> k in Keys(r)
  {
    forall k | k in Keys(m) ensures k in Keys(r) {
      var i :| 0 <= i < |m| && Keys(m)[i] == k;
      assert r[i] == m[i];
      assert Keys(r)[i] == k;
    }
  }

  /** `m` is an initial part of `r` */
  ghost predicate IsPrefix<K, V>(m: AList<K, V>, r: AList<K, V>) {
    |m| <= |r| && r[..|m|] == m
  }

  lemma PrefixTrans<K, V>(a: AList<K, V>, b: AList<K, V>, c: AList<K, V>)
    requires IsPrefix(a, b) && IsPrefix(b, c)
    ensures IsPrefix(a, c)
  {
    assert c[..|a|] == c[..|b|][..|a|];
  }
}
