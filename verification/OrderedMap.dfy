/** A JavaScript `Map` as the sources use it: entries in insertion order, at most
    one per key. `Put` on a key already present keeps the entry's place, as
    `Map.prototype.set` does; a deleted and re-inserted key goes to the end. */
module OrderedMap {
  import opened Wrappers

  datatype Entry<K, V> = Entry(key: K, value: V)

  type OMap<K, V> = seq<Entry<K, V>>

  function Get<K(==), V>(m: OMap<K, V>, k: K): Option<V> {
    if m == [] then None
    else if m[0].key == k then Some(m[0].value)
    else Get(m[1..], k)
  }

  predicate Has<K(==), V>(m: OMap<K, V>, k: K) {
    Get(m, k).Some?
  }

  function Put<K(==), V>(m: OMap<K, V>, k: K, v: V): OMap<K, V> {
    if m == [] then [Entry(k, v)]
    else if m[0].key == k then [Entry(k, v)] + m[1..]
    else [m[0]] + Put(m[1..], k, v)
  }

  function Remove<K(==), V>(m: OMap<K, V>, k: K): OMap<K, V> {
    if m == [] then []
    else if m[0].key == k then m[1..]
    else [m[0]] + Remove(m[1..], k)
  }

  ghost predicate Distinct<K, V>(m: OMap<K, V>) {
    forall i, j :: 0 <= i < j < |m| ==> m[i].key != m[j].key
  }

  lemma {:induction false} GetIsMembership<K, V>(m: OMap<K, V>, k: K)
    ensures Has(m, k) <==> exists i :: 0 <= i < |m| && m[i].key == k
    ensures Has(m, k) ==> Entry(k, Get(m, k).value) in m
  {
    if m != [] && m[0].key != k {
      GetIsMembership(m[1..], k);
      if Has(m, k) {
        assert Entry(k, Get(m, k).value) in m[1..];
      } else {
        assert forall i :: 0 < i < |m| ==> m[i] == m[1..][i - 1];
      }
    }
  }

  lemma {:induction false} GetAfterPut<K, V>(m: OMap<K, V>, k: K, v: V, other: K)
    ensures Get(Put(m, k, v), other) == if other == k then Some(v) else Get(m, other)
  {
    if m != [] && m[0].key != k {
      GetAfterPut(m[1..], k, v, other);
      assert Put(m, k, v)[1..] == Put(m[1..], k, v);
    } else if m != [] {
      assert Put(m, k, v)[1..] == m[1..];
    }
  }

  lemma {:induction false} GetAfterRemove<K, V>(m: OMap<K, V>, k: K, other: K)
    requires Distinct(m)
    ensures Get(Remove(m, k), other) == if other == k then None else Get(m, other)
  {
    if m != [] {
      if m[0].key == k {
        GetIsMembership(m[1..], k);
      } else {
        GetAfterRemove(m[1..], k, other);
        assert Remove(m, k)[1..] == Remove(m[1..], k);
      }
    }
  }

  /** An absent key is appended; a present one changes no other place. */
  lemma {:induction false} PutShape<K, V>(m: OMap<K, V>, k: K, v: V)
    ensures !Has(m, k) ==> Put(m, k, v) == m + [Entry(k, v)]
    ensures Has(m, k) ==> |Put(m, k, v)| == |m|
    ensures Has(m, k) ==> forall i :: 0 <= i < |m| ==>
      Put(m, k, v)[i].key == m[i].key && (m[i].key != k ==> Put(m, k, v)[i] == m[i])
  {
    if m != [] && m[0].key != k {
      PutShape(m[1..], k, v);
      assert forall i :: 0 < i < |m| ==> m[i] == m[1..][i - 1];
      if !Has(m, k) {
        assert m == [m[0]] + m[1..];
      }
    }
  }

  lemma PutKeepsDistinct<K, V>(m: OMap<K, V>, k: K, v: V)
    requires Distinct(m)
    ensures Distinct(Put(m, k, v))
  {
    PutShape(m, k, v);
    GetIsMembership(m, k);
  }

  /** Removal takes out the one entry with the key and keeps the order of the rest. */
  lemma {:induction false} RemoveShape<K, V>(m: OMap<K, V>, k: K) returns (at: nat)
    ensures !Has(m, k) ==> Remove(m, k) == m
    ensures Has(m, k) ==>
      at < |m| && m[at] == Entry(k, Get(m, k).value) && Remove(m, k) == m[..at] + m[at + 1..]
  {
    at := 0;
    if m != [] && m[0].key != k {
      var before := RemoveShape(m[1..], k);
      at := before + 1;
      if Has(m, k) {
        RemoveLater(m, k, before);
      } else {
        assert m == [m[0]] + m[1..];
      }
    }
  }

  lemma RemoveLater<K, V>(m: OMap<K, V>, k: K, at: nat)
    requires m != [] && m[0].key != k && at < |m[1..]|
    requires Remove(m[1..], k) == m[1..][..at] + m[1..][at + 1..]
    ensures Remove(m, k) == m[..at + 1] + m[at + 2..]
  {
    WithoutOne(m, at);
    assert Remove(m, k) == [m[0]] + Remove(m[1..], k);
  }

  lemma WithoutOne<T>(s: seq<T>, at: nat)
    requires at + 1 < |s|
    ensures [s[0]] + (s[1..][..at] + s[1..][at + 1..]) == s[..at + 1] + s[at + 2..]
  {
    assert s[1..][at + 1..] == s[at + 2..];
    assert s[..at + 1] == [s[0]] + s[1..][..at];
  }

  lemma RemoveKeepsDistinct<K, V>(m: OMap<K, V>, k: K)
    requires Distinct(m)
    ensures Distinct(Remove(m, k))
  {
    var _ := RemoveShape(m, k);
  }

  /** Dropping a prefix forgets exactly the keys in it. */
  lemma {:induction false} GetAfterDrop<K, V>(m: OMap<K, V>, n: nat, k: K)
    requires Distinct(m) && n <= |m|
    ensures Get(m[n..], k) == if Has(m[..n], k) then None else Get(m, k)
    ensures Has(m[..n], k) ==> Get(m[..n], k) == Get(m, k)
  {
    if n == 0 {
      assert m[0..] == m;
    } else {
      GetAfterDrop(m[1..], n - 1, k);
      assert m[..n][1..] == m[1..][..n - 1];
      assert m[1..][n - 1..] == m[n..];
      if m[0].key == k {
        GetIsMembership(m[n..], k);
      }
    }
  }
}
