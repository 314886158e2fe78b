/** What the challenge store and the session store share: entries in insertion order with a
    time they expire at, swept from the front and capped by dropping the oldest. */
module Expiring {
  import opened Wrappers
  import opened OrderedMap

  datatype Timed<V> = Timed(value: V, expiresAt: int)

  type Store<V> = OMap<string, Timed<V>>

  /** Expired entries go from the front, up to one that is still good. */
  function Sweep<V>(m: Store<V>, now: int): Store<V> {
    if m == [] || m[0].value.expiresAt > now then m else Sweep(m[1..], now)
  }

  /** The oldest go until there is room for one more. */
  function MakeRoom<V>(m: Store<V>, ceiling: int): Store<V> {
    if |m| < ceiling || m == [] then m else MakeRoom(m[1..], ceiling)
  }

  function AfterIssue<V>(m: Store<V>, key: string, entry: Timed<V>, now: int, ceiling: int): Store<V> {
    Put(MakeRoom(Sweep(m, now), ceiling), key, entry)
  }

  /** Every entry still alive, wherever it stands: what a sweep means to keep. */
  function Live<V>(m: Store<V>, now: int): Store<V> {
    if m == [] then []
    else (if m[0].value.expiresAt > now then [m[0]] else []) + Live(m[1..], now)
  }

  ghost predicate ByAge<V>(m: Store<V>) {
    forall i, j :: 0 <= i < j < |m| ==> m[i].value.expiresAt <= m[j].value.expiresAt
  }

  ghost predicate NoneAfter<V>(m: Store<V>, latest: int) {
    forall i :: 0 <= i < |m| ==> m[i].value.expiresAt <= latest
  }

  lemma {:induction false} AllLive<V>(m: Store<V>, now: int)
    requires forall i :: 0 <= i < |m| ==> m[i].value.expiresAt > now
    ensures Live(m, now) == m
  {
    if m != [] {
      AllLive(m[1..], now);
    }
  }

  /** In a store ordered by age, stopping at the first live entry removes exactly the expired ones. */
  lemma {:induction false} SweepIsFilter<V>(m: Store<V>, now: int)
    requires ByAge(m)
    ensures Sweep(m, now) == Live(m, now)
  {
    if m != [] {
      if m[0].value.expiresAt > now {
        AllLive(m, now);
      } else {
        SweepIsFilter(m[1..], now);
      }
    }
  }

  lemma {:induction false} SweepIsSuffix<V>(m: Store<V>, now: int) returns (n: nat)
    ensures n <= |m| && Sweep(m, now) == m[n..]
  {
    n := 0;
    if m != [] && m[0].value.expiresAt <= now {
      n := SweepIsSuffix(m[1..], now);
      n := n + 1;
    }
  }

  lemma {:induction false} MakeRoomIsSuffix<V>(m: Store<V>, ceiling: int) returns (n: nat)
    ensures n <= |m| && MakeRoom(m, ceiling) == m[n..]
    ensures |m[n..]| < ceiling || m[n..] == []
  {
    n := 0;
    if m != [] && |m| >= ceiling {
      n := MakeRoomIsSuffix(m[1..], ceiling);
      n := n + 1;
    }
  }

  /** Issuing under a key drops some of the oldest entries, changes no other, and adds the new one
      at the end; the ceiling is kept. */
  lemma IssueShape<V>(m: Store<V>, key: string, entry: Timed<V>, now: int, ceiling: int) returns (n: nat)
    requires Distinct(m)
    ensures n <= |m| && AfterIssue(m, key, entry, now, ceiling) == Put(m[n..], key, entry)
    ensures Distinct(AfterIssue(m, key, entry, now, ceiling))
    ensures |AfterIssue(m, key, entry, now, ceiling)| <= (if ceiling > 1 then ceiling else 1)
    ensures forall e :: e in AfterIssue(m, key, entry, now, ceiling) ==> e == Entry(key, entry) || e in m
  {
    hide Sweep, MakeRoom;
    var i := SweepIsSuffix(m, now);
    var j := MakeRoomIsSuffix(m[i..], ceiling);
    n := i + j;
    assert m[i..][j..] == m[n..];
    PutKeepsDistinct(m[n..], key, entry);
    PutAdds(m[n..], key, entry);
  }

  lemma {:induction false} PutAdds<V>(m: Store<V>, key: string, entry: Timed<V>)
    ensures |Put(m, key, entry)| <= |m| + 1
    ensures |Put(m, key, entry)| > |m| ==> !Has(m, key)
    ensures forall e :: e in Put(m, key, entry) ==> e == Entry(key, entry) || e in m
  {
    if m != [] && m[0].key != key {
      PutAdds(m[1..], key, entry);
      assert m == [m[0]] + m[1..];
    }
  }

  /** With a clock that does not go back and one lifetime for all, insertion order stays age order. */
  lemma IssueKeepsAge<V>(m: Store<V>, key: string, value: V, now: int, ttl: int, ceiling: int)
    requires Distinct(m) && ByAge(m) && NoneAfter(m, now + ttl) && !Has(m, key)
    ensures var after := AfterIssue(m, key, Timed(value, now + ttl), now, ceiling);
            ByAge(after) && NoneAfter(after, now + ttl)
  {
    var n := IssueShape(m, key, Timed(value, now + ttl), now, ceiling);
    GetAfterDrop(m, n, key);
    PutShape(m[n..], key, Timed(value, now + ttl));
  }

  /** Removing an entry leaves the others, in order. */
  lemma RemoveKeeps<V>(m: Store<V>, key: string)
    requires Distinct(m)
    ensures Distinct(Remove(m, key)) && !Has(Remove(m, key), key) && |Remove(m, key)| <= |m|
    ensures Has(m, key) ==> |Remove(m, key)| < |m|
    ensures ByAge(m) ==> ByAge(Remove(m, key))
    ensures forall e :: e in Remove(m, key) ==> e in m
    ensures forall latest :: NoneAfter(m, latest) ==> NoneAfter(Remove(m, key), latest)
  {
    var at := RemoveShape(m, key);
    RemoveKeepsDistinct(m, key);
    GetAfterRemove(m, key, key);
  }

  // ---- an entry and what has come behind it --------------------------------------------

  /** The entry is in the store, and every key behind it is one of these. */
  ghost predicate StandsBefore<V>(m: Store<V>, key: string, entry: Timed<V>, behind: set<string>) {
    exists i :: 0 <= i < |m| && m[i] == Entry(key, entry) && forall j :: i < j < |m| ==> m[j].key in behind
  }

  lemma StandingIsGot<V>(m: Store<V>, key: string, entry: Timed<V>, behind: set<string>)
    requires Distinct(m) && StandsBefore(m, key, entry, behind)
    ensures Get(m, key) == Some(entry)
  {
    GetIsMembership(m, key);
    var i :| 0 <= i < |m| && m[i] == Entry(key, entry);
    var k :| 0 <= k < |m| && m[k] == Entry(key, Get(m, key).value);
  }

  /** Distinct keys out of a set are no more than the set. */
  lemma {:induction false} FewBehind<V>(m: Store<V>, behind: set<string>)
    requires Distinct(m) && forall j :: 0 <= j < |m| ==> m[j].key in behind
    ensures |m| <= |behind|
  {
    if m != [] {
      forall j | 0 <= j < |m[1..]|
        ensures m[1..][j].key in behind - {m[0].key}
      {
        assert m[1..][j] == m[j + 1];
      }
      FewBehind(m[1..], behind - {m[0].key});
    }
  }

  lemma {:induction false} SweepSpares<V>(m: Store<V>, now: int, key: string, entry: Timed<V>, behind: set<string>)
    requires StandsBefore(m, key, entry, behind) && entry.expiresAt > now
    ensures StandsBefore(Sweep(m, now), key, entry, behind)
  {
    if m[0].value.expiresAt <= now {
      assert m[0] != Entry(key, entry);
      FirstIsOther(m, key, entry, behind);
      SweepSpares(m[1..], now, key, entry, behind);
    }
  }

  lemma FirstIsOther<V>(m: Store<V>, key: string, entry: Timed<V>, behind: set<string>)
    requires StandsBefore(m, key, entry, behind) && m[0] != Entry(key, entry)
    ensures StandsBefore(m[1..], key, entry, behind)
  {
    var i :| 0 <= i < |m| && m[i] == Entry(key, entry) && forall j :: i < j < |m| ==> m[j].key in behind;
    assert m[1..][i - 1] == Entry(key, entry);
  }

  lemma {:induction false} MakeRoomSpares<V>(
    m: Store<V>, ceiling: int, key: string, entry: Timed<V>, behind: set<string>)
    requires Distinct(m) && StandsBefore(m, key, entry, behind) && |behind| + 1 < ceiling
    ensures StandsBefore(MakeRoom(m, ceiling), key, entry, behind)
  {
    if |m| >= ceiling {
      if m[0] == Entry(key, entry) {
        AllBehindFirst(m, key, entry, behind);
        FewBehind(m[1..], behind);
        assert false;
      } else {
        FirstIsOther(m, key, entry, behind);
        MakeRoomSpares(m[1..], ceiling, key, entry, behind);
      }
    }
  }

  lemma AllBehindFirst<V>(m: Store<V>, key: string, entry: Timed<V>, behind: set<string>)
    requires Distinct(m) && StandsBefore(m, key, entry, behind) && m[0] == Entry(key, entry)
    ensures Distinct(m[1..]) && forall j :: 0 <= j < |m[1..]| ==> m[1..][j].key in behind
  {
    var i :| 0 <= i < |m| && m[i] == Entry(key, entry) && forall j :: i < j < |m| ==> m[j].key in behind;
    assert i == 0;
    assert forall j :: 0 <= j < |m[1..]| ==> m[1..][j] == m[j + 1];
  }

  lemma PutSpares<V>(m: Store<V>, key: string, entry: Timed<V>, behind: set<string>, other: string, added: Timed<V>)
    requires StandsBefore(m, key, entry, behind) && other != key
    ensures StandsBefore(Put(m, other, added), key, entry, behind + {other})
  {
    PutShape(m, other, added);
    var i :| 0 <= i < |m| && m[i] == Entry(key, entry) && forall j :: i < j < |m| ==> m[j].key in behind;
    assert Put(m, other, added)[i] == Entry(key, entry);
  }

  lemma RemoveSpares<V>(m: Store<V>, key: string, entry: Timed<V>, behind: set<string>, other: string)
    requires StandsBefore(m, key, entry, behind) && other != key
    ensures StandsBefore(Remove(m, other), key, entry, behind)
  {
    var at := RemoveShape(m, other);
    if Has(m, other) {
      var i :| 0 <= i < |m| && m[i] == Entry(key, entry) && forall j :: i < j < |m| ==> m[j].key in behind;
      assert Remove(m, other)[if i < at then i else i - 1] == Entry(key, entry);
    }
  }

  /** Issuing another key takes neither an entry that is good nor one with few behind it. */
  lemma IssueSpares<V>(
    m: Store<V>, key: string, entry: Timed<V>, behind: set<string>,
    other: string, added: Timed<V>, now: int, ceiling: int)
    requires Distinct(m) && StandsBefore(m, key, entry, behind) && other != key
    requires entry.expiresAt > now && |behind| + 1 < ceiling
    ensures StandsBefore(AfterIssue(m, other, added, now, ceiling), key, entry, behind + {other})
  {
    hide StandsBefore, Sweep, MakeRoom, Put;
    var i := SweepIsSuffix(m, now);
    SweepSpares(m, now, key, entry, behind);
    MakeRoomSpares(Sweep(m, now), ceiling, key, entry, behind);
    PutSpares(MakeRoom(Sweep(m, now), ceiling), key, entry, behind, other, added);
  }

  /** A key that is new goes to the end. */
  lemma IssueStandsLast<V>(m: Store<V>, key: string, entry: Timed<V>, now: int, ceiling: int)
    requires Distinct(m) && !Has(m, key)
    ensures StandsBefore(AfterIssue(m, key, entry, now, ceiling), key, entry, {})
  {
    var n := IssueShape(m, key, entry, now, ceiling);
    GetAfterDrop(m, n, key);
    PutStandsLast(m[n..], key, entry);
  }

  lemma PutStandsLast<V>(m: Store<V>, key: string, entry: Timed<V>)
    requires !Has(m, key)
    ensures StandsBefore(Put(m, key, entry), key, entry, {})
  {
    PutShape(m, key, entry);
    assert Put(m, key, entry)[|m|] == Entry(key, entry);
  }
}
