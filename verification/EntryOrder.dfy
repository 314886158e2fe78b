/** Receipt entries and the one order they are listed in. */
module EntryOrder {
  import opened Decimal
  import opened Text

  /** An account id is taken as the bytes it is hashed as, an amount by its spelling. */
  datatype ReceiptEntry = ReceiptEntry(accountId: Bytes, amount: NumberText)

  type Order = (Bytes, Bytes) -> bool

  /** What a collation is: any two ids compare, and consistently, but different ones may tie. */
  ghost predicate Collation(leq: Order) {
    && (forall a, b :: leq(a, b) || leq(b, a))
    && (forall a, b, c :: leq(a, b) && leq(b, c) ==> leq(a, c))
  }

  predicate Tie(leq: Order, a: Bytes, b: Bytes) {
    leq(a, b) && leq(b, a)
  }

  /** No two of the entries compare as equal. */
  ghost predicate NoTies(leq: Order, entries: seq<ReceiptEntry>) {
    forall i, j :: 0 <= i < j < |entries| ==> !Tie(leq, entries[i].accountId, entries[j].accountId)
  }

  function Insert(leq: Order, e: ReceiptEntry, sorted: seq<ReceiptEntry>): seq<ReceiptEntry> {
    if sorted == [] then [e]
    else if leq(e.accountId, sorted[0].accountId) then [e] + sorted
    else [sorted[0]] + Insert(leq, e, sorted[1..])
  }

  /** Stable: entries that compare equal keep their order. */
  function SortEntries(leq: Order, entries: seq<ReceiptEntry>): seq<ReceiptEntry> {
    if entries == [] then [] else Insert(leq, entries[0], SortEntries(leq, entries[1..]))
  }

  ghost predicate Sorted(leq: Order, entries: seq<ReceiptEntry>) {
    forall i, j :: 0 <= i < j < |entries| ==> leq(entries[i].accountId, entries[j].accountId)
  }

  ghost predicate DistinctAccounts(entries: seq<ReceiptEntry>) {
    forall i, j :: 0 <= i < j < |entries| ==> entries[i].accountId != entries[j].accountId
  }

  ghost predicate SameEntries(a: seq<ReceiptEntry>, b: seq<ReceiptEntry>) {
    forall e :: e in a <==> e in b
  }

  lemma {:induction false} InsertShape(leq: Order, e: ReceiptEntry, sorted: seq<ReceiptEntry>)
    ensures |Insert(leq, e, sorted)| == |sorted| + 1
    ensures forall x :: x in Insert(leq, e, sorted) <==> x == e || x in sorted
  {
    if sorted != [] && !leq(e.accountId, sorted[0].accountId) {
      InsertShape(leq, e, sorted[1..]);
      assert sorted == [sorted[0]] + sorted[1..];
    }
  }

  lemma {:induction false} InsertKeepsSorted(leq: Order, e: ReceiptEntry, sorted: seq<ReceiptEntry>)
    requires Collation(leq) && Sorted(leq, sorted)
    ensures Sorted(leq, Insert(leq, e, sorted))
  {
    if sorted != [] {
      if leq(e.accountId, sorted[0].accountId) {
        assert forall j :: 0 <= j < |sorted| ==> leq(e.accountId, sorted[j].accountId);
      } else {
        InsertKeepsSorted(leq, e, sorted[1..]);
        InsertShape(leq, e, sorted[1..]);
        var rest := Insert(leq, e, sorted[1..]);
        forall j | 0 <= j < |rest|
          ensures leq(sorted[0].accountId, rest[j].accountId)
        {
          assert rest[j] in rest;
        }
      }
    }
  }

  lemma {:induction false} InsertKeepsDistinct(leq: Order, e: ReceiptEntry, sorted: seq<ReceiptEntry>)
    requires DistinctAccounts(sorted)
    requires forall x :: x in sorted ==> x.accountId != e.accountId
    ensures DistinctAccounts(Insert(leq, e, sorted))
  {
    if sorted != [] && !leq(e.accountId, sorted[0].accountId) {
      InsertKeepsDistinct(leq, e, sorted[1..]);
      InsertShape(leq, e, sorted[1..]);
      var rest := Insert(leq, e, sorted[1..]);
      forall j | 0 <= j < |rest|
        ensures sorted[0].accountId != rest[j].accountId
      {
        assert rest[j] in rest;
      }
    }
  }

  lemma {:induction false} SortShape(leq: Order, entries: seq<ReceiptEntry>)
    ensures |SortEntries(leq, entries)| == |entries|
    ensures SameEntries(SortEntries(leq, entries), entries)
  {
    if entries != [] {
      SortShape(leq, entries[1..]);
      InsertShape(leq, entries[0], SortEntries(leq, entries[1..]));
      assert entries == [entries[0]] + entries[1..];
    }
  }

  lemma {:induction false} SortIsSorted(leq: Order, entries: seq<ReceiptEntry>)
    requires Collation(leq)
    ensures Sorted(leq, SortEntries(leq, entries))
  {
    if entries != [] {
      SortIsSorted(leq, entries[1..]);
      InsertKeepsSorted(leq, entries[0], SortEntries(leq, entries[1..]));
    }
  }

  lemma {:induction false} SortKeepsDistinct(leq: Order, entries: seq<ReceiptEntry>)
    requires DistinctAccounts(entries)
    ensures DistinctAccounts(SortEntries(leq, entries))
  {
    if entries != [] {
      SortKeepsDistinct(leq, entries[1..]);
      SortShape(leq, entries[1..]);
      forall x | x in SortEntries(leq, entries[1..])
        ensures x.accountId != entries[0].accountId
      {
        assert x in entries[1..];
      }
      InsertKeepsDistinct(leq, entries[0], SortEntries(leq, entries[1..]));
    }
  }

  lemma TiesStayOut(leq: Order, a: seq<ReceiptEntry>, b: seq<ReceiptEntry>)
    requires NoTies(leq, a) && DistinctAccounts(b) && SameEntries(a, b)
    ensures NoTies(leq, b)
  {
    forall i, j | 0 <= i < j < |b|
      ensures !Tie(leq, b[i].accountId, b[j].accountId)
    {
      assert b[i] in a && b[j] in a;
      var k: nat :| k < |a| && a[k] == b[i];
      var l: nat :| l < |a| && a[l] == b[j];
      if k < l {
        assert !Tie(leq, a[k].accountId, a[l].accountId);
      } else {
        assert !Tie(leq, a[l].accountId, a[k].accountId);
      }
    }
  }

  /** There is one way to list a set of entries in order when none compare as equal. */
  lemma {:induction false} SortedIsUnique(leq: Order, a: seq<ReceiptEntry>, b: seq<ReceiptEntry>)
    requires Collation(leq) && Sorted(leq, a) && Sorted(leq, b)
    requires NoTies(leq, a) && NoTies(leq, b) && DistinctAccounts(a) && DistinctAccounts(b) && SameEntries(a, b)
    ensures a == b
  {
    hide Collation, Tie;
    assert forall i :: 0 <= i < |a| ==> a[i] in b;
    assert forall i :: 0 <= i < |b| ==> b[i] in a;
    if a != [] && b != [] {
      FirstsAgree(leq, a, b);
      forall e
        ensures e in a[1..] <==> e in b[1..]
      {
        assert e in a <==> e == a[0] || e in a[1..];
        assert e in b <==> e == b[0] || e in b[1..];
      }
      SortedIsUnique(leq, a[1..], b[1..]);
    }
  }

  lemma FirstsAgree(leq: Order, a: seq<ReceiptEntry>, b: seq<ReceiptEntry>)
    requires Collation(leq) && Sorted(leq, a) && Sorted(leq, b) && NoTies(leq, a)
    requires a != [] && b != [] && a[0] in b && b[0] in a
    ensures a[0] == b[0]
  {
    var i: nat :| i < |a| && a[i] == b[0];
    var j: nat :| j < |b| && b[j] == a[0];
    FirstIsLeast(leq, a, i);
    FirstIsLeast(leq, b, j);
    assert Tie(leq, a[0].accountId, a[i].accountId);
  }

  lemma FirstIsLeast(leq: Order, a: seq<ReceiptEntry>, i: nat)
    requires Collation(leq) && Sorted(leq, a) && i < |a|
    ensures leq(a[0].accountId, a[i].accountId)
  {
    assert leq(a[0].accountId, a[0].accountId);
  }

  /** The order the entries arrive in does not matter when none compare as equal. */
  lemma SortForgetsOrder(leq: Order, a: seq<ReceiptEntry>, b: seq<ReceiptEntry>)
    requires Collation(leq) && NoTies(leq, a)
    requires DistinctAccounts(a) && DistinctAccounts(b) && SameEntries(a, b)
    ensures SortEntries(leq, a) == SortEntries(leq, b)
  {
    SortShape(leq, a);
    SortShape(leq, b);
    SortIsSorted(leq, a);
    SortIsSorted(leq, b);
    SortKeepsDistinct(leq, a);
    SortKeepsDistinct(leq, b);
    TiesStayOut(leq, a, SortEntries(leq, a));
    TiesStayOut(leq, a, SortEntries(leq, b));
    SortedIsUnique(leq, SortEntries(leq, a), SortEntries(leq, b));
  }

  // ---- entries that compare as equal ------------------------------------------------

  ghost predicate Before(m: seq<ReceiptEntry>, x: ReceiptEntry, y: ReceiptEntry) {
    exists i, j :: 0 <= i < j < |m| && m[i] == x && m[j] == y
  }

  /** An entry goes in before every one it does not come after. */
  lemma {:induction false} InsertedBefore(leq: Order, x: ReceiptEntry, y: ReceiptEntry, m: seq<ReceiptEntry>)
    requires y in m && leq(x.accountId, y.accountId)
    ensures Before(Insert(leq, x, m), x, y)
  {
    if leq(x.accountId, m[0].accountId) {
      var j: nat :| j < |m| && m[j] == y;
      assert ([x] + m)[0] == x && ([x] + m)[j + 1] == y;
    } else {
      assert m == [m[0]] + m[1..];
      InsertedBefore(leq, x, y, m[1..]);
      var rest := Insert(leq, x, m[1..]);
      var i, j :| 0 <= i < j < |rest| && rest[i] == x && rest[j] == y;
      assert ([m[0]] + rest)[i + 1] == x && ([m[0]] + rest)[j + 1] == y;
    }
  }

  lemma TiedSortsByArrival(leq: Order, x: ReceiptEntry, y: ReceiptEntry, others: seq<ReceiptEntry>)
    requires leq(x.accountId, y.accountId)
    ensures Before(SortEntries(leq, [x, y] + others), x, y)
  {
    var rest := [y] + others;
    assert ([x, y] + others)[1..] == rest && rest[1..] == others;
    InsertShape(leq, y, SortEntries(leq, others));
    InsertedBefore(leq, x, y, SortEntries(leq, rest));
  }

  /** Distinct entries stand in one order only. */
  lemma OneOrder(m: seq<ReceiptEntry>, x: ReceiptEntry, y: ReceiptEntry)
    requires DistinctAccounts(m) && Before(m, x, y)
    ensures !Before(m, y, x)
  {
  }

  lemma SwapOfTwo(x: ReceiptEntry, y: ReceiptEntry, others: seq<ReceiptEntry>)
    requires DistinctAccounts([x, y] + others)
    ensures DistinctAccounts([y, x] + others) && SameEntries([x, y] + others, [y, x] + others)
  {
    var a, b := [x, y] + others, [y, x] + others;
    forall i, j | 0 <= i < j < |b|
      ensures b[i].accountId != b[j].accountId
    {
      assert b[i] == a[if i < 2 then 1 - i else i] && b[j] == a[if j < 2 then 1 - j else j];
    }
    assert forall e :: e in a <==> e == x || e == y || e in others;
    assert forall e :: e in b <==> e == x || e == y || e in others;
  }

  /** The entries in another order: those at i and j first. */
  function BroughtFirst(a: seq<ReceiptEntry>, i: nat, j: nat): seq<ReceiptEntry>
    requires i < j < |a|
  {
    [a[i], a[j]] + a[..i] + a[i + 1..j] + a[j + 1..]
  }

  /** Where the entry now at k was, and where the one that was at k is now. */
  function From(i: nat, j: nat, k: nat): nat
    requires i < j
  {
    if k == 0 then i else if k == 1 then j
    else if k < i + 2 then k - 2 else if k < j + 1 then k - 1 else k
  }

  function To(i: nat, j: nat, k: nat): nat
    requires i < j
  {
    if k == i then 0 else if k == j then 1 else if k < i then k + 2 else if k < j then k + 1 else k
  }

  lemma PlaceOf(a: seq<ReceiptEntry>, i: nat, j: nat, k: nat)
    requires i < j < |a| && k < |a|
    ensures |BroughtFirst(a, i, j)| == |a|
    ensures From(i, j, k) < |a| && BroughtFirst(a, i, j)[k] == a[From(i, j, k)]
    ensures To(i, j, k) < |a| && From(i, j, To(i, j, k)) == k == To(i, j, From(i, j, k))
  {}

  lemma BroughtFirstIsTheSame(a: seq<ReceiptEntry>, i: nat, j: nat)
    requires i < j < |a| && DistinctAccounts(a)
    ensures DistinctAccounts(BroughtFirst(a, i, j)) && SameEntries(a, BroughtFirst(a, i, j))
  {
    hide BroughtFirst, From, To;
    var b := BroughtFirst(a, i, j);
    PlaceOf(a, i, j, i);
    forall k, l | 0 <= k < l < |b|
      ensures b[k].accountId != b[l].accountId
    {
      PlaceOf(a, i, j, k);
      PlaceOf(a, i, j, l);
    }
    forall e
      ensures e in a <==> e in b
    {
      if e in a {
        var k: nat :| k < |a| && a[k] == e;
        PlaceOf(a, i, j, k);
        PlaceOf(a, i, j, To(i, j, k));
      }
      if e in b {
        var k: nat :| k < |b| && b[k] == e;
        PlaceOf(a, i, j, k);
      }
    }
  }

  /** Two of the entries that compare as equal sort by which came first. */
  lemma TieShows(leq: Order, a: seq<ReceiptEntry>, i: nat, j: nat) returns (b: seq<ReceiptEntry>)
    requires DistinctAccounts(a) && i < j < |a| && Tie(leq, a[i].accountId, a[j].accountId)
    ensures |b| == |a| && DistinctAccounts(b) && SameEntries(a, b)
    ensures SortEntries(leq, a) != SortEntries(leq, b)
  {
    var x, y, others := a[i], a[j], a[..i] + a[i + 1..j] + a[j + 1..];
    BroughtFirstIsTheSame(a, i, j);
    b := [x, y] + others;
    assert b == BroughtFirst(a, i, j);
    TiedSortsByArrival(leq, x, y, others);
    if SortEntries(leq, a) == SortEntries(leq, b) {
      SwapOfTwo(x, y, others);
      TiedSortsByArrival(leq, y, x, others);
      SortKeepsDistinct(leq, b);
      OneOrder(SortEntries(leq, b), x, y);
      b := [y, x] + others;
    }
  }

  /** For any collation and any entries of distinct accounts: every order of arrival sorts to one
      list, and so gives one root, if and only if no two of the ids compare as equal. */
  lemma OneSortIffNoTies(leq: Order, a: seq<ReceiptEntry>)
    requires Collation(leq) && DistinctAccounts(a)
    ensures NoTies(leq, a) <==>
      forall b :: DistinctAccounts(b) && SameEntries(a, b) ==> SortEntries(leq, a) == SortEntries(leq, b)
  {
    hide Collation, DistinctAccounts, SameEntries, Tie;
    if NoTies(leq, a) {
      forall b | DistinctAccounts(b) && SameEntries(a, b)
        ensures SortEntries(leq, a) == SortEntries(leq, b)
      {
        SortForgetsOrder(leq, a, b);
      }
    } else {
      var i, j :| 0 <= i < j < |a| && Tie(leq, a[i].accountId, a[j].accountId);
      var b := TieShows(leq, a, i, j);
    }
  }
}
