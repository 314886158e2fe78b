/** What becomes of an account when a round is recorded that was planned before another one was. */
module StalePlans {
  import opened Apportionment
  import opened Ledger
  import opened LedgerProperties
  import opened OrderedMap
  import opened Shares
  import opened Wrappers
  import Rollup

  /** What a stale plan does: two windows planned on the same ledger and then recorded, both paying
      an account the balance it was owed, leave it owing that balance back. */
  lemma TwoPlansPayOneBalanceTwice(
    db: Db, first: Request, second: Request, e: PlannedEntry, f: PlannedEntry)
    requires ValidDb(db) && Plan(db, first).Ok? && Plan(db, second).Ok?
    requires var r, q := Plan(db, first).value, Plan(db, second).value;
             && !HasWindow(db.rounds, r) && !HasWindow(db.rounds, q) && !SameWindow(r, q)
             && e in r.entries && f in q.entries
    requires e.accountId == f.accountId && e.amountZat > 0 && f.amountZat > 0
    requires Carry(db.rounds, e.accountId) != 0
    ensures var before, r, q := Carry(db.rounds, e.accountId), Plan(db, first).value, Plan(db, second).value;
            var rounds := AfterRecord(AfterRecord(db.rounds, r), q);
            && rounds == db.rounds + [r, q]
            && e.amountZat + f.amountZat == e.grossZat - e.feeZat + f.grossZat - f.feeZat + 2 * before
            && Carry(rounds, e.accountId) == -before != LastOut(rounds, e.accountId)
  {
    PlanIsBalanced(db, first);
    PlanIsBalanced(db, second);
    PlanReadsLedger(db, first, e);
    PlanReadsLedger(db, second, f);
    hide Plan, Carry, SumGross, SumFees, SumPaid, SumOut, SumIn;
    var r, q := Plan(db, first).value, Plan(db, second).value;
    BothAreRecorded(db.rounds, r, q);
    assert EntryBalances(e) && EntryBalances(f);
    RecordMovesCarry(db.rounds, r, e);
    RecordMovesCarry(db.rounds + [r], q, f);
    EntryOfIsUnique(q, f);
    assert (db.rounds + [r, q])[..|db.rounds| + 1] == db.rounds + [r];
  }

  lemma BothAreRecorded(rounds: seq<PlannedRound>, r: PlannedRound, q: PlannedRound)
    requires !HasWindow(rounds, r) && !HasWindow(rounds, q) && !SameWindow(r, q)
    ensures AfterRecord(AfterRecord(rounds, r), q) == rounds + [r, q] == rounds + [r] + [q]
  {
    assert forall i :: 0 <= i < |rounds| ==> !SameWindow(rounds[i], r) && !SameWindow(rounds[i], q);
    assert rounds + [r, q] == rounds + [r] + [q];
  }

  lemma EntryOfIsUnique(r: PlannedRound, e: PlannedEntry)
    requires Balanced(r) && e in r.entries
    ensures EntryOf(r.entries, e.accountId) == Some(e)
  {
    hide SumGross, SumFees, SumPaid, SumOut, SumIn, EntryBalances;
    CarryInIsOneEntry(r.entries, e.accountId);
  }

  // One account with one accepted share, no fee. The first plan carries its five zatoshi out; the
  // next two, with nothing to distribute, are made before either is recorded.

  const ONE_SHARE := Db([Account("a", "address")], [Rollup.Worker("a", "rig")],
                        Rollup.Stored([Rollup.Share(0, "x", Accepted, 1.0, 0, None)]), [])
  const BELOW_MINIMUM := Request(0, 300, 5, _ => 0, 6)
  const NEXT_WINDOW := Request(300, 600, 0, _ => 0, 1)
  const WINDOW_AFTER := Request(600, 900, 0, _ => 0, 1)

  lemma OneSubject(db: Db, account: Account, start: int, end: int)
    requires WeightOf(db, account.id, start, end) > 0.0 || Carry(db.rounds, account.id) != 0
    ensures Subjects(db, [account], start, end) == [SubjectOf(db, account, start, end)]
  {
    hide WeightOf, Carry;
    assert [account][..0] == [];
    assert Subjects(db, [], start, end) == [];
  }

  lemma OneEntry(subject: Subject, grossZat: int, request: Request)
    requires request.feeBpsFor(subject.account.id) == 0
    ensures PlanEntries([subject], [grossZat], request)
         == Ok([EntryFor(subject, grossZat, 0, request.minPayoutZat)])
    ensures WeightsOf([subject]) == [subject.weight] && SumReal([subject.weight]) == subject.weight
  {
    assert [subject][..0] == [] && [grossZat][..0] == [] && [subject.weight][..0] == [];
    assert PlanEntries([], [], request) == Ok([]);
    var entry := EntryFor(subject, grossZat, 0, request.minPayoutZat);
    assert [] + [entry] == [entry];
    assert SumReal([]) == 0.0;
  }

  lemma OneShare(total: int, weight: real)
    requires total >= 0 && weight >= 0.0 && (total == 0 || weight > 0.0)
    ensures Split(total, [weight], weight) == [total]
  {
    assert [weight][..0] == [] && SumReal([]) == 0.0;
    SplitIsExact(total, [weight], weight);
    var gross := Split(total, [weight], weight);
    assert gross[..0] == [];
    assert Sum(gross) == Sum(gross[..0]) + gross[0];
  }

  /** A plan for the one account on record there, without fees: what it takes in, and pays or not. */
  lemma OnePlan(db: Db, request: Request) returns (e: PlannedEntry)
    requires db == ONE_SHARE.(rounds := db.rounds)
    requires request.feeBpsFor("a") == 0 && Objection(request).None?
    requires WeightOf(db, "a", request.periodStart, request.periodEnd) > 0.0
          || (Carry(db.rounds, "a") != 0 && request.totalZat == 0)
    ensures ValidDb(db) && Plan(db, request).Ok? && Plan(db, request).value.entries == [e]
    ensures e.accountId == "a" && e.grossZat == request.totalZat && e.feeZat == 0
    ensures var owed := e.grossZat + Carry(db.rounds, "a");
            && e.amountZat == (if owed >= request.minPayoutZat && owed > 0 then owed else 0)
            && e.amountZat + e.carriedOutZat == owed
  {
    hide WeightOf, Carry, Split, Subjects, PlanEntries, WeightsOf, Objection;
    RecordedDbIsValid(db, [Rollup.Share(0, "x", Accepted, 1.0, 0, None)]);
    var account := Account("a", "address");
    var subject := SubjectOf(db, account, request.periodStart, request.periodEnd);
    assert db.accounts == [account];
    OneSubject(db, account, request.periodStart, request.periodEnd);
    WeightOfIsNotNegative(db, "a", request.periodStart, request.periodEnd);
    OneEntry(subject, request.totalZat, request);
    NotObjected(request);
    OneShare(request.totalZat, subject.weight);
    e := EntryFor(subject, request.totalZat, 0, request.minPayoutZat);
  }

  lemma NotObjected(request: Request)
    requires Objection(request).None?
    ensures request.totalZat >= 0
  {}

  lemma OneShareWeighs(end: int)
    requires end > 0
    ensures WeightOf(ONE_SHARE, "a", 0, end) == 1.0
  {
    OneBucket();
    OneBucketWeighs(ONE_SHARE.buckets, Rollup.Query(ONE_SHARE.workers, Rollup.OfAccount("a"), 0, end));
  }

  lemma OneBucketWeighs(buckets: Rollup.Buckets, q: Rollup.Query)
    requires buckets == [Entry(Rollup.BucketKey(0, 0, "x"), Rollup.Tally(1, 0, 0, 1.0, 0))]
    requires Rollup.Selects(q, buckets[0].key)
    ensures Rollup.Total(buckets, q).difficulty == 1.0
  {
    assert buckets[1..] == [] && Rollup.Total([], q) == Rollup.NONE;
  }

  lemma OneBucket()
    ensures ONE_SHARE.buckets == [Entry(Rollup.BucketKey(0, 0, "x"), Rollup.Tally(1, 0, 0, 1.0, 0))]
  {
    var log := [Rollup.Share(0, "x", Accepted, 1.0, 0, None)];
    assert log[..0] == [] && Rollup.Stored(log[..0]) == [];
  }

  lemma FirstIsRecorded(r: PlannedRound)
    ensures AfterRecord([], r) == [r]
  {}

  lemma NothingYet()
    ensures Carry([], "a") == 0
  {}

  lemma RecordedInTurn(r: PlannedRound, q: PlannedRound, w: PlannedRound)
    requires AfterRecord(AfterRecord([r], q), w) == [r, q, w]
    ensures RecordedOf([r, q, w]) == [r, q, w]
  {
    hide AfterRecord;
    assert [r][..0] == [] && [r, q][..1] == [r] && [r, q, w][..2] == [r, q];
    assert RecordedOf([]) == [];
    FirstIsRecorded(r);
    assert RecordedOf([r]) == [r];
    assert RecordedOf([r, q]) == AfterRecord([r], q);
  }

  lemma Totals(r: PlannedRound, q: PlannedRound, w: PlannedRound)
    ensures TotalReceived([r, q, w]) == r.totalZat + q.totalZat + w.totalZat
    ensures TotalPaid([r, q, w]) == SumPaid(r.entries) + SumPaid(q.entries) + SumPaid(w.entries)
  {
    hide SumPaid;
    assert [r][..0] == [] && [r, q][..1] == [r] && [r, q, w][..2] == [r, q];
    assert TotalReceived([]) == 0 && TotalPaid([]) == 0;
    assert TotalReceived([r]) == r.totalZat && TotalPaid([r]) == SumPaid(r.entries);
  }

  lemma OnePaid(e: PlannedEntry)
    ensures SumPaid([e]) == e.amountZat
  {
    assert [e][..0] == [] && SumPaid([]) == 0;
  }

  lemma FirstCarry(r: PlannedRound, e: PlannedEntry)
    requires Balanced(r) && r.entries == [e] && e.accountId == "a"
    ensures Carry([r], "a") == e.carriedOutZat - e.carriedInZat
  {
    assert Carry([], "a") == 0 && [] + [r] == [r];
    RecordMovesCarry([], r, e);
  }

  /** Such a history exists: five zatoshi come in, ten go out, and the account owes five. */
  lemma FiveInTenOut() returns (rounds: seq<PlannedRound>)
    ensures AllPlanned(rounds) && RecordedOf(rounds) == rounds
    ensures TotalReceived(rounds) == 5 && TotalPaid(rounds) == 10 && Carry(rounds, "a") == -5
    ensures !Fresh(rounds, "a")
  {
    hide Plan, Carry, Balanced, TotalReceived, TotalPaid, SumPaid, WeightOf, AfterRecord, Fresh, RecordedOf, ValidDb;
    OneShareWeighs(300);
    NothingYet();
    var e := OnePlan(ONE_SHARE, BELOW_MINIMUM);
    var r := Plan(ONE_SHARE, BELOW_MINIMUM).value;
    PlanIsBalanced(ONE_SHARE, BELOW_MINIMUM);
    PlanReadsLedger(ONE_SHARE, BELOW_MINIMUM, e);
    FirstCarry(r, e);
    var db := ONE_SHARE.(rounds := [r]);
    var f := OnePlan(db, NEXT_WINDOW);
    var g := OnePlan(db, WINDOW_AFTER);
    var q, w := Plan(db, NEXT_WINDOW).value, Plan(db, WINDOW_AFTER).value;
    PlanNames(ONE_SHARE, BELOW_MINIMUM);
    PlanNames(db, NEXT_WINDOW);
    PlanNames(db, WINDOW_AFTER);
    TwoPlansPayOneBalanceTwice(db, NEXT_WINDOW, WINDOW_AFTER, f, g);
    rounds := [r, q, w];
    assert [r] + [q, w] == rounds;
    RecordedInTurn(r, q, w);
    Totals(r, q, w);
    OnePaid(e);
    OnePaid(f);
    OnePaid(g);
    if Fresh(rounds, "a") {
      CarryIsLastOut(rounds, "a");
      assert false;
    }
  }

  lemma PlanNames(db: Db, request: Request)
    requires ValidDb(db) && Plan(db, request).Ok?
    ensures var r := Plan(db, request).value;
            && r.periodStart == request.periodStart && r.periodEnd == request.periodEnd
            && r.totalZat == request.totalZat && Planned(r)
  {
    hide Subjects, PlanEntries, Split;
  }
}
