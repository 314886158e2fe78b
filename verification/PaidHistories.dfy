/** Histories of shares and rounds, made and recorded in full: overlapping windows, a share counted too
    late, and two accounts whose rigs share a login. */
module PaidHistories {
  import opened Wrappers
  import opened Shares
  import opened Ledger
  import opened LedgerProperties
  import opened PaidWork
  import Login
  import Rollup
  import Session
  import StalePlans
  import Stratum
  import W = WorkerRows

  /** Planning and recording at once puts the plan on record, if its window is free. */
  lemma PlanThenRecord(algo: string, es: seq<Event>, request: Request) returns (after: seq<Event>)
    requires Plan(TablesOf(algo, es), request).Ok?
    requires !Recorded(RoundsOf(algo, es), request.periodStart, request.periodEnd)
    ensures after == es + [Plans(request), Records(|es|)] && Adds(algo, after)
    ensures TablesOf(algo, after)
         == TablesOf(algo, es).(rounds := RoundsOf(algo, es) + [Plan(TablesOf(algo, es), request).value])
  {
    hide Plan, Recorded, TablesOf, RoundsOf, Adds, RunOf, AccountsOf;
    var planned := es + [Plans(request)];
    after := planned + [Records(|es|)];
    assert after == es + [Plans(request), Records(|es|)];
    OtherEvent(algo, es, Plans(request));
    RecordingAdds(algo, es, request, after);
    assert after[..|planned|] == planned;
    RoundsGrow(algo, after);
    Bookkeeping(planned, Records(|es|));
    TablesAre(algo, es, after);
  }

  lemma Bookkeeping(es: seq<Event>, e: Event)
    requires e.Plans? || e.Records?
    ensures RunOf(es + [e]) == RunOf(es) && AccountsOf(es + [e]) == AccountsOf(es)
  {
    assert (es + [e])[..|es|] == es;
  }

  lemma OtherEvent(algo: string, es: seq<Event>, e: Event)
    requires e.Plans?
    ensures RunOf(es + [e]) == RunOf(es) && AccountsOf(es + [e]) == AccountsOf(es)
    ensures RoundsOf(algo, es + [e]) == RoundsOf(algo, es)
  {
    hide Plan, TablesOf;
    assert (es + [e])[..|es|] == es;
    Bookkeeping(es, e);
  }

  lemma TablesAre(algo: string, es: seq<Event>, after: seq<Event>)
    requires RunOf(after) == RunOf(es) && AccountsOf(after) == AccountsOf(es)
    ensures TablesOf(algo, after) == TablesOf(algo, es).(rounds := RoundsOf(algo, after))
  {
    hide RoundsOf, W.Play;
  }

  lemma RecordingAdds(algo: string, es: seq<Event>, request: Request, after: seq<Event>)
    requires Plan(TablesOf(algo, es), request).Ok?
    requires !Recorded(RoundsOf(algo, es), request.periodStart, request.periodEnd)
    requires after == es + [Plans(request), Records(|es|)]
    ensures Adds(algo, after) && Added(algo, after) == Plan(TablesOf(algo, es), request).value
    ensures RoundsOf(algo, after[..|after| - 1]) == RoundsOf(algo, es)
  {
    hide Plan, Recorded, TablesOf, RoundsOf;
    assert after[..|es|] == es && after[..|after| - 1] == es + [Plans(request)];
    OtherEvent(algo, es, Plans(request));
    PlanHasWindow(TablesOf(algo, es), request);
  }

  lemma PlanHasWindow(db: Db, request: Request)
    requires Plan(db, request).Ok?
    ensures var r := Plan(db, request).value;
            r.periodStart == request.periodStart && r.periodEnd == request.periodEnd
  {
    hide Subjects, PlanEntries;
  }

  function ShareAt(at: int): Event {
    var identity := Stratum.WorkerIdentity("a", "rig", "a.rig");
    Hook(W.Reported(Session.Credit("1", Session.Work(identity, None, 1.0, at), Accepted)))
  }

  const OPENING := [AccountAdded(Account("a", "address")), ShareAt(0)]

  /** The account and its one share of second 0, in the tables. */
  lemma OpeningTables()
    ensures TablesOf("x", OPENING) == StalePlans.ONE_SHARE && RoundsOf("x", OPENING) == []
    ensures AccountsOf(OPENING) == [Account("a", "address")]
  {
    var first := OPENING[..1];
    assert first[..0] == [] && OPENING[..1] == first;
    hide W.Play, Plan;
    NothingRecorded("x");
    RoundsGrow("x", first);
    RoundsGrow("x", OPENING);
    OpeningRun();
    assert AccountsOf(first[..0]) == [];
    assert [] + [Account("a", "address")] == [Account("a", "address")];
    assert AccountsOf(first) == [Account("a", "address")];
  }

  lemma OpeningRun()
    ensures RunOf(OPENING) == [OPENING[1].hook]
    ensures var hooks := W.Play("x", RunOf(OPENING));
            hooks.workers == StalePlans.ONE_SHARE.workers && hooks.buckets == StalePlans.ONE_SHARE.buckets
  {
    hide W.Play;
    var first := OPENING[..1];
    assert first[..0] == [] && OPENING[..1] == first;
    assert RunOf(first[..0]) == [] && RunOf(first) == [];
    assert [] + [OPENING[1].hook] == [OPENING[1].hook];
    OneReport(OPENING[1].hook.credit);
  }

  lemma OneReport(credit: Session.Credit)
    requires W.WorkerOf(credit.work.identity) == Rollup.Worker("a", "rig")
    requires credit.outcome == Accepted && credit.work.difficulty == 1.0 && credit.work.atSeconds == 0
    ensures var hooks := W.Play("x", [W.Reported(credit)]);
            hooks.workers == StalePlans.ONE_SHARE.workers && hooks.buckets == StalePlans.ONE_SHARE.buckets
  {
    var run: seq<W.Event>, log := [W.Reported(credit)], [Rollup.Share(0, "x", Accepted, 1.0, 0, None)];
    assert run[..0] == [] && log[..0] == [];
    hide Rollup.AfterShare;
    assert W.Play("x", run[..0]) == W.INITIAL;
    assert W.Play("x", run) == W.AfterReport(W.INITIAL, "x", credit);
    assert Rollup.Stored(log[..0]) == [];
    assert [] + [Rollup.Worker("a", "rig")] == [Rollup.Worker("a", "rig")];
  }

  const FIRST := Request(0, 300, 5, _ => 0, 1)
  const WIDER := Request(0, 600, 5, _ => 0, 1)

  /** The opening and one round of five zatoshi for the first 300 seconds, all for account a. */
  lemma OneRound() returns (es: seq<Event>, r: PlannedRound)
    ensures es == OPENING + [Plans(FIRST), Records(2)] && Adds("x", es) && Added("x", es) == r
    ensures RoundsOf("x", es) == [r] && TablesOf("x", es) == StalePlans.ONE_SHARE.(rounds := [r])
    ensures r.periodStart == 0 && r.periodEnd == 300 && SumPaid(r.entries) == 5 && WeighedIn(r, "a") == 1.0
    ensures Carry([r], "a") == 0
  {
    hide Plan, TablesOf, RoundsOf, Recorded, SumPaid, Carry, WeightOf, Adds, Added, EntryOf;
    OpeningTables();
    StalePlans.OneShareWeighs(300);
    StalePlans.NothingYet();
    var e := StalePlans.OnePlan(StalePlans.ONE_SHARE, FIRST);
    r := Plan(StalePlans.ONE_SHARE, FIRST).value;
    NotRecorded([], FIRST.periodStart, FIRST.periodEnd);
    es := PlanThenRecord("x", OPENING, FIRST);
    PlanHasWindow(StalePlans.ONE_SHARE, FIRST);
    assert [] + [r] == [r];
    RoundsInTables("x", es);
    PaysOne(StalePlans.ONE_SHARE, FIRST, e);
    PlanIsBalanced(StalePlans.ONE_SHARE, FIRST);
    PlanReadsLedger(StalePlans.ONE_SHARE, FIRST, e);
    StalePlans.FirstCarry(r, e);
    AddedIsLast("x", es);
  }

  lemma NotRecorded(rounds: seq<PlannedRound>, start: int, end: int)
    requires forall i :: 0 <= i < |rounds| ==> rounds[i].periodEnd != end
    ensures !Recorded(rounds, start, end)
  {}

  lemma RoundsInTables(algo: string, es: seq<Event>)
    ensures TablesOf(algo, es).rounds == RoundsOf(algo, es)
  {}

  lemma AddedIsLast(algo: string, es: seq<Event>)
    requires es != [] && Adds(algo, es)
    ensures RoundsOf(algo, es) != [] && Added(algo, es) == RoundsOf(algo, es)[|RoundsOf(algo, es)| - 1]
  {
    hide Adds, Added, RoundsOf;
    RoundsGrow(algo, es);
  }

  lemma PaysOne(db: Db, request: Request, e: PlannedEntry)
    requires ValidDb(db) && Plan(db, request).Ok? && Plan(db, request).value.entries == [e] && e.accountId == "a"
    ensures SumPaid(Plan(db, request).value.entries) == e.amountZat
    ensures WeighedIn(Plan(db, request).value, "a") == WeightOf(db, "a", request.periodStart, request.periodEnd)
  {
    hide Plan, WeightOf, SumPaid;
    StalePlans.OnePaid(e);
    PlanPaysTheAccount(db, request, e);
  }

  /** Windows that overlap, planned and recorded one after the other: the one share of second 0 is weighed
      twice, and its account put down for five zatoshi each time. */
  lemma OverlapWeighsTwice() returns (es: seq<Event>)
    ensures IsShare(es, 1) && StampOf(es[1]) == 0 && UserOf(es[1]) == "a"
    ensures TimesWeighed("x", es, 1, "a", 0) == 2 && !Apart(RoundsOf("x", es))
    ensures PaidWeight(RoundsOf("x", es), "a") == 2.0 && TotalPaid(RoundsOf("x", es)) == 10
  {
    hide Plan, TablesOf, RoundsOf, Recorded, SumPaid, Carry, WeightOf, Adds, Added, EntryOf, TimesWeighed, InTime;
    hide CoverCount, PaidWeight, TotalPaid;
    var one, r := OneRound();
    var db := StalePlans.ONE_SHARE.(rounds := [r]);
    StalePlans.OneShareWeighs(600);
    SameWeight(db, 0, 600);
    var e := StalePlans.OnePlan(db, WIDER);
    var q := Plan(db, WIDER).value;
    NotRecorded([r], WIDER.periodStart, WIDER.periodEnd);
    es := PlanThenRecord("x", one, WIDER);
    PlanHasWindow(db, WIDER);
    assert [r] + [q] == [r, q];
    RoundsInTables("x", es);
    PaysOne(db, WIDER, e);
    TwoRounds(r, q);
    BothInTime(es);
    EarlyIsWeighedByAll("x", es, 1, "a", 0);
  }

  lemma SameWeight(db: Db, start: int, end: int)
    requires db == StalePlans.ONE_SHARE.(rounds := db.rounds)
    ensures WeightOf(db, "a", start, end) == WeightOf(StalePlans.ONE_SHARE, "a", start, end)
  {}

  lemma TwoRounds(r: PlannedRound, q: PlannedRound)
    ensures PaidWeight([r, q], "a") == WeighedIn(r, "a") + WeighedIn(q, "a")
    ensures TotalPaid([r, q]) == SumPaid(r.entries) + SumPaid(q.entries)
    ensures CoversAt(r, 0) && CoversAt(q, 0) ==> CoverCount([r, q], 0) == 2 && !Apart([r, q])
  {
    hide WeighedIn, SumPaid;
    assert [r][..0] == [] && [r, q][..1] == [r];
    assert PaidWeight([r], "a") == WeighedIn(r, "a") && TotalPaid([r]) == SumPaid(r.entries);
    if CoversAt(r, 0) && CoversAt(q, 0) {
      CoveredByTwo([r, q], 0, 1, 0);
      assert CoverCount([r], 0) <= 1;
    }
  }

  /** In that history both rounds are planned when the account and its share are there. */
  lemma BothInTime(es: seq<Event>)
    requires es == OPENING + [Plans(FIRST), Records(2), Plans(WIDER), Records(4)]
    ensures BeforeAll("x", es, 1, "a")
  {
    hide Plan, TablesOf, RoundsOf, Recorded, AccountsOf;
    forall n | 0 < n <= |es| && Adds("x", es[..n])
      ensures InTime("x", es[..n], 1, "a")
    {
      var m := es[..n][n - 1].made;
      assert n == 4 || n == 6;
      assert m == 2 || m == 4;
      assert es[..n][..m] == if m == 2 then OPENING else OPENING + [Plans(FIRST), Records(2)];
      OpeningTables();
      assert OPENING + [Plans(FIRST)] + [Records(2)] == OPENING + [Plans(FIRST), Records(2)];
      Bookkeeping(OPENING, Plans(FIRST));
      Bookkeeping(OPENING + [Plans(FIRST)], Records(2));
      assert [Account("a", "address")][0].id == "a";
    }
  }

  /** A share of second 299, counted when the round of the first 300 seconds is on record, is weighed by
      none, whatever follows, as long as windows stay apart. */
  lemma LateShareIsNeverWeighed(more: seq<Event>) returns (es: seq<Event>)
    ensures |es| == 5 && es[4] == ShareAt(299) && IsLost("x", es, "a", 4)
    ensures Apart(RoundsOf("x", es + more)) ==> TimesWeighed("x", es + more, 4, "a", 299) == 0
  {
    hide TablesOf, RoundsOf, Adds, Added, TimesWeighed, TimesMissed, CoverCount, Apart, SumPaid, WeighedIn, Carry;
    var one, r := OneRound();
    es := one + [ShareAt(299)];
    assert es[..4] == one && (es + more)[..4] == one;
    OneCovers(r);
    WeighedOrMissed("x", one, 4, "a", 299);
    LateIsUnweighed("x", one, 4, "a", 299);
    MissedGrows("x", es, 4, 4, "a", 299);
    if Apart(RoundsOf("x", es + more)) {
      LateIsNeverWeighed("x", es + more, 4, 4, "a", 299);
    }
  }

  lemma OneCovers(r: PlannedRound)
    requires CoversAt(r, 299)
    ensures CoverCount([r], 299) == 1
  {
    assert [r][..0] == [] && CoverCount([], 299) == 0;
  }

  // Accounts "a" and "a.b". A rig of a.b is named, then one of a, whose login is spelled the same, has a
  // share accepted, and the first 300 seconds are planned.

  const FREE := Request(0, 300, 0, _ => 0, 1)

  lemma ClashingHooks()
    ensures Login.Absorbs("a", "a.b")
    ensures var hooks := W.Play("x", W.Mixed("a", "a.b", Accepted));
            && hooks.workers == [Rollup.Worker("a.b", "rig")]
            && hooks.buckets == StalePlans.ONE_SHARE.buckets
    ensures W.MinedBy(W.Mixed("a", "a.b", Accepted), "a", 0, 300) == 1.0
  {
    assert Login.Absorbs("a", "a.b");
    Login.JoinAbsorbed("a", "a.b", "rig");
    var run := W.Mixed("a", "a.b", Accepted);
    var first := run[..1];
    assert first[..0] == [] && W.MinedBy(first[..0], "a", 0, 300) == 0.0 && W.MinedBy(first, "a", 0, 300) == 0.0;
    assert W.Play("x", first[..0]) == W.INITIAL;
    assert [] + [Rollup.Worker("a.b", "rig")] == [Rollup.Worker("a.b", "rig")];
    var named := W.Play("x", first);
    assert named == W.AfterIdFor(W.INITIAL, run[0].identity);
    var log := [Rollup.Share(0, "x", Accepted, 1.0, 0, None)];
    assert log[..0] == [] && Rollup.Stored(log[..0]) == [];
    hide Rollup.AfterShare;
    assert W.Play("x", run) == W.AfterReport(named, "x", run[1].credit);
  }

  const A := Account("a", "address")
  const A_B := Account("a.b", "other")

  lemma RunOfFour(a: Account, b: Account, first: W.Event, second: W.Event)
    requires a.id != b.id
    ensures var es := [AccountAdded(a), AccountAdded(b), Hook(first), Hook(second)];
            RunOf(es) == [first, second] && AccountsOf(es) == [a, b] && RoundsOf("x", es) == []
  {
    hide Plan, TablesOf;
    var es := [AccountAdded(a), AccountAdded(b), Hook(first), Hook(second)];
    var one, two, three := es[..1], es[..2], es[..3];
    assert one[..0] == [] && two[..1] == one && three[..2] == two && es[..3] == three;
    assert RunOf(one[..0]) == [] && AccountsOf(one[..0]) == [] && RoundsOf("x", one[..0]) == [];
    assert [] + [a] == [a] && [a] + [b] == [a, b];
    assert [] + [first] == [first] && [first] + [second] == [first, second];
    assert AccountsOf(one) == [a] && AccountsOf(two) == [a, b] && AccountsOf(three) == [a, b];
    assert RunOf(one) == [] && RunOf(two) == [];
    assert RunOf(three) == [first];
    assert RoundsOf("x", one) == [] && RoundsOf("x", two) == [] && RoundsOf("x", three) == [];
  }

  /** What the tables of those four events weigh, account by account. */
  lemma ClashingWeights(db: Db)
    requires Login.Absorbs("a", "a.b")
    requires var hooks := W.Play("x", W.Mixed("a", "a.b", Accepted));
             db.workers == hooks.workers && db.buckets == hooks.buckets
    requires db.accounts == [A, A_B]
    ensures ValidDb(db) && OnRecord(db.accounts, "a") && OnRecord(db.accounts, "a.b")
    ensures WeightOf(db, "a", 0, 300) == 0.0 && WeightOf(db, "a.b", 0, 300) == 1.0
  {
    hide W.Play, W.Mixed;
    ClashingHooks();
    StalePlans.OneBucket();
    assert db.accounts[0].id == "a" && db.accounts[1].id == "a.b";
    assert db.buckets[1..] == [];
    var q := Rollup.Query(db.workers, Rollup.OfAccount("a.b"), 0, 300);
    StalePlans.OneBucketWeighs(db.buckets, q);
    var none := Rollup.Query(db.workers, Rollup.OfAccount("a"), 0, 300);
    assert Rollup.Total([], none) == Rollup.NONE && !Rollup.Selects(none, db.buckets[0].key);
  }

  /** Names that absorb one another must be kept apart: there a plan over the tables weighs the other
      account, though the share was accepted for a. */
  lemma ClashIsPaidToTheOther() returns (es: seq<Event>)
    ensures PaidWeight(RoundsOf("x", es), "a") == 0.0 && PaidWeight(RoundsOf("x", es), "a.b") == 1.0
    ensures MinedInWindows(RoundsOf("x", es), RunOf(es), "a") == 1.0
  {
    hide Plan, TablesOf, RoundsOf, Recorded, WeightOf, WeighedIn, ValidDb, OnRecord, Adds, Added, W.Play, W.Mixed;
    ClashingHooks();
    var run := W.Mixed("a", "a.b", Accepted);
    assert |run| == 2 && run == [run[0], run[1]] by {
      MixedIsTwo();
    }
    var before := [AccountAdded(A), AccountAdded(A_B), Hook(run[0]), Hook(run[1])];
    RunOfFour(A, A_B, run[0], run[1]);
    var db := TablesOf("x", before);
    TablesHold("x", before);
    ClashingWeights(db);
    FreePlanIsMade(db, FREE);
    NotRecorded([], FREE.periodStart, FREE.periodEnd);
    es := PlanThenRecord("x", before, FREE);
    RoundsInTables("x", es);
    var r := Plan(db, FREE).value;
    assert [] + [r] == [r];
    PlanWeighsTheTables(db, FREE, "a");
    PlanWeighsTheTables(db, FREE, "a.b");
    PlanHasWindow(db, FREE);
    assert before + [Plans(FREE)] + [Records(4)] == es;
    Bookkeeping(before, Plans(FREE));
    Bookkeeping(before + [Plans(FREE)], Records(4));
    OneRoundOnly(r, run, "a");
    OneRoundOnly(r, run, "a.b");
  }

  lemma MixedIsTwo()
    requires Login.Absorbs("a", "a.b")
    ensures |W.Mixed("a", "a.b", Accepted)| == 2
  {}

  lemma TablesHold(algo: string, es: seq<Event>)
    ensures var db, hooks := TablesOf(algo, es), W.Play(algo, RunOf(es));
            && db.accounts == AccountsOf(es) && db.rounds == RoundsOf(algo, es)
            && db.workers == hooks.workers && db.buckets == hooks.buckets
  {
    hide W.Play, RoundsOf;
  }

  lemma OneRoundOnly(r: PlannedRound, run: seq<W.Event>, id: string)
    ensures PaidWeight([r], id) == WeighedIn(r, id)
    ensures MinedInWindows([r], run, id) == W.MinedBy(run, id, r.periodStart, r.periodEnd)
  {
    hide WeighedIn, W.MinedBy;
    assert [r][..0] == [];
  }
}
