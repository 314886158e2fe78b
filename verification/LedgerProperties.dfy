/** No zatoshi is made or lost, over one round and over any history of rounds. */
module LedgerProperties {
  import opened Wrappers
  import opened Apportionment
  import opened Ledger
  import Rollup

  ghost predicate DistinctIds(accounts: seq<Account>) {
    forall i, j :: 0 <= i < j < |accounts| ==> accounts[i].id != accounts[j].id
  }

  /** Account ids are a primary key. That no bucket weighs less than nothing is no constraint of the
      tables: `RecordedDbIsValid` derives it from what is recorded in them. */
  ghost predicate ValidDb(db: Db) {
    DistinctIds(db.accounts) && Rollup.NoRowBelowZero(db.buckets)
  }

  /** Tables filled by recording shares of positive difficulty are valid. */
  lemma RecordedDbIsValid(db: Db, log: seq<Rollup.Share>)
    requires DistinctIds(db.accounts) && db.buckets == Rollup.Stored(log) && Rollup.PositiveDifficulties(log)
    ensures ValidDb(db)
  {
    Rollup.RowsStayAboveZero(log);
  }

  function SumGross(entries: seq<PlannedEntry>): int {
    if entries == [] then 0 else SumGross(entries[..|entries| - 1]) + entries[|entries| - 1].grossZat
  }

  function SumPaid(entries: seq<PlannedEntry>): int {
    if entries == [] then 0 else SumPaid(entries[..|entries| - 1]) + entries[|entries| - 1].amountZat
  }

  function SumIn(entries: seq<PlannedEntry>): int {
    if entries == [] then 0 else SumIn(entries[..|entries| - 1]) + entries[|entries| - 1].carriedInZat
  }

  function SumOut(entries: seq<PlannedEntry>): int {
    if entries == [] then 0 else SumOut(entries[..|entries| - 1]) + entries[|entries| - 1].carriedOutZat
  }

  // ---- one plan ----------------------------------------------------------------

  lemma {:induction false} WeightIsNotNegative(buckets: Rollup.Buckets, q: Rollup.Query)
    requires Rollup.NoRowBelowZero(buckets)
    ensures Rollup.Total(buckets, q).difficulty >= 0.0
  {
    if buckets != [] {
      WeightIsNotNegative(buckets[1..], q);
    }
  }

  lemma {:induction false} SubjectsShape(db: Db, accounts: seq<Account>, start: int, end: int)
    requires ValidDb(db)
    ensures forall subject :: subject in Subjects(db, accounts, start, end) ==>
              && subject.weight >= 0.0 && subject.account in accounts
              && subject == SubjectOf(db, subject.account, start, end)
  {
    if accounts != [] {
      hide Carry, WeightOf;
      var n := |accounts| - 1;
      SubjectsShape(db, accounts[..n], start, end);
      WeightOfIsNotNegative(db, accounts[n].id, start, end);
      assert accounts == accounts[..n] + [accounts[n]];
    }
  }

  lemma WeightOfIsNotNegative(db: Db, id: string, start: int, end: int)
    requires ValidDb(db)
    ensures WeightOf(db, id, start, end) >= 0.0
  {
    WeightIsNotNegative(db.buckets, Rollup.Query(db.workers, Rollup.OfAccount(id), start, end));
  }

  ghost predicate DistinctSubjects(subjects: seq<Subject>) {
    forall i, j :: 0 <= i < j < |subjects| ==> subjects[i].account.id != subjects[j].account.id
  }

  lemma {:induction false} SubjectsAreDistinct(db: Db, accounts: seq<Account>, start: int, end: int)
    requires ValidDb(db) && DistinctIds(accounts)
    ensures DistinctSubjects(Subjects(db, accounts, start, end))
  {
    if accounts != [] {
      hide WeightOf, Carry;
      var n := |accounts| - 1;
      var before := Subjects(db, accounts[..n], start, end);
      SubjectsAreDistinct(db, accounts[..n], start, end);
      SubjectsShape(db, accounts[..n], start, end);
      forall i | 0 <= i < |before|
        ensures before[i].account.id != accounts[n].id
      {
        assert before[i] in before;
        var k :| 0 <= k < n && accounts[k] == before[i].account;
      }
      var subjects := Subjects(db, accounts, start, end);
      assert subjects == before || subjects == before + [SubjectOf(db, accounts[n], start, end)];
      forall i, j | 0 <= i < j < |subjects|
        ensures subjects[i].account.id != subjects[j].account.id
      {
        assert subjects[i] == before[i];
        if j < |before| {
          assert subjects[j] == before[j];
        } else {
          assert subjects[j].account == accounts[n];
        }
      }
    }
  }

  /** An account with work in the window or a balance carried into it is always in the round. */
  lemma {:induction false} SubjectsAreComplete(db: Db, accounts: seq<Account>, start: int, end: int, account: Account)
    requires account in accounts
    requires WeightOf(db, account.id, start, end) > 0.0 || Carry(db.rounds, account.id) != 0
    ensures SubjectOf(db, account, start, end) in Subjects(db, accounts, start, end)
  {
    var n := |accounts| - 1;
    if accounts[n] != account {
      assert account in accounts[..n];
      SubjectsAreComplete(db, accounts[..n], start, end, account);
    }
  }

  lemma {:induction false} EntriesMatch(subjects: seq<Subject>, gross: seq<int>, request: Request)
    requires |gross| == |subjects| && PlanEntries(subjects, gross, request).Ok?
    ensures var entries := PlanEntries(subjects, gross, request).value;
            && |entries| == |subjects|
            && forall i :: 0 <= i < |subjects| ==>
                 && FeeIsReadable(request.feeBpsFor(subjects[i].account.id))
                 && entries[i] == EntryFor(subjects[i], gross[i],
                                           request.feeBpsFor(subjects[i].account.id), request.minPayoutZat)
  {
    if subjects != [] {
      hide EntryFor;
      var n := |subjects| - 1;
      EntriesMatch(subjects[..n], gross[..n], request);
    }
  }

  lemma {:induction false} GrossAddsUp(entries: seq<PlannedEntry>, gross: seq<int>)
    requires |entries| == |gross| && forall i :: 0 <= i < |gross| ==> entries[i].grossZat == gross[i]
    ensures SumGross(entries) == Sum(gross)
  {
    if entries != [] {
      GrossAddsUp(entries[..|entries| - 1], gross[..|gross| - 1]);
    }
  }

  /** What every entry of a plan satisfies by itself. */
  predicate EntryBalances(e: PlannedEntry) {
    && e.amountZat + e.feeZat + e.carriedOutZat == e.grossZat + e.carriedInZat
    && (e.amountZat == 0 || e.carriedOutZat == 0)
    && e.amountZat >= 0
    && (e.grossZat >= 0 ==> 0 <= e.feeZat <= e.grossZat)
  }

  lemma EntryIsBalanced(subject: Subject, grossZat: int, bps: int, minPayoutZat: int)
    requires FeeIsReadable(bps)
    ensures EntryBalances(EntryFor(subject, grossZat, bps, minPayoutZat))
  {
    if grossZat >= 0 {
      assert 0 <= grossZat * bps <= grossZat * 10_000;
    }
  }

  lemma {:induction false} EntriesBalance(entries: seq<PlannedEntry>)
    requires forall i :: 0 <= i < |entries| ==> EntryBalances(entries[i])
    ensures SumPaid(entries) + SumFees(entries) + SumOut(entries) == SumGross(entries) + SumIn(entries)
  {
    if entries != [] {
      EntriesBalance(entries[..|entries| - 1]);
    }
  }

  lemma {:induction false} SumOfWeights(subjects: seq<Subject>)
    requires forall i :: 0 <= i < |subjects| ==> subjects[i].weight >= 0.0
    ensures NonNegative(WeightsOf(subjects)) && SumReal(WeightsOf(subjects)) >= 0.0
  {
    if subjects != [] {
      SumOfWeights(subjects[..|subjects| - 1]);
    }
  }

  /** What a plan promises of the round it returns. */
  ghost predicate Balanced(r: PlannedRound) {
    && SumGross(r.entries) == r.totalZat
    && r.feeZat == SumFees(r.entries) && r.distributableZat == r.totalZat - r.feeZat
    && SumPaid(r.entries) + SumOut(r.entries) == r.distributableZat + SumIn(r.entries)
    && (forall i :: 0 <= i < |r.entries| ==> EntryBalances(r.entries[i]))
    && (forall i, j :: 0 <= i < j < |r.entries| ==> r.entries[i].accountId != r.entries[j].accountId)
  }

  /** The parts of an accepted plan, opened up. */
  lemma PlanOpens(db: Db, request: Request) returns (subjects: seq<Subject>, gross: seq<int>)
    requires ValidDb(db) && Plan(db, request).Ok?
    ensures subjects == Subjects(db, db.accounts, request.periodStart, request.periodEnd)
    ensures |gross| == |subjects| && Sum(gross) == request.totalZat && request.totalZat >= 0
    ensures forall i :: 0 <= i < |subjects| ==> subjects[i].weight >= 0.0
    ensures gross == Split(request.totalZat, WeightsOf(subjects), SumReal(WeightsOf(subjects)))
    ensures request.totalZat > 0 ==> SumReal(WeightsOf(subjects)) > 0.0
    ensures var r := Plan(db, request).value;
            && PlanEntries(subjects, gross, request) == Ok(r.entries)
            && r.totalZat == request.totalZat && r.feeZat == SumFees(r.entries)
            && r.distributableZat == r.totalZat - r.feeZat
  {
    hide Subjects, Split;
    subjects := Subjects(db, db.accounts, request.periodStart, request.periodEnd);
    SubjectsShape(db, db.accounts, request.periodStart, request.periodEnd);
    var weights := WeightsOf(subjects);
    gross := Split(request.totalZat, weights, SumReal(weights));
    forall i | 0 <= i < |subjects|
      ensures subjects[i].weight >= 0.0
    {
      assert subjects[i] in subjects;
    }
    SumOfWeights(subjects);
    SplitIsExact(request.totalZat, weights, SumReal(weights));
  }

  /** Where an entry of an accepted plan comes from: one subject, its share of the split, its fee. */
  lemma EntryComesFrom(db: Db, request: Request, e: PlannedEntry)
    returns (subjects: seq<Subject>, i: nat)
    requires ValidDb(db) && Plan(db, request).Ok? && e in Plan(db, request).value.entries
    ensures request.totalZat >= 0
    ensures i < |subjects| && subjects[i] in Subjects(db, db.accounts, request.periodStart, request.periodEnd)
    ensures forall k :: 0 <= k < |subjects| ==> subjects[k].weight >= 0.0
    ensures request.totalZat > 0 ==> SumReal(WeightsOf(subjects)) > 0.0
    ensures var gross := Split(request.totalZat, WeightsOf(subjects), SumReal(WeightsOf(subjects)));
            && |gross| == |subjects|
            && e == EntryFor(subjects[i], gross[i],
                             request.feeBpsFor(subjects[i].account.id), request.minPayoutZat)
  {
    hide EntryFor, Split, Subjects, PlanEntries, Plan;
    var gross;
    subjects, gross := PlanOpens(db, request);
    var entries := Plan(db, request).value.entries;
    i :| i < |entries| && entries[i] == e;
    EntryAt(subjects, gross, request, i);
  }

  lemma EntryAt(subjects: seq<Subject>, gross: seq<int>, request: Request, i: nat)
    requires |gross| == |subjects| && PlanEntries(subjects, gross, request).Ok?
    requires i < |PlanEntries(subjects, gross, request).value|
    ensures i < |subjects|
         && PlanEntries(subjects, gross, request).value[i]
         == EntryFor(subjects[i], gross[i], request.feeBpsFor(subjects[i].account.id), request.minPayoutZat)
  {
    EntriesMatch(subjects, gross, request);
  }

  /** An accepted plan distributes exactly the total: gross shares add up to it, and what is
      paid and carried out is what could be distributed and what was carried in. */
  lemma PlanIsBalanced(db: Db, request: Request)
    requires ValidDb(db) && Plan(db, request).Ok?
    ensures Balanced(Plan(db, request).value)
  {
    hide Plan, Subjects, PlanEntries, Split, EntryBalances;
    var subjects, gross := PlanOpens(db, request);
    var entries := Plan(db, request).value.entries;
    SubjectsAreDistinct(db, db.accounts, request.periodStart, request.periodEnd);
    EachEntryBalances(subjects, gross, request);
    EntriesName(subjects, gross, request);
    GrossAddsUp(entries, gross);
    EntriesBalance(entries);
  }

  lemma EntriesName(subjects: seq<Subject>, gross: seq<int>, request: Request)
    requires |gross| == |subjects| && PlanEntries(subjects, gross, request).Ok?
    ensures var entries := PlanEntries(subjects, gross, request).value;
            && |entries| == |subjects|
            && forall i :: 0 <= i < |entries| ==>
                 entries[i].accountId == subjects[i].account.id && entries[i].grossZat == gross[i]
  {
    EntriesMatch(subjects, gross, request);
    hide PlanEntries;
  }

  lemma EachEntryBalances(subjects: seq<Subject>, gross: seq<int>, request: Request)
    requires |gross| == |subjects| && PlanEntries(subjects, gross, request).Ok?
    ensures var entries := PlanEntries(subjects, gross, request).value;
            forall i :: 0 <= i < |entries| ==> EntryBalances(entries[i])
  {
    EntriesMatch(subjects, gross, request);
    hide EntryFor, EntryBalances, PlanEntries;
    forall i | 0 <= i < |subjects|
      ensures EntryBalances(EntryFor(subjects[i], gross[i],
                            request.feeBpsFor(subjects[i].account.id), request.minPayoutZat))
    {
      EntryIsBalanced(subjects[i], gross[i], request.feeBpsFor(subjects[i].account.id), request.minPayoutZat);
    }
  }

  lemma {:induction false} FeesWithinShares(entries: seq<PlannedEntry>)
    requires forall i :: 0 <= i < |entries| ==> 0 <= entries[i].feeZat <= entries[i].grossZat
    ensures 0 <= SumFees(entries) <= SumGross(entries)
  {
    if entries != [] {
      FeesWithinShares(entries[..|entries| - 1]);
    }
  }

  /** The rate a recorded round shows is one an account could be charged. */
  lemma AverageFeeIsReadable(db: Db, request: Request)
    requires ValidDb(db) && Plan(db, request).Ok?
    ensures FeeIsReadable(AverageFee(Plan(db, request).value))
  {
    hide Plan, AverageFee, SumPaid, SumIn, SumOut, SumGross, SumFees, FeeIsReadable;
    var r := Plan(db, request).value;
    PlanIsBalanced(db, request);
    forall i | 0 <= i < |r.entries|
      ensures 0 <= r.entries[i].feeZat <= r.entries[i].grossZat
    {
      PlanReadsLedger(db, request, r.entries[i]);
      assert EntryBalances(r.entries[i]);
    }
    FeesWithinShares(r.entries);
    RateOfPart(r);
  }

  lemma RateOfPart(r: PlannedRound)
    requires 0 <= r.feeZat <= r.totalZat
    ensures FeeIsReadable(AverageFee(r))
  {
    if r.totalZat > 0 {
      var part := r.feeZat as real / r.totalZat as real;
      assert part * r.totalZat as real == r.feeZat as real;
      assert 0.0 <= part <= 1.0;
    }
  }

  // ---- any history, stale plans included ---------------------------------------

  /** Every recorded round came from some plan, of whatever state of the tables. */
  ghost predicate Planned(r: PlannedRound) {
    exists db: Db, request: Request :: ValidDb(db) && Plan(db, request) == Ok(r)
  }

  function TotalPaid(rounds: seq<PlannedRound>): int {
    if rounds == [] then 0 else TotalPaid(rounds[..|rounds| - 1]) + SumPaid(rounds[|rounds| - 1].entries)
  }

  function TotalFees(rounds: seq<PlannedRound>): int {
    if rounds == [] then 0 else TotalFees(rounds[..|rounds| - 1]) + rounds[|rounds| - 1].feeZat
  }

  function TotalReceived(rounds: seq<PlannedRound>): int {
    if rounds == [] then 0 else TotalReceived(rounds[..|rounds| - 1]) + rounds[|rounds| - 1].totalZat
  }

  /** What all of these accounts together are still owed. */
  function Outstanding(rounds: seq<PlannedRound>, ids: seq<string>): int {
    if ids == [] then 0 else Outstanding(rounds, ids[..|ids| - 1]) + Carry(rounds, ids[|ids| - 1])
  }

  ghost predicate NamedOnce(ids: seq<string>) {
    forall i, j :: 0 <= i < j < |ids| ==> ids[i] != ids[j]
  }

  ghost predicate Covers(ids: seq<string>, rounds: seq<PlannedRound>) {
    forall i, j :: 0 <= i < |rounds| && 0 <= j < |rounds[i].entries| ==> rounds[i].entries[j].accountId in ids
  }

  function CarryInAll(entries: seq<PlannedEntry>, ids: seq<string>): int {
    if ids == [] then 0 else CarryInAll(entries, ids[..|ids| - 1]) + CarryIn(entries, ids[|ids| - 1])
  }

  /** One more entry moves the carry of its own account, once. */
  lemma {:induction false} CarryInAllSnoc(entries: seq<PlannedEntry>, ids: seq<string>)
    requires entries != [] && NamedOnce(ids)
    ensures var last := entries[|entries| - 1];
            CarryInAll(entries, ids) == CarryInAll(entries[..|entries| - 1], ids)
              + (if last.accountId in ids then last.carriedOutZat - last.carriedInZat else 0)
  {
    if ids != [] {
      var n := |ids| - 1;
      CarryInAllSnoc(entries, ids[..n]);
      assert ids == ids[..n] + [ids[n]];
    }
  }

  lemma {:induction false} CarryInAllIsNet(entries: seq<PlannedEntry>, ids: seq<string>)
    requires NamedOnce(ids) && forall j :: 0 <= j < |entries| ==> entries[j].accountId in ids
    ensures CarryInAll(entries, ids) == SumOut(entries) - SumIn(entries)
  {
    if entries == [] {
      CarryInAllOfNothing(ids);
    } else {
      CarryInAllIsNet(entries[..|entries| - 1], ids);
      CarryInAllSnoc(entries, ids);
    }
  }

  lemma {:induction false} CarryInAllOfNothing(ids: seq<string>)
    ensures CarryInAll([], ids) == 0
  {
    if ids != [] {
      CarryInAllOfNothing(ids[..|ids| - 1]);
    }
  }

  lemma {:induction false} OutstandingSnoc(rounds: seq<PlannedRound>, ids: seq<string>)
    requires rounds != []
    ensures Outstanding(rounds, ids)
         == Outstanding(rounds[..|rounds| - 1], ids) + CarryInAll(rounds[|rounds| - 1].entries, ids)
  {
    if ids != [] {
      OutstandingSnoc(rounds, ids[..|ids| - 1]);
    }
  }

  lemma {:induction false} OutstandingOfNothing(ids: seq<string>)
    ensures Outstanding([], ids) == 0
  {
    if ids != [] {
      OutstandingOfNothing(ids[..|ids| - 1]);
    }
  }

  /** Over any history of recorded rounds, even ones planned on stale state or for
      overlapping windows: recorded to be paid + fees + outstanding carry is exactly what came in. */
  lemma {:induction false} NothingIsMadeOrLost(rounds: seq<PlannedRound>, ids: seq<string>)
    requires forall i :: 0 <= i < |rounds| ==> Planned(rounds[i])
    requires NamedOnce(ids) && Covers(ids, rounds)
    ensures TotalPaid(rounds) + TotalFees(rounds) + Outstanding(rounds, ids) == TotalReceived(rounds)
  {
    if rounds == [] {
      OutstandingOfNothing(ids);
    } else {
      var n := |rounds| - 1;
      NothingIsMadeOrLost(rounds[..n], ids);
      assert Planned(rounds[n]);
      PlannedIsBalanced(rounds[n]);
      hide Planned;
      OutstandingSnoc(rounds, ids);
      CarryInAllIsNet(rounds[n].entries, ids);
    }
  }

  lemma PlannedIsBalanced(r: PlannedRound)
    requires Planned(r)
    ensures Balanced(r)
  {
    var db: Db, request: Request :| ValidDb(db) && Plan(db, request) == Ok(r);
    PlanIsBalanced(db, request);
  }

  // ---- histories where each record follows its plan -----------------------------

  /** Round n was planned against exactly the n rounds before it. */
  ghost predicate PlannedOn(before: seq<PlannedRound>, r: PlannedRound) {
    exists db: Db, request: Request :: ValidDb(db) && db.rounds == before && Plan(db, request) == Ok(r)
  }

  ghost predicate InStep(rounds: seq<PlannedRound>) {
    forall n :: 0 <= n < |rounds| ==> PlannedOn(rounds[..n], rounds[n])
  }

  /** The balance an account's last entry left it with. */
  function LastOut(rounds: seq<PlannedRound>, id: string): int {
    if rounds == [] then 0
    else
      var own := EntryOf(rounds[|rounds| - 1].entries, id);
      if own.Some? then own.value.carriedOutZat else LastOut(rounds[..|rounds| - 1], id)
  }

  function EntryOf(entries: seq<PlannedEntry>, id: string): Option<PlannedEntry> {
    if entries == [] then None
    else if entries[|entries| - 1].accountId == id then Some(entries[|entries| - 1])
    else EntryOf(entries[..|entries| - 1], id)
  }

  /** Each account has at most one entry in a round, so its carry moves by that entry alone. */
  lemma {:induction false} CarryInIsOneEntry(entries: seq<PlannedEntry>, id: string)
    requires forall i, j :: 0 <= i < j < |entries| ==> entries[i].accountId != entries[j].accountId
    ensures CarryIn(entries, id) == match EntryOf(entries, id)
                                    case None => 0
                                    case Some(e) => e.carriedOutZat - e.carriedInZat
    ensures EntryOf(entries, id).Some? ==>
      EntryOf(entries, id).value in entries && EntryOf(entries, id).value.accountId == id
    ensures EntryOf(entries, id).None? ==> forall i :: 0 <= i < |entries| ==> entries[i].accountId != id
  {
    if entries != [] {
      var n := |entries| - 1;
      CarryInIsOneEntry(entries[..n], id);
      assert entries == entries[..n] + [entries[n]];
    }
  }

  /** In a plan, every entry carries in what the ledger it was planned on says, and its gross
      share is not negative. */
  lemma PlanReadsLedger(db: Db, request: Request, e: PlannedEntry)
    requires ValidDb(db) && Plan(db, request).Ok? && e in Plan(db, request).value.entries
    ensures e.carriedInZat == Carry(db.rounds, e.accountId) && e.grossZat >= 0
  {
    hide Plan, Subjects, PlanEntries, Split, FeeOn, Carry, WeightOf;
    var subjects, i := EntryComesFrom(db, request, e);
    SubjectsShape(db, db.accounts, request.periodStart, request.periodEnd);
    SumOfWeights(subjects);
    PartIsNotNegative(request.totalZat, WeightsOf(subjects), i);
  }

  lemma PartIsNotNegative(total: int, weights: seq<real>, i: nat)
    requires total >= 0 && NonNegative(weights) && i < |weights|
    requires total > 0 ==> SumReal(weights) > 0.0
    ensures |Split(total, weights, SumReal(weights))| == |weights|
    ensures Split(total, weights, SumReal(weights))[i] >= 0
  {
    if total > 0 {
      PartIsFloorOrOneMore(total, weights, SumReal(weights), i);
      ShareLaws(total, weights[i], 0.0, SumReal(weights));
      hide ShareOf, Split;
    } else {
      NothingShape(|weights|);
    }
  }

  /** Recording a round moves an account's carry by its one entry there. */
  lemma RecordMovesCarry(rounds: seq<PlannedRound>, r: PlannedRound, e: PlannedEntry)
    requires Balanced(r) && e in r.entries
    ensures Carry(rounds + [r], e.accountId) == Carry(rounds, e.accountId) + e.carriedOutZat - e.carriedInZat
  {
    hide SumGross, SumFees, SumPaid, SumOut, SumIn, EntryBalances;
    assert (rounds + [r])[..|rounds|] == rounds;
    CarryInIsOneEntry(r.entries, e.accountId);
  }

  /** Recording r leaves an account's carry equal to what r carried out for it exactly when r
      was planned on the carry it had: the condition a stale plan breaks. */
  lemma CarryFollowsRecordIffFresh(rounds: seq<PlannedRound>, r: PlannedRound, e: PlannedEntry)
    requires Balanced(r) && e in r.entries
    ensures Carry(rounds + [r], e.accountId) == e.carriedOutZat <==> e.carriedInZat == Carry(rounds, e.accountId)
  {
    RecordMovesCarry(rounds, r, e);
  }

  // ---- histories whose plans read the carry of the moment --------------------------

  /** Whenever the account had an entry, the entry carried in what the account was owed just then:
      something to compare before recording. */
  ghost predicate Fresh(rounds: seq<PlannedRound>, id: string) {
    forall n :: 0 <= n < |rounds| ==> FreshEntry(rounds[..n], rounds[n], id)
  }

  predicate FreshEntry(before: seq<PlannedRound>, r: PlannedRound, id: string) {
    match EntryOf(r.entries, id)
    case None => true
    case Some(e) => e.carriedInZat == Carry(before, id)
  }

  /** All along the history, what the account is owed is what its last entry left it with. */
  ghost predicate AlwaysLastOut(rounds: seq<PlannedRound>, id: string) {
    forall n :: 0 <= n <= |rounds| ==> Carry(rounds[..n], id) == LastOut(rounds[..n], id)
  }

  ghost predicate AllBalanced(rounds: seq<PlannedRound>) {
    forall i :: 0 <= i < |rounds| ==> Balanced(rounds[i])
  }

  lemma OneMoreRound(rounds: seq<PlannedRound>, id: string)
    requires rounds != [] && Balanced(rounds[|rounds| - 1])
    requires var before := rounds[..|rounds| - 1]; Carry(before, id) == LastOut(before, id)
    ensures var n := |rounds| - 1;
            Carry(rounds, id) == LastOut(rounds, id) <==> FreshEntry(rounds[..n], rounds[n], id)
  {
    hide SumGross, SumFees, SumPaid, SumOut, SumIn, EntryBalances;
    CarryInIsOneEntry(rounds[|rounds| - 1].entries, id);
  }

  lemma FreshBefore(rounds: seq<PlannedRound>, id: string)
    requires rounds != []
    ensures var n := |rounds| - 1;
            Fresh(rounds, id) <==> Fresh(rounds[..n], id) && FreshEntry(rounds[..n], rounds[n], id)
  {
    hide FreshEntry;
    var n := |rounds| - 1;
    forall k | 0 <= k < n
      ensures FreshEntry(rounds[..n][..k], rounds[..n][k], id) == FreshEntry(rounds[..k], rounds[k], id)
    {
      assert rounds[..n][..k] == rounds[..k];
    }
  }

  lemma LastOutBefore(rounds: seq<PlannedRound>, id: string)
    requires rounds != []
    ensures AlwaysLastOut(rounds, id)
      <==> AlwaysLastOut(rounds[..|rounds| - 1], id) && Carry(rounds, id) == LastOut(rounds, id)
  {
    hide Carry, LastOut;
    var n := |rounds| - 1;
    assert rounds[..n + 1] == rounds;
    forall k | 0 <= k <= n
      ensures rounds[..n][..k] == rounds[..k]
    {
    }
  }

  /** Over any history of balanced rounds, however planned: the carry of an account is what its last
      entry carried out, at every point of the history, if and only if each of its entries carried in
      the carry of its moment. */
  lemma {:induction false} CarryIsLastOutIffFresh(rounds: seq<PlannedRound>, id: string)
    requires AllBalanced(rounds)
    ensures AlwaysLastOut(rounds, id) <==> Fresh(rounds, id)
  {
    hide Balanced, FreshEntry;
    if rounds == [] {
      assert rounds[..0] == [];
    } else {
      var n := |rounds| - 1;
      FreshBefore(rounds, id);
      LastOutBefore(rounds, id);
      CarryIsLastOutIffFresh(rounds[..n], id);
      if AlwaysLastOut(rounds[..n], id) {
        assert rounds[..n][..n] == rounds[..n];
        OneMoreRound(rounds, id);
      }
    }
  }

  ghost predicate AllPlanned(rounds: seq<PlannedRound>) {
    forall i :: 0 <= i < |rounds| ==> Planned(rounds[i])
  }

  /** For an account whose entries all carried in the carry of their moment, whatever the other
      accounts' entries did: it is owed what its last entry carried out, and never less than nothing. */
  lemma {:induction false} CarryIsLastOut(rounds: seq<PlannedRound>, id: string)
    requires AllPlanned(rounds) && Fresh(rounds, id)
    ensures Carry(rounds, id) == LastOut(rounds, id) >= 0
  {
    hide Planned, FreshEntry;
    if rounds != [] {
      var n := |rounds| - 1;
      FreshBefore(rounds, id);
      CarryIsLastOut(rounds[..n], id);
      assert Planned(rounds[n]);
      PlannedIsBalanced(rounds[n]);
      OneMoreRound(rounds, id);
      FreshOutIsNotNegative(rounds[..n], rounds[n], id);
    }
  }

  lemma FreshOutIsNotNegative(before: seq<PlannedRound>, r: PlannedRound, id: string)
    requires Planned(r) && FreshEntry(before, r, id) && Carry(before, id) >= 0
    ensures EntryOf(r.entries, id).Some? ==> EntryOf(r.entries, id).value.carriedOutZat >= 0
  {
    hide Plan, Carry, SumGross, SumFees, SumPaid, SumOut, SumIn;
    var db: Db, request: Request :| ValidDb(db) && Plan(db, request) == Ok(r);
    PlanIsBalanced(db, request);
    CarryInIsOneEntry(r.entries, id);
    if EntryOf(r.entries, id).Some? {
      PlanReadsLedger(db, request, EntryOf(r.entries, id).value);
      assert EntryBalances(EntryOf(r.entries, id).value);
    }
  }

  /** When every round was planned on exactly the rounds before it, every account's are fresh. */
  lemma InStepIsFresh(rounds: seq<PlannedRound>, id: string)
    requires InStep(rounds)
    ensures AllPlanned(rounds) && Fresh(rounds, id)
  {
    hide PlannedOn, FreshEntry, Planned;
    forall n | 0 <= n < |rounds|
      ensures Planned(rounds[n]) && FreshEntry(rounds[..n], rounds[n], id)
    {
      PlannedOnIsFresh(rounds[..n], rounds[n], id);
    }
  }

  lemma PlannedOnIsFresh(before: seq<PlannedRound>, r: PlannedRound, id: string)
    requires PlannedOn(before, r)
    ensures Planned(r) && FreshEntry(before, r, id)
  {
    hide Plan, Carry, Balanced;
    var db: Db, request: Request :| ValidDb(db) && db.rounds == before && Plan(db, request) == Ok(r);
    EntryOfIsThere(r.entries, id);
    if EntryOf(r.entries, id).Some? {
      PlanReadsLedger(db, request, EntryOf(r.entries, id).value);
    }
  }

  lemma {:induction false} EntryOfIsThere(entries: seq<PlannedEntry>, id: string)
    ensures EntryOf(entries, id).Some? ==>
      EntryOf(entries, id).value in entries && EntryOf(entries, id).value.accountId == id
    ensures EntryOf(entries, id).None? ==> forall e :: e in entries ==> e.accountId != id
  {
    if entries != [] {
      var n := |entries| - 1;
      EntryOfIsThere(entries[..n], id);
      assert entries == entries[..n] + [entries[n]];
    }
  }

  /** A balance on record is never passed over: whatever the window, an account still owed something is
      in the next accepted plan, which decides to pay the balance with the new share or carries both on.
      What becomes of an amount it was decided to pay is told in `Disbursement`. */
  lemma OwedIsAlwaysPlanned(db: Db, request: Request, account: Account)
    requires ValidDb(db) && account in db.accounts && Plan(db, request).Ok?
    requires Carry(db.rounds, account.id) != 0
    ensures exists i :: 0 <= i < |Plan(db, request).value.entries|
              && var e := Plan(db, request).value.entries[i];
                 && e.accountId == account.id && e.carriedInZat == Carry(db.rounds, account.id)
                 && e.amountZat + e.carriedOutZat == e.grossZat - e.feeZat + Carry(db.rounds, account.id)
  {
    hide Plan, Carry, WeightOf;
    var i := SubjectIsPlanned(db, request, account);
    var e := Plan(db, request).value.entries[i];
    PlanReadsLedger(db, request, e);
    PlanPaysTheAccount(db, request, e);
  }

  /** An account that earned in the window or is owed something has an entry in the plan. */
  lemma SubjectIsPlanned(db: Db, request: Request, account: Account) returns (i: nat)
    requires ValidDb(db) && account in db.accounts && Plan(db, request).Ok?
    requires WeightOf(db, account.id, request.periodStart, request.periodEnd) > 0.0
          || Carry(db.rounds, account.id) != 0
    ensures i < |Plan(db, request).value.entries| && Plan(db, request).value.entries[i].accountId == account.id
  {
    hide Plan, Subjects, PlanEntries, Split, FeeOn, Carry, WeightOf, EntryFor;
    var subjects, gross := PlanOpens(db, request);
    SubjectsAreComplete(db, db.accounts, request.periodStart, request.periodEnd, account);
    var subject := SubjectOf(db, account, request.periodStart, request.periodEnd);
    i :| i < |subjects| && subjects[i] == subject;
    EntriesMatch(subjects, gross, request);
    EntryNames(subject, gross[i], request.feeBpsFor(account.id), request.minPayoutZat);
  }

  lemma {:induction false} FeesAreReadable(subjects: seq<Subject>, gross: seq<int>, request: Request)
    requires |gross| == |subjects| && forall id :: FeeIsReadable(request.feeBpsFor(id))
    ensures PlanEntries(subjects, gross, request).Ok?
  {
    if subjects != [] {
      FeesAreReadable(subjects[..|subjects| - 1], gross[..|gross| - 1], request);
    }
  }

  /** A window with nothing to distribute can always be planned. */
  lemma FreePlanIsMade(db: Db, request: Request)
    requires Objection(request).None? && request.totalZat == 0
    requires forall id :: FeeIsReadable(request.feeBpsFor(id))
    ensures Plan(db, request).Ok?
  {
    hide Objection, Subjects, PlanEntries, FeeIsReadable;
    var subjects := Subjects(db, db.accounts, request.periodStart, request.periodEnd);
    var weights := WeightsOf(subjects);
    SplitLength(0, weights, SumReal(weights));
    FeesAreReadable(subjects, Split(0, weights, SumReal(weights)), request);
  }

  ghost predicate OnRecord(accounts: seq<Account>, id: string) {
    exists i :: 0 <= i < |accounts| && accounts[i].id == id
  }

  /** What a round weighs an account at, if it has an entry for it at all. */
  function WeighedIn(r: PlannedRound, id: string): real {
    var own := EntryOf(r.entries, id);
    if own.Some? then own.value.weight else 0.0
  }

  /** A plan weighs every account on record at what the tables hold of it in the window, an account
      without an entry at nothing because there is nothing; and nobody else. */
  lemma PlanWeighsTheTables(db: Db, request: Request, id: string)
    requires ValidDb(db) && Plan(db, request).Ok?
    ensures WeighedIn(Plan(db, request).value, id)
         == if OnRecord(db.accounts, id) then WeightOf(db, id, request.periodStart, request.periodEnd) else 0.0
  {
    hide Plan, WeightOf, Carry;
    var r := Plan(db, request).value;
    EntryOfIsThere(r.entries, id);
    var own := EntryOf(r.entries, id);
    if own.Some? {
      PlanPaysTheAccount(db, request, own.value);
      var i: nat :| i < |db.accounts| && db.accounts[i] == Account(id, own.value.payoutAddress);
      assert OnRecord(db.accounts, id);
    } else if OnRecord(db.accounts, id) {
      var i: nat :| i < |db.accounts| && db.accounts[i].id == id;
      WeightOfIsNotNegative(db, id, request.periodStart, request.periodEnd);
      if WeightOf(db, id, request.periodStart, request.periodEnd) > 0.0 {
        var k := SubjectIsPlanned(db, request, db.accounts[i]);
      }
    }
  }

  lemma EntryNames(subject: Subject, grossZat: int, bps: int, minPayoutZat: int)
    ensures var e := EntryFor(subject, grossZat, bps, minPayoutZat);
            && e.accountId == subject.account.id && e.carriedInZat == subject.carried
            && e.weight == subject.weight && e.grossZat == grossZat
  {}

  /** An entry of a plan concerns one account on record and nobody else: its address, its rate,
      its weight. The fee is the rate rounded down, so the odd zatoshi stays with the account;
      it is paid all it is owed exactly when that is positive and reaches the minimum. */
  lemma PlanPaysTheAccount(db: Db, request: Request, e: PlannedEntry)
    requires ValidDb(db) && Plan(db, request).Ok? && e in Plan(db, request).value.entries
    ensures Account(e.accountId, e.payoutAddress) in db.accounts
    ensures e.feeBps == request.feeBpsFor(e.accountId)
    ensures e.weight == WeightOf(db, e.accountId, request.periodStart, request.periodEnd)
    ensures e.feeZat * 10_000 <= e.grossZat * e.feeBps < (e.feeZat + 1) * 10_000
    ensures var owed := e.grossZat - e.feeZat + Carry(db.rounds, e.accountId);
            && e.amountZat == (if owed > 0 && owed >= request.minPayoutZat then owed else 0)
            && e.amountZat + e.carriedOutZat == owed
  {
    hide Plan, Subjects, PlanEntries, Split, Carry, WeightOf;
    var subjects, i := EntryComesFrom(db, request, e);
    SubjectsShape(db, db.accounts, request.periodStart, request.periodEnd);
    var gross := Split(request.totalZat, WeightsOf(subjects), SumReal(WeightsOf(subjects)));
    assert subjects[i].account == Account(e.accountId, e.payoutAddress);
    FeeIsRoundedDown(gross[i], e.feeBps);
  }

  lemma FeeIsRoundedDown(grossZat: int, bps: int)
    ensures FeeOn(grossZat, bps) * 10_000 <= grossZat * bps < (FeeOn(grossZat, bps) + 1) * 10_000
  {}

  // ---- from shares to the split --------------------------------------------------

  /** On bucket boundaries, the weight a plan gives an account is the summed difficulty of
      its accepted shares in the window, over all its rigs. */
  lemma PlanWeighsAcceptedWork(db: Db, log: seq<Rollup.Share>, request: Request, e: PlannedEntry)
    requires DistinctIds(db.accounts) && db.buckets == Rollup.Stored(log) && Rollup.PositiveDifficulties(log)
    requires Plan(db, request).Ok? && e in Plan(db, request).value.entries
    ensures e.weight == Rollup.AcceptedDifficulty(log,
      Rollup.Query(db.workers, Rollup.OfAccount(e.accountId), request.periodStart, request.periodEnd))
  {
    hide Plan, Subjects, PlanEntries, Split, FeeOn, Carry;
    RecordedDbIsValid(db, log);
    var subjects, i := EntryComesFrom(db, request, e);
    SubjectsShape(db, db.accounts, request.periodStart, request.periodEnd);
    PlanIsAligned(db, request);
    Rollup.WeightIsAcceptedDifficulty(log,
      Rollup.Query(db.workers, Rollup.OfAccount(e.accountId), request.periodStart, request.periodEnd));
  }

  lemma PlanIsAligned(db: Db, request: Request)
    requires Plan(db, request).Ok?
    ensures request.periodStart % Rollup.BUCKET_SECONDS == 0 && request.periodEnd % Rollup.BUCKET_SECONDS == 0
  {}

  // ---- one round per window ---------------------------------------------------------

  /** The rounds on record after trying to record all of these, in order. */
  function RecordedOf(tries: seq<PlannedRound>): seq<PlannedRound> {
    if tries == [] then [] else AfterRecord(RecordedOf(tries[..|tries| - 1]), tries[|tries| - 1])
  }

  predicate SameWindow(a: PlannedRound, b: PlannedRound) {
    a.periodStart == b.periodStart && a.periodEnd == b.periodEnd
  }

  ghost predicate HasWindow(rounds: seq<PlannedRound>, r: PlannedRound) {
    exists i :: 0 <= i < |rounds| && SameWindow(rounds[i], r)
  }

  /** The round is the first of these tries for its window. */
  ghost predicate FirstTry(tries: seq<PlannedRound>, r: PlannedRound) {
    exists k :: 0 <= k < |tries| && tries[k] == r && !HasWindow(tries[..k], r)
  }

  ghost predicate DistinctWindows(rounds: seq<PlannedRound>) {
    forall i, j :: 0 <= i < j < |rounds| ==> !SameWindow(rounds[i], rounds[j])
  }

  /** However often windows are recorded, each is on record once, as it was first tried. */
  lemma {:induction false} OneRoundPerWindow(tries: seq<PlannedRound>)
    ensures DistinctWindows(RecordedOf(tries))
    ensures forall r :: r in tries ==> HasWindow(RecordedOf(tries), r)
    ensures forall q :: q in RecordedOf(tries) ==> FirstTry(tries, q)
  {
    if tries != [] {
      hide HasWindow, FirstTry, DistinctWindows, AfterRecord, SameWindow;
      var n := |tries| - 1;
      var before, r := RecordedOf(tries[..n]), tries[n];
      OneRoundPerWindow(tries[..n]);
      RecordAddsIffNew(before, r);
      assert tries == tries[..n] + [r];
      forall x | x in tries
        ensures HasWindow(AfterRecord(before, r), x)
      {
        WindowStays(before, r, x);
      }
      forall q | q in AfterRecord(before, r)
        ensures FirstTry(tries, q)
      {
        if q in before {
          FirstTryStays(tries[..n], r, q);
        } else {
          NewWindowIsFirst(before, tries[..n], r);
        }
      }
    }
  }

  lemma RecordAddsIffNew(rounds: seq<PlannedRound>, r: PlannedRound)
    requires DistinctWindows(rounds)
    ensures DistinctWindows(AfterRecord(rounds, r)) && HasWindow(AfterRecord(rounds, r), r)
    ensures forall q :: q in AfterRecord(rounds, r) ==> q in rounds || (q == r && !HasWindow(rounds, r))
  {
    if !Recorded(rounds, r.periodStart, r.periodEnd) {
      assert (rounds + [r])[|rounds|] == r;
    }
  }

  lemma WindowStays(rounds: seq<PlannedRound>, r: PlannedRound, x: PlannedRound)
    requires HasWindow(rounds, x) || (x == r && HasWindow(AfterRecord(rounds, r), r))
    ensures HasWindow(AfterRecord(rounds, r), x)
  {
    if HasWindow(rounds, x) {
      var i :| 0 <= i < |rounds| && SameWindow(rounds[i], x);
      assert AfterRecord(rounds, r)[i] == rounds[i];
    }
  }

  lemma FirstTryStays(tries: seq<PlannedRound>, r: PlannedRound, q: PlannedRound)
    requires FirstTry(tries, q)
    ensures FirstTry(tries + [r], q)
  {
    var k :| 0 <= k < |tries| && tries[k] == q && !HasWindow(tries[..k], q);
    assert (tries + [r])[..k] == tries[..k] && (tries + [r])[k] == q;
  }

  lemma NewWindowIsFirst(rounds: seq<PlannedRound>, tries: seq<PlannedRound>, r: PlannedRound)
    requires !HasWindow(rounds, r) && forall x :: x in tries ==> HasWindow(rounds, x)
    ensures FirstTry(tries + [r], r)
  {
    forall j | 0 <= j < |tries|
      ensures !SameWindow(tries[j], r)
    {
      assert tries[j] in tries;
      var i :| 0 <= i < |rounds| && SameWindow(rounds[i], tries[j]);
      assert !SameWindow(rounds[i], r);
    }
    assert (tries + [r])[..|tries|] == tries && (tries + [r])[|tries|] == r;
  }
}
