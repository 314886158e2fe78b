/** Planning and recording payout rounds. Amounts are whole zatoshi; weights are exact. */
module Ledger {
  import opened Wrappers
  import opened Apportionment
  import Decimal
  import Rollup

  datatype Account = Account(id: string, payoutAddress: string)

  datatype PlannedEntry = PlannedEntry(
    accountId: string,
    payoutAddress: string,
    weight: real,
    grossZat: int,
    feeBps: int,
    feeZat: int,
    carriedInZat: int,
    amountZat: int,
    carriedOutZat: int)

  datatype PlannedRound = PlannedRound(
    periodStart: int,
    periodEnd: int,
    totalZat: int,
    feeZat: int,
    distributableZat: int,
    totalWeight: real,
    entries: seq<PlannedEntry>)

  datatype Request = Request(
    periodStart: int,
    periodEnd: int,
    totalZat: int,
    feeBpsFor: string -> int,
    minPayoutZat: int)

  /** The tables a plan reads. Accounts are listed in the order the query returns them. */
  datatype Db = Db(
    accounts: seq<Account>,
    workers: Rollup.Workers,
    buckets: Rollup.Buckets,
    rounds: seq<PlannedRound>)

  datatype PlanError = BadAmount | EndsBeforeItStarts | OffBucketBoundary | NoWorkToPay | BadFee(accountId: string)

  datatype Subject = Subject(account: Account, weight: real, carried: int)

  // ---- what is owed from before ----------------------------------------------

  function CarryIn(entries: seq<PlannedEntry>, id: string): int {
    if entries == [] then 0
    else
      var last := entries[|entries| - 1];
      CarryIn(entries[..|entries| - 1], id)
      + (if last.accountId == id then last.carriedOutZat - last.carriedInZat else 0)
  }

  /** `SUM(carried_out) - SUM(carried_in)` over an account's entries. */
  function Carry(rounds: seq<PlannedRound>, id: string): int {
    if rounds == [] then 0
    else Carry(rounds[..|rounds| - 1], id) + CarryIn(rounds[|rounds| - 1].entries, id)
  }

  function WeightOf(db: Db, id: string, start: int, end: int): real {
    Rollup.Total(db.buckets, Rollup.Query(db.workers, Rollup.OfAccount(id), start, end)).difficulty
  }

  function SubjectOf(db: Db, account: Account, start: int, end: int): Subject {
    Subject(account, WeightOf(db, account.id, start, end), Carry(db.rounds, account.id))
  }

  /** Whom a round concerns: every account with weight in the window or a balance that is not zero. */
  function Subjects(db: Db, accounts: seq<Account>, start: int, end: int): seq<Subject> {
    if accounts == [] then []
    else
      var subject := SubjectOf(db, accounts[|accounts| - 1], start, end);
      Subjects(db, accounts[..|accounts| - 1], start, end)
      + (if subject.weight > 0.0 || subject.carried != 0 then [subject] else [])
  }

  function WeightsOf(subjects: seq<Subject>): (weights: seq<real>)
    ensures |weights| == |subjects|
    ensures forall i :: 0 <= i < |subjects| ==> weights[i] == subjects[i].weight
  {
    if subjects == [] then [] else WeightsOf(subjects[..|subjects| - 1]) + [subjects[|subjects| - 1].weight]
  }

  // ---- the plan --------------------------------------------------------------

  predicate FeeIsReadable(bps: int) {
    0 <= bps <= 10_000
  }

  /** Basis points of the gross share; division drops the fraction, in the account's favour. */
  function FeeOn(grossZat: int, bps: int): int {
    grossZat * bps / 10_000
  }

  function EntryFor(subject: Subject, grossZat: int, bps: int, minPayoutZat: int): PlannedEntry {
    var fee := FeeOn(grossZat, bps);
    var owed := grossZat - fee + subject.carried;
    var pays := owed >= minPayoutZat && owed > 0;
    PlannedEntry(subject.account.id, subject.account.payoutAddress, subject.weight, grossZat, bps, fee,
                 subject.carried, if pays then owed else 0, if pays then 0 else owed)
  }

  function PlanEntries(subjects: seq<Subject>, gross: seq<int>, request: Request)
    : Result<seq<PlannedEntry>, PlanError>
    requires |gross| == |subjects|
  {
    if subjects == [] then Ok([])
    else
      var n := |subjects| - 1;
      var before := PlanEntries(subjects[..n], gross[..n], request);
      var id := subjects[n].account.id;
      if before.Err? then before
      else if !FeeIsReadable(request.feeBpsFor(id)) then Err(BadFee(id))
      else Ok(before.value + [EntryFor(subjects[n], gross[n], request.feeBpsFor(id), request.minPayoutZat)])
  }

  function SumFees(entries: seq<PlannedEntry>): int {
    if entries == [] then 0 else SumFees(entries[..|entries| - 1]) + entries[|entries| - 1].feeZat
  }

  /** The window and total a plan refuses before reading anything. */
  function Objection(request: Request): Option<PlanError> {
    if request.totalZat < 0 || request.totalZat > Decimal.MAX_SAFE then Some(BadAmount)
    else if request.periodEnd <= request.periodStart then Some(EndsBeforeItStarts)
    else if request.periodStart % Rollup.BUCKET_SECONDS != 0 || request.periodEnd % Rollup.BUCKET_SECONDS != 0
    then Some(OffBucketBoundary)
    else None
  }

  lemma {:induction false} SplitLength(total: int, weights: seq<real>, totalWeight: real)
    ensures |Split(total, weights, totalWeight)| == |weights|
  {
    NothingShape(|weights|);
    if totalWeight > 0.0 {
      ExactLength(total, weights, totalWeight);
    }
  }

  lemma {:induction false} ExactLength(total: int, weights: seq<real>, totalWeight: real)
    requires totalWeight > 0.0
    ensures |Exact(total, weights, totalWeight)| == |weights|
  {
    if weights != [] {
      ExactLength(total, weights[..|weights| - 1], totalWeight);
    }
  }

  function Plan(db: Db, request: Request): Result<PlannedRound, PlanError> {
    if Objection(request).Some? then Err(Objection(request).value)
    else
      var subjects := Subjects(db, db.accounts, request.periodStart, request.periodEnd);
      var weights := WeightsOf(subjects);
      var totalWeight := SumReal(weights);
      if request.totalZat > 0 && totalWeight <= 0.0 then Err(NoWorkToPay)
      else
        SplitLength(request.totalZat, weights, totalWeight);
        var entries := PlanEntries(subjects, Split(request.totalZat, weights, totalWeight), request);
        if entries.Err? then Err(entries.error)
        else
          var fee := SumFees(entries.value);
          Ok(PlannedRound(request.periodStart, request.periodEnd, request.totalZat, fee,
                          request.totalZat - fee, totalWeight, entries.value))
  }

  // ---- recording ---------------------------------------------------------------

  predicate Recorded(rounds: seq<PlannedRound>, start: int, end: int) {
    exists i :: 0 <= i < |rounds| && rounds[i].periodStart == start && rounds[i].periodEnd == end
  }

  /** The one transaction: the round and all its entries, or nothing if the window is taken. */
  function AfterRecord(rounds: seq<PlannedRound>, round: PlannedRound): seq<PlannedRound> {
    if Recorded(rounds, round.periodStart, round.periodEnd) then rounds else rounds + [round]
  }

  /** The rate of a round as a whole, in basis points to the nearest; exact, where the source divides
      doubles. */
  function AverageFee(round: PlannedRound): int {
    if round.totalZat == 0 then 0 else (round.feeZat as real / round.totalZat as real * 10_000.0 + 0.5).Floor
  }

  /** What else a round's row holds. */
  datatype Header = Header(createdAt: int, feeBps: int)

  class Payouts {
    var db: Db
    var headers: seq<Header>

    constructor (db: Db)
      ensures this.db == db && headers == []
    {
      this.db, headers := db, [];
    }

    method PlanRound(request: Request) returns (planned: Result<PlannedRound, PlanError>)
      ensures planned == Plan(db, request)
    {
      var objection := Objection(request);
      if objection.Some? {
        return Err(objection.value);
      }
      var subjects := Subjects(db, db.accounts, request.periodStart, request.periodEnd);
      var weights := WeightsOf(subjects);
      var totalWeight := SumReal(weights);
      if request.totalZat > 0 && totalWeight <= 0.0 {
        return Err(NoWorkToPay);
      }
      var gross := SplitByWeight(request.totalZat, weights, totalWeight);
      SplitLength(request.totalZat, weights, totalWeight);
      var entries, feeZat := ChargeEach(subjects, gross, request);
      if entries.Err? {
        return Err(entries.error);
      }
      return Ok(PlannedRound(request.periodStart, request.periodEnd, request.totalZat, feeZat,
                             request.totalZat - feeZat, totalWeight, entries.value));
    }

    /** One entry per subject, adding up the fees as it goes. */
    static method ChargeEach(subjects: seq<Subject>, gross: seq<int>, request: Request)
      returns (entries: Result<seq<PlannedEntry>, PlanError>, feeZat: int)
      requires |gross| == |subjects|
      ensures entries == PlanEntries(subjects, gross, request)
      ensures entries.Ok? ==> feeZat == SumFees(entries.value)
    {
      hide EntryFor;
      var done;
      done, feeZat := [], 0;
      for i := 0 to |subjects|
        invariant PlanEntries(subjects[..i], gross[..i], request) == Ok(done)
        invariant feeZat == SumFees(done)
      {
        assert subjects[..i + 1][..i] == subjects[..i] && gross[..i + 1][..i] == gross[..i];
        var id := subjects[i].account.id;
        var bps := request.feeBpsFor(id);
        if !FeeIsReadable(bps) {
          FirstBadFeeWins(subjects, gross, request, i + 1);
          return Err(BadFee(id)), feeZat;
        }
        var entry := EntryFor(subjects[i], gross[i], bps, request.minPayoutZat);
        assert (done + [entry])[..|done|] == done;
        done, feeZat := done + [entry], feeZat + entry.feeZat;
      }
      assert subjects[..|subjects|] == subjects && gross[..|subjects|] == gross;
      return Ok(done), feeZat;
    }

    /** False when the window is already recorded: the insert fails and nothing is written. */
    method Record(round: PlannedRound, atSeconds: int) returns (recorded: bool)
      modifies this
      ensures recorded == !Recorded(old(db).rounds, round.periodStart, round.periodEnd)
      ensures headers == if recorded then old(headers) + [Header(atSeconds, AverageFee(round))] else old(headers)
      ensures db == old(db).(rounds := AfterRecord(old(db).rounds, round))
    {
      recorded := true;
      for i := 0 to |db.rounds|
        invariant recorded && db == old(db) && headers == old(headers)
        invariant forall j :: 0 <= j < i ==>
          !(db.rounds[j].periodStart == round.periodStart && db.rounds[j].periodEnd == round.periodEnd)
      {
        if db.rounds[i].periodStart == round.periodStart && db.rounds[i].periodEnd == round.periodEnd {
          return false;
        }
      }
      db := db.(rounds := db.rounds + [round]);
      headers := headers + [Header(atSeconds, AverageFee(round))];
    }
  }

  lemma {:induction false} FirstBadFeeWins(subjects: seq<Subject>, gross: seq<int>, request: Request, n: nat)
    requires |gross| == |subjects| && n <= |subjects|
    requires PlanEntries(subjects[..n], gross[..n], request).Err?
    ensures PlanEntries(subjects, gross, request) == PlanEntries(subjects[..n], gross[..n], request)
  {
    if n == |subjects| {
      assert subjects[..n] == subjects && gross[..n] == gross;
    } else {
      var m := |subjects| - 1;
      assert subjects[..m][..n] == subjects[..n] && gross[..m][..n] == gross[..n];
      FirstBadFeeWins(subjects[..m], gross[..m], request, n);
    }
  }
}
