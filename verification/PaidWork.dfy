/** How often the rounds on record weigh a share, and what that makes of an account's work. Shares are
    stamped when submitted and counted when settled; a plan reads the tables of its moment and may be
    recorded later; a window is refused only when the very same one is on record. */
module PaidWork {
  import opened Wrappers
  import opened Shares
  import opened Ledger
  import opened LedgerProperties
  import Login
  import Rollup
  import Session
  import StalePlans
  import W = WorkerRows

  /** What the share hooks do, an account created, a plan made, and the plan made at some event recorded. */
  datatype Event =
    | Hook(hook: W.Event)
    | AccountAdded(account: Account)
    | Plans(request: Request)
    | Records(made: nat)

  ghost function RunOf(es: seq<Event>): seq<W.Event> {
    if es == [] then []
    else
      var n := |es| - 1;
      if es[n].Hook? then RunOf(es[..n]) + [es[n].hook] else RunOf(es[..n])
  }

  /** The id is a primary key: the first account under it stays. */
  ghost function AccountsOf(es: seq<Event>): seq<Account> {
    if es == [] then []
    else
      var n := |es| - 1;
      var before := AccountsOf(es[..n]);
      if es[n].AccountAdded? && !OnRecord(before, es[n].account.id) then before + [es[n].account] else before
  }

  /** The tables as they stand. */
  ghost function TablesOf(algo: string, es: seq<Event>): Db
    decreases |es|, 1
  {
    var hooks := W.Play(algo, RunOf(es));
    Db(AccountsOf(es), hooks.workers, hooks.buckets, RoundsOf(algo, es))
  }

  /** The rounds on record. */
  ghost function RoundsOf(algo: string, es: seq<Event>): seq<PlannedRound>
    decreases |es|, 0
  {
    if es == [] then []
    else
      var n := |es| - 1;
      var before := RoundsOf(algo, es[..n]);
      if es[n].Records? && es[n].made < n && es[es[n].made].Plans? then
        var m := es[n].made;
        var plan := Plan(TablesOf(algo, es[..m]), es[m].request);
        if plan.Ok? then AfterRecord(before, plan.value) else before
      else before
  }

  ghost predicate IsMade(algo: string, es: seq<Event>, m: nat) {
    m < |es| && es[m].Plans? && Plan(TablesOf(algo, es[..m]), es[m].request).Ok?
  }

  /** The plan made at m, on the tables of that moment. */
  ghost function PlanAt(algo: string, es: seq<Event>, m: nat): PlannedRound
    requires IsMade(algo, es, m)
  {
    Plan(TablesOf(algo, es[..m]), es[m].request).value
  }

  /** The last event puts a round on record. */
  ghost predicate Adds(algo: string, es: seq<Event>) {
    es != [] &&
    (var n := |es| - 1;
     && es[n].Records? && es[n].made < n && IsMade(algo, es, es[n].made)
     && var plan := PlanAt(algo, es, es[n].made);
        !Recorded(RoundsOf(algo, es[..n]), plan.periodStart, plan.periodEnd))
  }

  /** The round the last event puts on record. */
  ghost function Added(algo: string, es: seq<Event>): PlannedRound
    requires Adds(algo, es)
  {
    PlanAt(algo, es, es[|es| - 1].made)
  }

  lemma RoundsGrow(algo: string, es: seq<Event>)
    requires es != []
    ensures var before := RoundsOf(algo, es[..|es| - 1]);
            RoundsOf(algo, es) == if Adds(algo, es) then before + [Added(algo, es)] else before
  {
    hide Plan, Recorded, TablesOf;
  }

  /** All the weight an account was ever put down for, round by round. */
  function PaidWeight(rounds: seq<PlannedRound>, id: string): real {
    if rounds == [] then 0.0 else PaidWeight(rounds[..|rounds| - 1], id) + WeighedIn(rounds[|rounds| - 1], id)
  }

  lemma PaidWeightSnoc(rounds: seq<PlannedRound>, r: PlannedRound, id: string)
    ensures PaidWeight(rounds + [r], id) == PaidWeight(rounds, id) + WeighedIn(r, id)
  {
    assert (rounds + [r])[..|rounds|] == rounds;
  }

  // ---- shares --------------------------------------------------------------------

  function CreditOf(e: Event): Option<Session.Credit> {
    if e.Hook? && e.hook.Reported? then Some(e.hook.credit) else None
  }

  predicate IsShare(es: seq<Event>, k: int) {
    0 <= k < |es| && CreditOf(es[k]).Some?
  }

  function StampOf(e: Event): int
    requires CreditOf(e).Some?
  {
    CreditOf(e).value.work.atSeconds
  }

  function UserOf(e: Event): string
    requires CreditOf(e).Some?
  {
    CreditOf(e).value.work.identity.username
  }

  /** What the share is worth to the account, whenever it was made. */
  function WorthTo(e: Event, id: string): real
    requires CreditOf(e).Some?
  {
    if CreditOf(e).value.outcome == Accepted && UserOf(e) == id then CreditOf(e).value.work.difficulty else 0.0
  }

  predicate CoversAt(r: PlannedRound, at: int) {
    r.periodStart <= at < r.periodEnd
  }

  /** The last event records a round with this second in its window. */
  ghost predicate CoversNow(algo: string, es: seq<Event>, at: int) {
    Adds(algo, es) && CoversAt(Added(algo, es), at)
  }

  /** Its plan was made when the share at k had been counted and the account was on record. */
  ghost predicate InTime(algo: string, es: seq<Event>, k: nat, id: string)
    requires Adds(algo, es)
  {
    var m := es[|es| - 1].made;
    k < m && OnRecord(AccountsOf(es[..m]), id)
  }

  /** How many rounds on record weigh the share of this account counted at event k, by its stamp. */
  ghost function TimesWeighed(algo: string, es: seq<Event>, k: nat, id: string, at: int): nat {
    if es == [] then 0
    else
      TimesWeighed(algo, es[..|es| - 1], k, id, at)
      + (if CoversNow(algo, es, at) && InTime(algo, es, k, id) then 1 else 0)
  }

  /** How many have it in their window and do not weigh it: it came after their plan. */
  ghost function TimesMissed(algo: string, es: seq<Event>, k: nat, id: string, at: int): nat {
    if es == [] then 0
    else
      TimesMissed(algo, es[..|es| - 1], k, id, at)
      + (if CoversNow(algo, es, at) && !InTime(algo, es, k, id) then 1 else 0)
  }

  /** How many rounds have this second in their window. */
  function CoverCount(rounds: seq<PlannedRound>, at: int): nat {
    if rounds == [] then 0
    else CoverCount(rounds[..|rounds| - 1], at) + (if CoversAt(rounds[|rounds| - 1], at) then 1 else 0)
  }

  lemma CoverCountSnoc(rounds: seq<PlannedRound>, r: PlannedRound, at: int)
    ensures CoverCount(rounds + [r], at) == CoverCount(rounds, at) + (if CoversAt(r, at) then 1 else 0)
  {
    assert (rounds + [r])[..|rounds|] == rounds;
  }

  /** Every round with a share's second in its window weighs it or misses it. */
  lemma {:induction false} WeighedOrMissed(algo: string, es: seq<Event>, k: nat, id: string, at: int)
    ensures TimesWeighed(algo, es, k, id, at) + TimesMissed(algo, es, k, id, at)
         == CoverCount(RoundsOf(algo, es), at)
  {
    hide Adds, Added, RoundsOf, InTime, CoversAt;
    if es == [] {
      NothingRecorded(algo);
    } else {
      var n := |es| - 1;
      WeighedOrMissed(algo, es[..n], k, id, at);
      RoundsGrow(algo, es);
      if Adds(algo, es) {
        CoverCountSnoc(RoundsOf(algo, es[..n]), Added(algo, es), at);
      }
    }
  }

  lemma NothingRecorded(algo: string)
    ensures RoundsOf(algo, []) == []
  {}

  // ---- what the rounds on record weigh ----------------------------------------------------

  /** Names of which none absorbs another, and nothing reported that no session credited. */
  ghost predicate Sound(es: seq<Event>, names: set<string>) {
    W.NoneAbsorbs(names) && W.NamesOnly(RunOf(es), names) && W.ReportsAreCredits(RunOf(es))
  }

  lemma {:induction false} RunGrows(es: seq<Event>, n: nat)
    requires n <= |es|
    ensures RunOf(es[..n]) <= RunOf(es)
  {
    if n == |es| {
      assert es[..n] == es;
    } else {
      assert es[..|es| - 1][..n] == es[..n];
      RunGrows(es[..|es| - 1], n);
    }
  }

  lemma SoundBefore(es: seq<Event>, n: nat, names: set<string>)
    requires n <= |es| && Sound(es, names)
    ensures Sound(es[..n], names)
  {
    hide W.NoneAbsorbs, W.GivenBySession, Login.Spelled;
    RunGrows(es, n);
    var before := RunOf(es[..n]);
    assert forall k :: 0 <= k < |before| ==> before[k] == RunOf(es)[k];
  }

  lemma {:induction false} AccountsAreDistinct(es: seq<Event>)
    ensures DistinctIds(AccountsOf(es))
  {
    if es != [] {
      AccountsAreDistinct(es[..|es| - 1]);
    }
  }

  /** A plan weighs an account on record at exactly the work of its own that had been counted by then in
      the window, with or without an entry. */
  lemma PlanWeighsOwnWork(algo: string, es: seq<Event>, m: nat, names: set<string>, id: string)
    requires IsMade(algo, es, m) && Sound(es[..m], names)
    ensures var plan := PlanAt(algo, es, m);
            WeighedIn(plan, id)
            == if OnRecord(AccountsOf(es[..m]), id)
               then W.MinedBy(RunOf(es[..m]), id, plan.periodStart, plan.periodEnd) else 0.0
  {
    hide Plan, W.Play, W.MinedBy, W.NoneAbsorbs, W.NamesOnly, W.ReportsAreCredits, OnRecord, AccountsOf, RunOf;
    hide WeighedIn, RoundsOf, ValidDb, DistinctIds, Rollup.Total;
    var db, request := TablesOf(algo, es[..m]), es[m].request;
    AccountsAreDistinct(es[..m]);
    W.CreditedDbIsValid(algo, RunOf(es[..m]), db);
    StalePlans.PlanNames(db, request);
    PlanIsAligned(db, request);
    PlanWeighsTheTables(db, request, id);
    W.TablesWeighOwnWork(algo, RunOf(es[..m]), names, id, request.periodStart, request.periodEnd);
  }

  // ---- weight paid is work, each share as often as it is weighed ----------------------------

  /** The account's work among the events before `upto`, each share as often as rounds weigh it. */
  ghost function WorkWeighed(algo: string, es: seq<Event>, id: string, upto: nat): real
    requires upto <= |es|
  {
    if upto == 0 then 0.0
    else
      var k := upto - 1;
      WorkWeighed(algo, es, id, k)
      + (if IsShare(es, k)
         then WorthTo(es[k], id) * TimesWeighed(algo, es, k, id, StampOf(es[k])) as real else 0.0)
  }

  ghost function WorkMissed(algo: string, es: seq<Event>, id: string, upto: nat): real
    requires upto <= |es|
  {
    if upto == 0 then 0.0
    else
      var k := upto - 1;
      WorkMissed(algo, es, id, k)
      + (if IsShare(es, k) then WorthTo(es[k], id) * TimesMissed(algo, es, k, id, StampOf(es[k])) as real else 0.0)
  }

  function WorkCovered(es: seq<Event>, rounds: seq<PlannedRound>, id: string, upto: nat): real
    requires upto <= |es|
  {
    if upto == 0 then 0.0
    else
      var k := upto - 1;
      WorkCovered(es, rounds, id, k)
      + (if IsShare(es, k) then WorthTo(es[k], id) * CoverCount(rounds, StampOf(es[k])) as real else 0.0)
  }

  lemma OnceMore(worth: real, times: nat)
    ensures worth * (times + 1) as real == worth * times as real + worth
  {
    assert (times + 1) as real == times as real + 1.0;
  }

  lemma Together(worth: real, a: nat, b: nat)
    ensures worth * (a + b) as real == worth * a as real + worth * b as real
  {
    assert (a + b) as real == a as real + b as real;
  }

  /** Whatever is recorded, an event is in time for no plan made before it. */
  lemma {:induction false} LateIsUnweighed(algo: string, es: seq<Event>, k: nat, id: string, at: int)
    requires k + 1 >= |es|
    ensures TimesWeighed(algo, es, k, id, at) == 0
  {
    hide CoversAt, AccountsOf, RoundsOf, TablesOf, Plan, Recorded, OnRecord;
    if es != [] {
      LateIsUnweighed(algo, es[..|es| - 1], k, id, at);
    }
  }

  lemma MinedByOneMore(run: seq<W.Event>, h: W.Event, id: string, start: int, end: int)
    ensures W.MinedBy(run + [h], id, start, end) == W.MinedBy(run, id, start, end)
         + (if h.Reported? then W.Worth(h.credit, id, start, end) else 0.0)
  {
    assert (run + [h])[..|run|] == run;
  }

  lemma WorthWhere(e: Event, id: string, r: PlannedRound)
    requires CreditOf(e).Some?
    ensures W.Worth(e.hook.credit, id, r.periodStart, r.periodEnd)
         == if CoversAt(r, StampOf(e)) then WorthTo(e, id) else 0.0
  {}

  /** What one more event adds to what was mined in a round's window. */
  lemma MinedUpTo(es: seq<Event>, k: nat, id: string, r: PlannedRound)
    requires k < |es|
    ensures W.MinedBy(RunOf(es[..k + 1]), id, r.periodStart, r.periodEnd)
         == W.MinedBy(RunOf(es[..k]), id, r.periodStart, r.periodEnd)
          + (if IsShare(es, k) && CoversAt(r, StampOf(es[k])) then WorthTo(es[k], id) else 0.0)
  {
    hide W.MinedBy, W.Worth, CoversAt, WorthTo;
    assert es[..k + 1][..k] == es[..k];
    if es[k].Hook? {
      MinedByOneMore(RunOf(es[..k]), es[k].hook, id, r.periodStart, r.periodEnd);
      if IsShare(es, k) {
        WorthWhere(es[k], id, r);
      }
    }
  }

  function Min(a: nat, b: nat): nat {
    if a < b then a else b
  }

  ghost function LastWeighs(algo: string, es: seq<Event>, id: string, upto: nat): real
    requires upto <= |es|
  {
    if Adds(algo, es) && OnRecord(AccountsOf(es[..es[|es| - 1].made]), id) then
      var m, r := es[|es| - 1].made, Added(algo, es);
      W.MinedBy(RunOf(es[..Min(upto, m)]), id, r.periodStart, r.periodEnd)
    else 0.0
  }

  lemma OneShareMore(algo: string, es: seq<Event>, id: string, k: nat)
    requires k + 1 < |es| && IsShare(es, k)
    ensures LastWeighs(algo, es, id, k + 1) == LastWeighs(algo, es, id, k)
      + (if CoversNow(algo, es, StampOf(es[k])) && InTime(algo, es, k, id) then WorthTo(es[k], id) else 0.0)
  {
    hide W.MinedBy, WorthTo, OnRecord, AccountsOf;
    hide CoversAt, TablesOf, RoundsOf, Plan, Recorded;
    if Adds(algo, es) {
      MinedUpTo(es, k, id, Added(algo, es));
    }
  }

  lemma OneOtherMore(algo: string, es: seq<Event>, id: string, k: nat)
    requires k + 1 < |es| && !IsShare(es, k)
    ensures LastWeighs(algo, es, id, k + 1) == LastWeighs(algo, es, id, k)
  {
    hide W.MinedBy, OnRecord, AccountsOf;
    hide CoversAt, TablesOf, RoundsOf, Plan, Recorded;
    if Adds(algo, es) {
      MinedUpTo(es, k, id, Added(algo, es));
    }
  }

  /** A round put on record weighs every share in time for it once more. */
  lemma {:induction false} OneMoreEvent(algo: string, es: seq<Event>, id: string, upto: nat)
    requires es != [] && upto < |es|
    ensures WorkWeighed(algo, es, id, upto)
         == WorkWeighed(algo, es[..|es| - 1], id, upto) + LastWeighs(algo, es, id, upto)
  {
    hide W.MinedBy, WorthTo, OnRecord, AccountsOf, Adds, Added, InTime, CoversNow, LastWeighs;
    var n := |es| - 1;
    if upto == 0 {
      NoneWeighs(algo, es, id);
    } else {
      var k := upto - 1;
      OneMoreEvent(algo, es, id, k);
      assert es[..n][k] == es[k];
      if IsShare(es, k) {
        OneShareMore(algo, es, id, k);
        OnceMore(WorthTo(es[k], id), TimesWeighed(algo, es[..n], k, id, StampOf(es[k])));
      } else {
        OneOtherMore(algo, es, id, k);
      }
    }
  }

  lemma NoneWeighs(algo: string, es: seq<Event>, id: string)
    ensures LastWeighs(algo, es, id, 0) == 0.0
  {
    hide Adds, Added, OnRecord, AccountsOf;
  }

  /** Over any history, plans recorded late and windows overlapping included: the weight an account is put
      down for in the rounds on record is the difficulty of its own accepted shares, each as often as a
      round weighs it. No weight comes from anywhere else. */
  lemma {:induction false} WeightIsWorkWeighed(algo: string, es: seq<Event>, names: set<string>, id: string)
    requires Sound(es, names)
    ensures PaidWeight(RoundsOf(algo, es), id) == WorkWeighed(algo, es, id, |es|)
  {
    hide W.MinedBy, WorthTo, OnRecord, AccountsOf, Adds, Added, Sound, RoundsOf, WeighedIn, RunOf, TimesWeighed;
    if es == [] {
      NothingRecorded(algo);
    } else {
      var n := |es| - 1;
      SoundBefore(es, n, names);
      WeightIsWorkWeighed(algo, es[..n], names, id);
      RoundsGrow(algo, es);
      OneMoreEvent(algo, es, id, n);
      if IsShare(es, n) {
        LateIsUnweighed(algo, es, n, id, StampOf(es[n]));
      }
      LastWeighsWhatItAdds(algo, es, names, id);
      if Adds(algo, es) {
        PaidWeightSnoc(RoundsOf(algo, es[..n]), Added(algo, es), id);
      }
    }
  }

  lemma LastWeighsWhatItAdds(algo: string, es: seq<Event>, names: set<string>, id: string)
    requires Sound(es, names) && es != []
    ensures LastWeighs(algo, es, id, |es| - 1) == if Adds(algo, es) then WeighedIn(Added(algo, es), id) else 0.0
  {
    hide W.MinedBy, OnRecord, AccountsOf, Sound, RoundsOf, WeighedIn, RunOf, TablesOf, Plan, Recorded;
    if Adds(algo, es) {
      var m := es[|es| - 1].made;
      SoundBefore(es, m, names);
      PlanWeighsOwnWork(algo, es, m, names, id);
    }
  }

  // ---- what it should have been ---------------------------------------------------------------

  /** What these reports credit the account with in the windows of these rounds, window by window. */
  function MinedInWindows(rounds: seq<PlannedRound>, run: seq<W.Event>, id: string): real {
    if rounds == [] then 0.0
    else
      var last := rounds[|rounds| - 1];
      MinedInWindows(rounds[..|rounds| - 1], run, id) + W.MinedBy(run, id, last.periodStart, last.periodEnd)
  }

  lemma {:induction false} NothingMined(rounds: seq<PlannedRound>, id: string)
    ensures MinedInWindows(rounds, [], id) == 0.0
  {
    if rounds != [] {
      NothingMined(rounds[..|rounds| - 1], id);
    }
  }

  lemma {:induction false} OneShareCovered(es: seq<Event>, k: nat, rounds: seq<PlannedRound>, id: string)
    requires k < |es|
    ensures MinedInWindows(rounds, RunOf(es[..k + 1]), id)
         == MinedInWindows(rounds, RunOf(es[..k]), id)
          + (if IsShare(es, k) then WorthTo(es[k], id) * CoverCount(rounds, StampOf(es[k])) as real else 0.0)
  {
    hide W.MinedBy, WorthTo, CoversAt, RunOf;
    if rounds != [] {
      var init, last := rounds[..|rounds| - 1], rounds[|rounds| - 1];
      OneShareCovered(es, k, init, id);
      MinedUpTo(es, k, id, last);
      if IsShare(es, k) {
        OnceMore(WorthTo(es[k], id), CoverCount(init, StampOf(es[k])));
      }
    }
  }

  lemma {:induction false} CoveredIsMined(es: seq<Event>, rounds: seq<PlannedRound>, id: string, upto: nat)
    requires upto <= |es|
    ensures WorkCovered(es, rounds, id, upto) == MinedInWindows(rounds, RunOf(es[..upto]), id)
  {
    hide WorthTo, CoverCount, MinedInWindows;
    if upto == 0 {
      NothingMined(rounds, id);
    } else {
      CoveredIsMined(es, rounds, id, upto - 1);
      OneShareCovered(es, upto - 1, rounds, id);
    }
  }

  lemma {:induction false} WeighedAndMissed(algo: string, es: seq<Event>, id: string, upto: nat)
    requires upto <= |es|
    ensures WorkWeighed(algo, es, id, upto) + WorkMissed(algo, es, id, upto)
         == WorkCovered(es, RoundsOf(algo, es), id, upto)
  {
    hide WorthTo, CoverCount, TimesWeighed, TimesMissed, RoundsOf;
    if upto > 0 {
      var k := upto - 1;
      WeighedAndMissed(algo, es, id, k);
      if IsShare(es, k) {
        var at := StampOf(es[k]);
        WeighedOrMissed(algo, es, k, id, at);
        Together(WorthTo(es[k], id), TimesWeighed(algo, es, k, id, at), TimesMissed(algo, es, k, id, at));
      }
    }
  }

  /** Over any history: what an account is put down for and what of its work came too late for a round with
      its time are together what it mined in the windows of the rounds on record. */
  lemma PaidAndLateIsMined(algo: string, es: seq<Event>, names: set<string>, id: string)
    requires Sound(es, names)
    ensures PaidWeight(RoundsOf(algo, es), id) + WorkMissed(algo, es, id, |es|)
         == MinedInWindows(RoundsOf(algo, es), RunOf(es), id)
  {
    hide Sound, RoundsOf, PaidWeight, WorkWeighed, WorkMissed, WorkCovered, MinedInWindows, RunOf;
    WeightIsWorkWeighed(algo, es, names, id);
    WeighedAndMissed(algo, es, id, |es|);
    CoveredIsMined(es, RoundsOf(algo, es), id, |es|);
    assert es[..|es|] == es;
  }

  /** An accepted share of the account's, with its time in the window of a round on record that was planned
      without it: before it was counted, or before the account was on record. */
  ghost predicate IsLost(algo: string, es: seq<Event>, id: string, k: int) {
    && IsShare(es, k) && CreditOf(es[k]).value.outcome == Accepted && UserOf(es[k]) == id
    && TimesMissed(algo, es, k, id, StampOf(es[k])) > 0
  }

  ghost predicate NoneLost(algo: string, es: seq<Event>, id: string, upto: nat) {
    forall k :: 0 <= k < upto ==> !IsLost(algo, es, id, k)
  }

  lemma ReportedHasWorth(es: seq<Event>, names: set<string>, k: nat)
    requires Sound(es, names) && IsShare(es, k)
    ensures CreditOf(es[k]).value.work.difficulty > 0.0
  {
    hide W.NoneAbsorbs, W.NamesOnly, W.GivenBySession;
    RunGrows(es, k + 1);
    var run := RunOf(es[..k + 1]);
    assert es[..k + 1][..k] == es[..k];
    assert run[|run| - 1] == RunOf(es)[|run| - 1] == es[k].hook;
    W.GivenHasWeight(es[k].hook.credit);
  }

  lemma OneMissed(algo: string, es: seq<Event>, names: set<string>, id: string, k: nat)
    requires Sound(es, names) && IsShare(es, k)
    ensures var missed := WorthTo(es[k], id) * TimesMissed(algo, es, k, id, StampOf(es[k])) as real;
            missed >= 0.0 && (missed > 0.0 <==> IsLost(algo, es, id, k))
  {
    hide Sound, TimesMissed;
    ReportedHasWorth(es, names, k);
    Sign(WorthTo(es[k], id), TimesMissed(algo, es, k, id, StampOf(es[k])));
  }

  lemma Sign(worth: real, times: nat)
    requires worth >= 0.0
    ensures worth * times as real >= 0.0 && (worth * times as real > 0.0 <==> worth > 0.0 && times > 0)
  {}

  lemma {:induction false} MissedIffLost(algo: string, es: seq<Event>, names: set<string>, id: string, upto: nat)
    requires Sound(es, names) && upto <= |es|
    ensures WorkMissed(algo, es, id, upto) >= 0.0
    ensures WorkMissed(algo, es, id, upto) == 0.0 <==> NoneLost(algo, es, id, upto)
  {
    hide Sound, TimesMissed, WorthTo, IsLost;
    if upto > 0 {
      var k := upto - 1;
      MissedIffLost(algo, es, names, id, k);
      if IsShare(es, k) {
        OneMissed(algo, es, names, id, k);
      } else {
        NotLost(algo, es, id, k);
      }
      assert NoneLost(algo, es, id, upto) <==> NoneLost(algo, es, id, k) && !IsLost(algo, es, id, k);
    }
  }

  lemma NotLost(algo: string, es: seq<Event>, id: string, k: nat)
    requires !IsShare(es, k)
    ensures !IsLost(algo, es, id, k)
  {}

  /** So an account is put down for all it mined in the windows of the rounds on record if and only if each
      of its accepted shares with its time in one of them had been counted, with the account on record,
      when that round was planned. */
  lemma PaidForAllIffNoneLost(algo: string, es: seq<Event>, names: set<string>, id: string)
    requires Sound(es, names)
    ensures PaidWeight(RoundsOf(algo, es), id) == MinedInWindows(RoundsOf(algo, es), RunOf(es), id)
       <==> NoneLost(algo, es, id, |es|)
  {
    hide Sound, RoundsOf, PaidWeight, WorkMissed, MinedInWindows, RunOf, NoneLost;
    PaidAndLateIsMined(algo, es, names, id);
    MissedIffLost(algo, es, names, id, |es|);
  }

  // ---- once -------------------------------------------------------------------------------------

  /** No two windows share a second. */
  ghost predicate Apart(rounds: seq<PlannedRound>) {
    forall i, j :: 0 <= i < j < |rounds| ==>
      rounds[i].periodEnd <= rounds[j].periodStart || rounds[j].periodEnd <= rounds[i].periodStart
  }

  ghost predicate AllForwards(rounds: seq<PlannedRound>) {
    forall i :: 0 <= i < |rounds| ==> rounds[i].periodStart < rounds[i].periodEnd
  }

  lemma {:induction false} RoundsAreForwards(algo: string, es: seq<Event>)
    ensures AllForwards(RoundsOf(algo, es))
  {
    hide RoundsOf;
    if es == [] {
      NothingRecorded(algo);
    } else {
      RoundsAreForwards(algo, es[..|es| - 1]);
      RoundsGrow(algo, es);
      if Adds(algo, es) {
        AddedIsForwards(algo, es);
      }
    }
  }

  lemma AddedIsForwards(algo: string, es: seq<Event>)
    requires Adds(algo, es)
    ensures Added(algo, es).periodStart < Added(algo, es).periodEnd
  {
    hide Subjects, PlanEntries, TablesOf, RoundsOf, Recorded;
  }

  lemma {:induction false} CoveredByOne(rounds: seq<PlannedRound>, i: nat, at: int)
    requires i < |rounds| && CoversAt(rounds[i], at)
    ensures CoverCount(rounds, at) >= 1
  {
    if i < |rounds| - 1 {
      CoveredByOne(rounds[..|rounds| - 1], i, at);
    }
  }

  lemma {:induction false} CoveredByTwo(rounds: seq<PlannedRound>, i: nat, j: nat, at: int)
    requires i < j < |rounds| && CoversAt(rounds[i], at) && CoversAt(rounds[j], at)
    ensures CoverCount(rounds, at) >= 2
  {
    var n := |rounds| - 1;
    if j < n {
      CoveredByTwo(rounds[..n], i, j, at);
    } else {
      CoveredByOne(rounds[..n], i, at);
    }
  }

  lemma {:induction false} CoveringRound(rounds: seq<PlannedRound>, at: int) returns (i: nat)
    requires CoverCount(rounds, at) >= 1
    ensures i < |rounds| && CoversAt(rounds[i], at)
  {
    i := |rounds| - 1;
    if !CoversAt(rounds[i], at) {
      i := CoveringRound(rounds[..i], at);
    }
  }

  lemma {:induction false} ApartCoversOnce(rounds: seq<PlannedRound>, at: int)
    requires Apart(rounds)
    ensures CoverCount(rounds, at) <= 1
  {
    if rounds != [] {
      var n := |rounds| - 1;
      ApartCoversOnce(rounds[..n], at);
      if CoversAt(rounds[n], at) && CoverCount(rounds[..n], at) == 1 {
        var i := CoveringRound(rounds[..n], at);
      }
    }
  }

  /** For any rounds with something in their windows: no second is covered twice if and only if the windows
      are pairwise apart, in whatever order they were recorded and whatever lies between them. */
  lemma NoSecondTwiceIffApart(rounds: seq<PlannedRound>)
    requires AllForwards(rounds)
    ensures (forall at :: CoverCount(rounds, at) <= 1) <==> Apart(rounds)
  {
    hide CoverCount;
    if Apart(rounds) {
      forall at
        ensures CoverCount(rounds, at) <= 1
      {
        ApartCoversOnce(rounds, at);
      }
    } else {
      var i, j :| 0 <= i < j < |rounds|
        && !(rounds[i].periodEnd <= rounds[j].periodStart || rounds[j].periodEnd <= rounds[i].periodStart);
      var at := if rounds[i].periodStart < rounds[j].periodStart then rounds[j].periodStart else rounds[i].periodStart;
      CoveredByTwo(rounds, i, j, at);
    }
  }

  /** So over any history no second is in two windows on record if and only if those windows are apart. */
  lemma EachSecondOnceIffApart(algo: string, es: seq<Event>)
    ensures (forall at :: CoverCount(RoundsOf(algo, es), at) <= 1) <==> Apart(RoundsOf(algo, es))
  {
    hide RoundsOf, CoverCount, Apart;
    RoundsAreForwards(algo, es);
    NoSecondTwiceIffApart(RoundsOf(algo, es));
  }

  /** The share at k was counted, and its account on record, before any round now on record was planned. */
  ghost predicate BeforeAll(algo: string, es: seq<Event>, k: nat, id: string) {
    forall n :: 0 < n <= |es| && Adds(algo, es[..n]) ==> InTime(algo, es[..n], k, id)
  }

  /** Such a share is weighed by every round with its second in its window. */
  lemma {:induction false} EarlyIsWeighedByAll(algo: string, es: seq<Event>, k: nat, id: string, at: int)
    requires BeforeAll(algo, es, k, id)
    ensures TimesWeighed(algo, es, k, id, at) == CoverCount(RoundsOf(algo, es), at)
  {
    hide Adds, Added, InTime, RoundsOf, CoversAt;
    if es == [] {
      NothingRecorded(algo);
    } else {
      var n := |es| - 1;
      assert es[..|es|] == es;
      assert forall i :: 0 < i <= n ==> es[..n][..i] == es[..i];
      EarlyIsWeighedByAll(algo, es[..n], k, id, at);
      RoundsGrow(algo, es);
      if Adds(algo, es) {
        CoverCountSnoc(RoundsOf(algo, es[..n]), Added(algo, es), at);
      }
    }
  }

  /** When the windows on record are pairwise apart, a share is weighed once if a round has its time and was
      planned with it, and otherwise never. */
  lemma OnceIffInTime(algo: string, es: seq<Event>, k: nat, id: string, at: int)
    requires Apart(RoundsOf(algo, es))
    ensures TimesWeighed(algo, es, k, id, at)
         == if CoverCount(RoundsOf(algo, es), at) > 0 && TimesMissed(algo, es, k, id, at) == 0 then 1 else 0
  {
    hide RoundsOf, TimesWeighed, TimesMissed, CoverCount, Apart;
    WeighedOrMissed(algo, es, k, id, at);
    ApartCoversOnce(RoundsOf(algo, es), at);
  }

  /** Each round starts where the one before it on record ended. */
  predicate Consecutive(rounds: seq<PlannedRound>) {
    forall i :: 0 < i < |rounds| ==> rounds[i].periodStart == rounds[i - 1].periodEnd
  }

  /** Such rounds neither overlap nor skip: they cover each second from the first start to the last end
      once, and no other. */
  lemma {:induction false} ConsecutiveCoversOnce(rounds: seq<PlannedRound>, at: int)
    requires rounds != [] && AllForwards(rounds) && Consecutive(rounds)
    ensures CoverCount(rounds, at)
         == if rounds[0].periodStart <= at < rounds[|rounds| - 1].periodEnd then 1 else 0
    ensures rounds[0].periodStart < rounds[|rounds| - 1].periodEnd
  {
    var n := |rounds| - 1;
    if n == 0 {
      assert CoverCount(rounds[..0], at) == 0;
    } else {
      ConsecutiveCoversOnce(rounds[..n], at);
    }
  }

  lemma {:induction false} MissedGrows(algo: string, es: seq<Event>, n: nat, k: nat, id: string, at: int)
    requires n <= |es|
    ensures TimesMissed(algo, es[..n], k, id, at) <= TimesMissed(algo, es, k, id, at)
  {
    hide CoversNow, InTime;
    if n == |es| {
      assert es[..n] == es;
    } else {
      assert es[..|es| - 1][..n] == es[..n];
      MissedGrows(algo, es[..|es| - 1], n, k, id, at);
    }
  }

  /** A share counted after a round for its time is on record is weighed by none, whatever follows, as long
      as windows stay apart. */
  lemma LateIsNeverWeighed(algo: string, es: seq<Event>, n: nat, k: nat, id: string, at: int)
    requires n <= |es| && n <= k && CoverCount(RoundsOf(algo, es[..n]), at) > 0 && Apart(RoundsOf(algo, es))
    ensures TimesWeighed(algo, es, k, id, at) == 0
  {
    hide RoundsOf, TimesWeighed, TimesMissed, CoverCount, Apart;
    WeighedOrMissed(algo, es[..n], k, id, at);
    LateIsUnweighed(algo, es[..n], k, id, at);
    MissedGrows(algo, es, n, k, id, at);
    OnceIffInTime(algo, es, k, id, at);
  }
}
