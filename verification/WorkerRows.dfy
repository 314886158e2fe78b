/** Under which row of the workers table a session's shares are counted, and so for which account. */
module WorkerRows {
  import opened Wrappers
  import opened Shares
  import opened Stratum
  import Ledger
  import LedgerProperties
  import Login
  import Rollup
  import Session
  import SessionProperties

  /** The cache of row ids, by login, and the two tables it stands before. */
  datatype State = State(cached: map<string, nat>, workers: Rollup.Workers, buckets: Rollup.Buckets)

  const INITIAL := State(map[], [], [])

  function WorkerOf(identity: WorkerIdentity): Rollup.Worker {
    Rollup.Worker(identity.username, identity.workerName)
  }

  function IdFor(s: State, identity: WorkerIdentity): nat {
    if identity.login in s.cached then s.cached[identity.login] else Rollup.Find(s.workers, WorkerOf(identity))
  }

  function AfterIdFor(s: State, identity: WorkerIdentity): State {
    if identity.login in s.cached then s
    else s.(cached := s.cached[identity.login := IdFor(s, identity)],
            workers := Rollup.AfterTouch(s.workers, WorkerOf(identity)))
  }

  function ShareOf(s: State, algo: string, credit: Session.Credit): Rollup.Share {
    Rollup.Share(IdFor(s, credit.work.identity), algo, credit.outcome, credit.work.difficulty,
                 credit.work.atSeconds, None)
  }

  function AfterReport(s: State, algo: string, credit: Session.Credit): State {
    var t := AfterIdFor(s, credit.work.identity);
    t.(buckets := Rollup.AfterShare(t.buckets, ShareOf(s, algo, credit)))
  }

  /** The hooks of every session of one process: they share the cache. */
  class Hooks {
    const algo: string
    const accounting: Rollup.Accounting
    var cached: map<string, nat>

    ghost function Model(): State
      reads this, accounting
    {
      State(cached, accounting.workers, accounting.buckets)
    }

    /** A process starts with an empty cache over the tables it finds. */
    constructor (algo: string, accounting: Rollup.Accounting)
      ensures this.algo == algo && this.accounting == accounting
      ensures Model() == State(map[], accounting.workers, accounting.buckets)
    {
      this.algo, this.accounting, cached := algo, accounting, map[];
    }

    method WorkerIdFor(identity: WorkerIdentity, nowSeconds: int) returns (id: nat)
      modifies this`cached, accounting`workers, accounting`seen
      ensures id == IdFor(old(Model()), identity)
      ensures Model() == AfterIdFor(old(Model()), identity)
    {
      if identity.login in cached {
        return cached[identity.login];
      }
      id := accounting.TouchWorker(WorkerOf(identity), nowSeconds);
      cached := cached[identity.login := id];
    }

    method OnIdentity(identity: WorkerIdentity, nowSeconds: int)
      modifies this`cached, accounting`workers, accounting`seen
      ensures Model() == AfterIdFor(old(Model()), identity)
    {
      var _ := WorkerIdFor(identity, nowSeconds);
    }

    method OnShare(credit: Session.Credit, nowSeconds: int)
      modifies this`cached, accounting
      ensures Model() == AfterReport(old(Model()), algo, credit)
    {
      var id := WorkerIdFor(credit.work.identity, nowSeconds);
      accounting.RecordShare(
        Rollup.Share(id, algo, credit.outcome, credit.work.difficulty, credit.work.atSeconds, None));
    }
  }

  // ---- runs ------------------------------------------------------------------

  /** What the hooks hear, rows that enrolment adds, and a restart, which forgets the cache. */
  datatype Event =
    | Identified(identity: WorkerIdentity)
    | Reported(credit: Session.Credit)
    | RowAdded(worker: Rollup.Worker)
    | Restarted

  function After(s: State, algo: string, e: Event): State {
    match e
    case Identified(identity) => AfterIdFor(s, identity)
    case Reported(credit) => AfterReport(s, algo, credit)
    case RowAdded(worker) => s.(workers := Rollup.AfterTouch(s.workers, worker))
    case Restarted => s.(cached := map[])
  }

  function Play(algo: string, run: seq<Event>): State {
    if run == [] then INITIAL else After(Play(algo, run[..|run| - 1]), algo, run[|run| - 1])
  }

  function IdentityIn(e: Event): Option<WorkerIdentity> {
    match e
    case Identified(identity) => Some(identity)
    case Reported(credit) => Some(credit.work.identity)
    case _ => None
  }

  /** Who first used the login since the process started. */
  function FirstUser(run: seq<Event>, login: string): Option<WorkerIdentity> {
    if run == [] || run[|run| - 1].Restarted? then None
    else
      var before, last := FirstUser(run[..|run| - 1], login), IdentityIn(run[|run| - 1]);
      if before.Some? then before
      else if last.Some? && last.value.login == login then last
      else None
  }

  // ---- whose row a share is counted under ------------------------------------------

  lemma TouchFinds(workers: Rollup.Workers, worker: Rollup.Worker)
    ensures var id, after := Rollup.Find(workers, worker), Rollup.AfterTouch(workers, worker);
            workers <= after && id < |after| && after[id] == worker
  {}

  /** The id cached for a login is the row of whoever first used it. */
  predicate Caches(s: State, login: string, first: Option<WorkerIdentity>) {
    match first
    case None => login !in s.cached
    case Some(identity) =>
      && login in s.cached && s.cached[login] < |s.workers|
      && s.workers[s.cached[login]] == WorkerOf(identity)
  }

  lemma IdentityCaches(s: State, identity: WorkerIdentity, login: string, first: Option<WorkerIdentity>)
    requires Caches(s, login, first)
    ensures Caches(AfterIdFor(s, identity), login,
                   if first.None? && identity.login == login then Some(identity) else first)
  {
    hide Rollup.Find, Rollup.AfterTouch;
    TouchFinds(s.workers, WorkerOf(identity));
  }

  lemma {:induction false} CacheIsTheFirstUsers(algo: string, run: seq<Event>, login: string)
    ensures Caches(Play(algo, run), login, FirstUser(run, login))
  {
    hide AfterIdFor, Rollup.AfterShare, Rollup.Find;
    if run != [] {
      var n := |run| - 1;
      CacheIsTheFirstUsers(algo, run[..n], login);
      var s := Play(algo, run[..n]);
      match run[n] {
        case Identified(identity) => IdentityCaches(s, identity, login, FirstUser(run[..n], login));
        case Reported(credit) => IdentityCaches(s, credit.work.identity, login, FirstUser(run[..n], login));
        case RowAdded(worker) => TouchFinds(s.workers, worker);
        case Restarted =>
      }
    }
  }

  /** A share reported after a run is counted under the row of whoever first used its login since the
      process started, or under that of its own worker when nobody had. */
  lemma CountedUnderFirstUser(algo: string, run: seq<Event>, credit: Session.Credit)
    ensures var id, after := ShareOf(Play(algo, run), algo, credit).workerId, Play(algo, run + [Reported(credit)]);
            var first := FirstUser(run, credit.work.identity.login);
            && id < |after.workers|
            && after.workers[id] == WorkerOf(if first.Some? then first.value else credit.work.identity)
  {
    hide Rollup.AfterShare;
    assert (run + [Reported(credit)])[..|run|] == run;
    CacheIsTheFirstUsers(algo, run, credit.work.identity.login);
    TouchFinds(Play(algo, run).workers, WorkerOf(credit.work.identity));
  }

  // ---- when every account is counted its own work ------------------------------------

  /** Every identity of the run belongs to one of these accounts and carries its canonical login. */
  ghost predicate NamesOnly(run: seq<Event>, accounts: set<string>) {
    forall k :: 0 <= k < |run| && IdentityIn(run[k]).Some? ==>
      IdentityIn(run[k]).value.username in accounts && Login.Spelled(IdentityIn(run[k]).value)
  }

  /** Every share reported is counted under the row of its own account and worker. */
  ghost predicate AllInOwnRow(algo: string, run: seq<Event>) {
    forall k :: 0 <= k < |run| && run[k].Reported? ==> InOwnRow(algo, run, k)
  }

  predicate InOwnRow(algo: string, run: seq<Event>, k: nat)
    requires k < |run| && run[k].Reported?
  {
    var id, workers := ShareOf(Play(algo, run[..k]), algo, run[k].credit).workerId, Play(algo, run[..k + 1]).workers;
    id < |workers| && workers[id] == WorkerOf(run[k].credit.work.identity)
  }

  /** No account's name and a dot start another's name. */
  ghost predicate NoneAbsorbs(accounts: set<string>) {
    forall u, v :: u in accounts && v in accounts ==> !Login.Absorbs(u, v)
  }

  lemma {:induction false} FirstUserIsNamed(run: seq<Event>, accounts: set<string>, login: string)
    requires NamesOnly(run, accounts) && FirstUser(run, login).Some?
    ensures var first := FirstUser(run, login).value;
            first.username in accounts && Login.Spelled(first) && first.login == login
  {
    hide Login.Spelled;
    var n := |run| - 1;
    assert forall k :: 0 <= k < n ==> run[..n][k] == run[k];
    if FirstUser(run[..n], login).Some? {
      FirstUserIsNamed(run[..n], accounts, login);
    }
  }

  lemma InOwnRowIff(algo: string, run: seq<Event>, k: nat)
    requires k < |run| && run[k].Reported?
    ensures var identity := run[k].credit.work.identity;
            InOwnRow(algo, run, k) <==>
              var first := FirstUser(run[..k], identity.login);
              first.Some? ==> WorkerOf(first.value) == WorkerOf(identity)
  {
    hide Play, ShareOf;
    CountedUnderFirstUser(algo, run[..k], run[k].credit);
    assert run[..k] + [run[k]] == run[..k + 1];
  }

  lemma OneLoginOneWorker(accounts: set<string>, a: WorkerIdentity, b: WorkerIdentity)
    requires NoneAbsorbs(accounts) && a.username in accounts && b.username in accounts
    requires Login.Spelled(a) && Login.Spelled(b) && a.login == b.login
    ensures WorkerOf(a) == WorkerOf(b)
  {
    hide Login.Absorbs, Login.Canonical;
    Login.SameLoginIff(a.username, a.workerName, b.username, b.workerName);
  }

  lemma NoneAbsorbsMeansOwnRows(algo: string, run: seq<Event>, accounts: set<string>)
    requires NoneAbsorbs(accounts) && NamesOnly(run, accounts)
    ensures AllInOwnRow(algo, run)
  {
    hide NoneAbsorbs, WorkerOf, Login.Spelled, InOwnRow;
    forall k | 0 <= k < |run| && run[k].Reported?
      ensures InOwnRow(algo, run, k)
    {
      var identity := run[k].credit.work.identity;
      var first := FirstUser(run[..k], identity.login);
      InOwnRowIff(algo, run, k);
      if first.Some? {
        assert NamesOnly(run[..k], accounts);
        FirstUserIsNamed(run[..k], accounts, identity.login);
        OneLoginOneWorker(accounts, first.value, identity);
      }
    }
  }

  /** The run that counts a share under somebody else: one of v's rigs is named, then one of u's,
      with the same login, is credited. */
  function Mixed(u: string, v: string, outcome: ShareOutcome): seq<Event>
    requires Login.Absorbs(u, v)
  {
    var rig := Login.Absorbed(u, v, "rig");
    [Identified(WorkerIdentity(v, "rig", Login.Canonical(v, "rig"))),
     Reported(Session.Credit(
       "1", Session.Work(WorkerIdentity(u, rig, Login.Canonical(u, rig)), None, 1.0, 0), outcome))]
  }

  lemma MixedIsMixed(algo: string, u: string, v: string, accounts: set<string>)
    requires Login.Absorbs(u, v) && u in accounts && v in accounts
    ensures NamesOnly(Mixed(u, v, Accepted), accounts) && !AllInOwnRow(algo, Mixed(u, v, Accepted))
  {
    var run := Mixed(u, v, Accepted);
    Login.JoinAbsorbed(u, v, "rig");
    hide InOwnRow;
    InOwnRowIff(algo, run, 1);
    assert run[..1][..0] == [];
    assert FirstUser(run[..1], Login.Canonical(v, "rig")) == Some(run[0].identity);
  }

  /** For any set of accounts: every share of theirs is counted under its own account and worker,
      in every run, if and only if no account's name and a dot start another's. */
  lemma OwnRowsIffNoneAbsorbs(algo: string, accounts: set<string>)
    ensures NoneAbsorbs(accounts) <==> forall run :: NamesOnly(run, accounts) ==> AllInOwnRow(algo, run)
  {
    hide NamesOnly, AllInOwnRow;
    if NoneAbsorbs(accounts) {
      forall run | NamesOnly(run, accounts)
        ensures AllInOwnRow(algo, run)
      {
        NoneAbsorbsMeansOwnRows(algo, run, accounts);
      }
    } else {
      var u, v :| u in accounts && v in accounts && Login.Absorbs(u, v);
      MixedIsMixed(algo, u, v, accounts);
    }
  }

  // ---- from the share hook to the weight of a plan -------------------------------------

  /** The shares recorded, with the row each was recorded under. */
  function Log(algo: string, run: seq<Event>): seq<Rollup.Share> {
    if run == [] then []
    else
      var n := |run| - 1;
      var before := Log(algo, run[..n]);
      if run[n].Reported? then before + [ShareOf(Play(algo, run[..n]), algo, run[n].credit)] else before
  }

  lemma {:induction false} BucketsHoldTheLog(algo: string, run: seq<Event>)
    ensures Play(algo, run).buckets == Rollup.Stored(Log(algo, run))
  {
    hide Rollup.AfterShare, ShareOf;
    if run != [] {
      var n := |run| - 1;
      BucketsHoldTheLog(algo, run[..n]);
      if run[n].Reported? {
        var before, log := Log(algo, run[..n]), Log(algo, run);
        assert log[..|log| - 1] == before;
      }
    }
  }

  /** The difficulty of the account's own accepted shares submitted in the window. */
  function MinedBy(run: seq<Event>, account: string, start: int, end: int): real {
    if run == [] then 0.0
    else
      var n := |run| - 1;
      MinedBy(run[..n], account, start, end)
      + (if run[n].Reported? then Worth(run[n].credit, account, start, end) else 0.0)
  }

  function Worth(credit: Session.Credit, account: string, start: int, end: int): real {
    if && credit.outcome == Accepted && credit.work.identity.username == account
       && start <= credit.work.atSeconds < end
    then credit.work.difficulty else 0.0
  }

  lemma RowsAreKept(s: State, algo: string, e: Event)
    ensures s.workers <= After(s, algo, e).workers
  {
    hide Rollup.AfterShare;
  }

  lemma {:induction false} LogWeighsOwnWork(
    algo: string, run: seq<Event>, workers: Rollup.Workers, account: string, start: int, end: int)
    requires AllInOwnRow(algo, run) && Play(algo, run).workers <= workers
    ensures Rollup.AcceptedDifficulty(Log(algo, run), Rollup.Query(workers, Rollup.OfAccount(account), start, end))
         == MinedBy(run, account, start, end)
  {
    hide After, IdFor;
    if run != [] {
      var n := |run| - 1;
      var q := Rollup.Query(workers, Rollup.OfAccount(account), start, end);
      RowsAreKept(Play(algo, run[..n]), algo, run[n]);
      OwnRowsBefore(algo, run);
      LogWeighsOwnWork(algo, run[..n], workers, account, start, end);
      if run[n].Reported? {
        assert run[..n + 1] == run && InOwnRow(algo, run, n);
        LastShareWeighs(Log(algo, run), q, run[n].credit);
      }
    }
  }

  lemma LastShareWeighs(log: seq<Rollup.Share>, q: Rollup.Query, credit: Session.Credit)
    requires log != [] && q.whose.OfAccount?
    requires var share := log[|log| - 1];
             && share.workerId < |q.workers| && q.workers[share.workerId] == WorkerOf(credit.work.identity)
             && share.outcome == credit.outcome && share.difficulty == credit.work.difficulty
             && share.atSeconds == credit.work.atSeconds
    ensures Rollup.AcceptedDifficulty(log, q)
         == Rollup.AcceptedDifficulty(log[..|log| - 1], q) + Worth(credit, q.whose.accountId, q.start, q.end)
  {}

  lemma OwnRowsBefore(algo: string, run: seq<Event>)
    requires run != [] && AllInOwnRow(algo, run)
    ensures AllInOwnRow(algo, run[..|run| - 1])
  {
    hide Play, ShareOf;
    var before := run[..|run| - 1];
    forall k | 0 <= k < |before| && before[k].Reported?
      ensures InOwnRow(algo, before, k)
    {
      assert before[..k] == run[..k] && before[..k + 1] == run[..k + 1] && InOwnRow(algo, run, k);
    }
  }

  /** Every credit reported is one some session gave. */
  ghost predicate ReportsAreCredits(run: seq<Event>) {
    forall k :: 0 <= k < |run| && run[k].Reported? ==> GivenBySession(run[k].credit)
  }

  ghost predicate GivenBySession(credit: Session.Credit) {
    exists o, es :: credit in SessionProperties.Run(o, es).credits
  }

  lemma GivenHasWeight(credit: Session.Credit)
    requires GivenBySession(credit)
    ensures credit.work.difficulty > 0.0
  {
    var o, es :| credit in SessionProperties.Run(o, es).credits;
    SessionProperties.CreditedWorkHasWeight(o, es, credit);
  }

  lemma {:induction false} LogHasWeight(algo: string, run: seq<Event>)
    requires ReportsAreCredits(run)
    ensures Rollup.PositiveDifficulties(Log(algo, run))
  {
    hide GivenBySession, Play, IdFor;
    if run != [] {
      LogHasWeight(algo, run[..|run| - 1]);
      if run[|run| - 1].Reported? {
        GivenHasWeight(run[|run| - 1].credit);
      }
    }
  }

  /** With names of which none absorbs another, what the tables hold of an account in a window on bucket
      boundaries is the difficulty of its own accepted shares in it. */
  lemma TablesWeighOwnWork(
    algo: string, run: seq<Event>, accounts: set<string>, account: string, start: int, end: int)
    requires NoneAbsorbs(accounts) && NamesOnly(run, accounts)
    requires start % Rollup.BUCKET_SECONDS == 0 && end % Rollup.BUCKET_SECONDS == 0
    ensures var tables := Play(algo, run);
            Rollup.Total(tables.buckets, Rollup.Query(tables.workers, Rollup.OfAccount(account), start, end)).difficulty
            == MinedBy(run, account, start, end)
  {
    hide Play, Log, MinedBy, NoneAbsorbs, NamesOnly, AllInOwnRow, Rollup.Total, Rollup.AcceptedDifficulty;
    BucketsHoldTheLog(algo, run);
    NoneAbsorbsMeansOwnRows(algo, run, accounts);
    LogWeighsOwnWork(algo, run, Play(algo, run).workers, account, start, end);
    Rollup.WeightIsAcceptedDifficulty(
      Log(algo, run), Rollup.Query(Play(algo, run).workers, Rollup.OfAccount(account), start, end));
  }

  /** Tables that sessions' credits left are as every plan needs them. */
  lemma CreditedDbIsValid(algo: string, run: seq<Event>, db: Ledger.Db)
    requires ReportsAreCredits(run) && LedgerProperties.DistinctIds(db.accounts)
    requires db.buckets == Play(algo, run).buckets
    ensures LedgerProperties.ValidDb(db)
  {
    hide Play, ReportsAreCredits;
    BucketsHoldTheLog(algo, run);
    LogHasWeight(algo, run);
    LedgerProperties.RecordedDbIsValid(db, Log(algo, run));
  }

  /** End to end: with names of which none absorbs another, each entry of a plan over what the
      sessions' shares left in the tables weighs the difficulty of that account's own accepted
      shares in the window, and the tables are as every plan needs them. */
  lemma PlanWeighsOwnWork(
    algo: string, run: seq<Event>, accounts: set<string>, db: Ledger.Db, request: Ledger.Request,
    e: Ledger.PlannedEntry)
    requires NoneAbsorbs(accounts) && NamesOnly(run, accounts) && ReportsAreCredits(run)
    requires LedgerProperties.DistinctIds(db.accounts)
    requires db.workers == Play(algo, run).workers && db.buckets == Play(algo, run).buckets
    requires Ledger.Plan(db, request).Ok? && e in Ledger.Plan(db, request).value.entries
    ensures LedgerProperties.ValidDb(db)
    ensures e.weight == MinedBy(run, e.accountId, request.periodStart, request.periodEnd)
  {
    hide Ledger.Plan, Play, MinedBy, NoneAbsorbs, NamesOnly, ReportsAreCredits, Rollup.Total;
    CreditedDbIsValid(algo, run, db);
    LedgerProperties.PlanIsAligned(db, request);
    LedgerProperties.PlanPaysTheAccount(db, request, e);
    TablesWeighOwnWork(algo, run, accounts, e.accountId, request.periodStart, request.periodEnd);
  }

  // ---- what one session's own guard lets through ----------------------------------------

  /** A session ends on a second login exactly when it is spelled differently: a worker of another
      account with the same login is forwarded as the first, and what it mines is the first's. */
  lemma GuardComparesLogins(
    o: Session.Options, s: Session.State, request: Message, first: WorkerIdentity, second: WorkerIdentity)
    requires request.Request? && s.identity == Some(first) && Login.Spelled(first) && Login.Spelled(second)
    ensures var t := Session.AfterAuthorize(o, s, request, Known(second));
            var same := WorkerOf(first) == WorkerOf(second)
                        || (Login.Absorbs(first.username, second.username)
                            && first.workerName == Login.Absorbed(first.username, second.username, second.workerName))
                        || (Login.Absorbs(second.username, first.username)
                            && second.workerName == Login.Absorbed(second.username, first.username, first.workerName));
            && t.identity == Some(first)
            && t == if same then Session.AfterForward(o, s, Session.AuthorizeUpstream(o, request))
                    else Session.AfterEnd(s)
  {
    hide Session.AuthorizeUpstream, Login.Canonical, Login.Absorbs, Login.Absorbed;
    Login.SameLoginIff(first.username, first.workerName, second.username, second.workerName);
  }
}
