/** Keys stay with their accounts, and worker ids with their rows, over every run of the control
    plane. */
module ControlPlaneKeys {
  import opened Wrappers
  import opened OrderedMap
  import opened Expiring
  import opened Stratum
  import opened ControlPlane
  import opened ControlPlaneStores
  import SessionTokens
  import Registry
  import Rollup

  // ---- keys stay where they are ------------------------------------------------------------

  ghost predicate SameBinding(a: Registry.KeyRow, b: Registry.KeyRow) {
    a.accountId == b.accountId && a.workerId == b.workerId && a.workerName == b.workerName
  }

  lemma StepKeepsKeys(cfg: Config, crypto: Crypto, s: State, e: Event, key: string)
    requires key in s.tables.keys
    ensures var after := After(cfg, crypto, s, e).tables.keys;
            key in after && SameBinding(after[key], s.tables.keys[key])
  {
    hide AttestReply, BindReply, AfterIssue, SessionTokens.AfterResolve, Remove;
  }

  /** A key bound to an account stays bound to it, in every later state of the run. */
  lemma {:induction false} KeyStays(cfg: Config, crypto: Crypto, run: seq<Event>, n: nat, key: string)
    requires n <= |run| && key in Play(cfg, crypto, run[..n]).tables.keys
    ensures var after := Play(cfg, crypto, run).tables.keys;
            key in after && SameBinding(after[key], Play(cfg, crypto, run[..n]).tables.keys[key])
  {
    hide After;
    if n == |run| {
      assert run[..n] == run;
    } else {
      var m := |run| - 1;
      assert run[..m][..n] == run[..n];
      KeyStays(cfg, crypto, run[..m], n, key);
      StepKeepsKeys(cfg, crypto, Play(cfg, crypto, run[..m]), run[m], key);
    }
  }

  // ---- a worker id is the row its work is counted under --------------------------------------

  predicate NamesRow(workers: Rollup.Workers, workerId: nat, accountId: string, workerName: string) {
    workerId < |workers| && workers[workerId] == Rollup.Worker(accountId, workerName)
  }

  ghost predicate KeysNamed(t: Registry.Tables) {
    forall key :: key in t.keys ==>
      NamesRow(t.workers, t.keys[key].workerId, t.keys[key].accountId, t.keys[key].workerName)
  }

  ghost predicate AllNamed(s: State) {
    && KeysNamed(s.tables)
    && (forall i :: 0 <= i < |s.tokens| ==>
          var subject := s.tokens[i].value.value;
          NamesRow(s.tables.workers, subject.workerId, subject.accountId, subject.workerName))
  }

  lemma RegisterNamesKeys(t: Registry.Tables, publicKey: string, accountId: string, workerName: string, now: int)
    requires KeysNamed(t)
    ensures var after := Registry.AfterRegister(t, publicKey, accountId, workerName, now);
            t.workers <= after.workers && KeysNamed(after)
  {}

  /** Worker rows are only ever added, and a step adds keys that name their rows. */
  lemma StepNamesKeys(cfg: Config, crypto: Crypto, s: State, e: Event)
    requires KeysNamed(s.tables)
    ensures var after := After(cfg, crypto, s, e).tables; s.tables.workers <= after.workers && KeysNamed(after)
  {
    hide AttestReply, BindReply, AfterIssue, SessionTokens.AfterResolve, Remove, Registry.AfterRegister;
    if e.RegisterKey? {
      RegisterNamesKeys(s.tables, e.publicKey, e.accountId, e.workerName, e.at);
    }
  }

  lemma TokensComeFrom(cfg: Config, crypto: Crypto, s: State, e: Event)
    requires Tidy(cfg, s)
    ensures forall t :: t in After(cfg, crypto, s, e).tokens ==>
      || (exists u :: u in s.tokens && u.value.value == t.value.value)
      || (exists key :: key in s.tables.keys && t.value.value == SubjectOf(s.tables.keys[key]))
  {
    hide AttestReply, BindReply, AfterIssue, SessionTokens.AfterResolve;
    match e {
      case Attest(attestation, _, token, at) =>
        if Grants(cfg, crypto, s, e) {
          GrantMeans(cfg, crypto, s, e);
          var subject := SubjectOf(s.tables.keys[attestation.value.publicKey]);
          var _ := IssueShape(s.tokens, token, Timed(subject, at + cfg.sessionTtl), at, cfg.maxSessions);
        }
      case LogIn(raw, at) =>
        if raw.JText? {
          ResolvedCameFrom(s.tokens, raw.text, at, cfg.sessionTtl);
        }
      case _ =>
    }
  }

  lemma ResolvedCameFrom(m: SessionTokens.Tokens, token: string, now: int, ttl: int)
    requires Distinct(m)
    ensures forall t :: t in SessionTokens.AfterResolve(m, token, now, ttl) ==>
      exists u :: u in m && u.value.value == t.value.value
  {
    RemoveKeeps(m, token);
    GetIsMembership(m, token);
    var subject := SessionTokens.Resolved(m, token, now);
    if subject.Some? {
      PutAdds(Remove(m, token), token, Timed(subject.value, now + ttl));
    }
  }

  lemma StepKeepsNames(cfg: Config, crypto: Crypto, s: State, e: Event)
    requires Tidy(cfg, s) && AllNamed(s)
    ensures AllNamed(After(cfg, crypto, s, e))
  {
    StepNamesKeys(cfg, crypto, s, e);
    TokensComeFrom(cfg, crypto, s, e);
    hide After;
    var after := After(cfg, crypto, s, e);
    forall i | 0 <= i < |after.tokens|
      ensures var subject := after.tokens[i].value.value;
              NamesRow(after.tables.workers, subject.workerId, subject.accountId, subject.workerName)
    {
      assert after.tokens[i] in after.tokens;
    }
  }

  /** In every reachable state each key, and each live or expired session, carries the id of the
      very row of its account and worker. Under which row shares are counted is another matter: see
      `WorkerRows`. */
  lemma {:induction false} WorkerIdsNameTheirRows(cfg: Config, crypto: Crypto, run: seq<Event>)
    ensures AllNamed(Play(cfg, crypto, run))
  {
    hide After;
    if run != [] {
      WorkerIdsNameTheirRows(cfg, crypto, run[..|run| - 1]);
      StoresStayTidy(cfg, crypto, run[..|run| - 1]);
      StepKeepsNames(cfg, crypto, Play(cfg, crypto, run[..|run| - 1]), run[|run| - 1]);
    }
  }
}
