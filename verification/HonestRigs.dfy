/** A rig that does its part gets in and stays in, whatever happens in between that does not crowd
    it out. */
module HonestRigs {
  import opened Wrappers
  import opened OrderedMap
  import opened Expiring
  import opened SignedEncoding
  import opened Stratum
  import opened ControlPlane
  import opened ControlPlaneKeys
  import opened ControlPlaneStores
  import Challenges
  import SessionTokens
  import Login

  function PlayOn(cfg: Config, crypto: Crypto, s: State, run: seq<Event>): State {
    if run == [] then s
    else After(cfg, crypto, PlayOn(cfg, crypto, s, run[..|run| - 1]), run[|run| - 1])
  }

  lemma {:induction false} PlayGoesOn(cfg: Config, crypto: Crypto, run: seq<Event>, more: seq<Event>)
    ensures Play(cfg, crypto, run + more) == PlayOn(cfg, crypto, Play(cfg, crypto, run), more)
  {
    hide After;
    if more == [] {
      assert run + more == run;
    } else {
      PlayGoesOn(cfg, crypto, run, more[..|more| - 1]);
      assert (run + more)[..|run + more| - 1] == run + more[..|more| - 1];
    }
  }

  // ---- a challenge that is waited for ---------------------------------------------------

  function Issued(e: Event): set<string> {
    if e.Challenge? && e.publicKey != "" then {e.nonce} else {}
  }

  /** The nonces handed out in these events. */
  function IssuedIn(run: seq<Event>): set<string> {
    if run == [] then {} else IssuedIn(run[..|run| - 1]) + Issued(run[|run| - 1])
  }

  /** How many challenges these events ask for. */
  function AsksIn(run: seq<Event>): nat {
    if run == [] then 0 else AsksIn(run[..|run| - 1]) + |Issued(run[|run| - 1])|
  }

  lemma {:induction false} IssuedAreFew(run: seq<Event>)
    ensures |IssuedIn(run)| <= AsksIn(run)
  {
    if run != [] {
      IssuedAreFew(run[..|run| - 1]);
      UnionIsFew(IssuedIn(run[..|run| - 1]), Issued(run[|run| - 1]));
    }
  }

  lemma UnionIsFew(a: set<string>, b: set<string>)
    ensures |a + b| <= |a| + |b|
  {
    assert a + b == a + (b - a);
    assert b == (b - a) + (b * a);
  }

  /** The event neither tries the nonce nor hands it out again, and comes no later than this. */
  predicate LeavesNonce(e: Event, nonce: string, until: int) {
    NonceOf(e) != Some(nonce) && nonce !in Issued(e) && e.at <= until
  }

  ghost predicate AllLeaveNonce(run: seq<Event>, nonce: string, until: int) {
    forall k :: 0 <= k < |run| ==> LeavesNonce(run[k], nonce, until)
  }

  lemma StepSparesChallenge(
    cfg: Config, crypto: Crypto, s: State, e: Event, nonce: string, entry: Timed<string>, until: int,
    behind: set<string>)
    requires Tidy(cfg, s) && StandsBefore(s.challenges, nonce, entry, behind)
    requires LeavesNonce(e, nonce, until) && until < entry.expiresAt
    requires Issued(e) != {} ==> |behind| + 1 < cfg.maxOutstanding
    ensures StandsBefore(After(cfg, crypto, s, e).challenges, nonce, entry, behind + Issued(e))
  {
    hide AttestReply, BindReply, AfterIssue, SessionTokens.AfterResolve, Remove, StandsBefore;
    assert behind + {} == behind;
    match e {
      case Challenge(publicKey, issued, at) =>
        if publicKey != "" {
          IssueSpares(s.challenges, nonce, entry, behind, issued, Timed(publicKey, at + cfg.challengeTtl), at,
                      cfg.maxOutstanding);
        }
      case Attest(attestation, signature, _, _) =>
        if attestation.Some? && signature.Some? {
          RemoveSpares(s.challenges, nonce, entry, behind, attestation.value.nonce);
        }
      case BindWallet(binding, signature, _) =>
        if binding.Some? && signature.Some? {
          RemoveSpares(s.challenges, nonce, entry, behind, binding.value.nonce);
        }
      case _ =>
    }
  }

  /** A nonce waits to be spent as long as it is in time, nobody tries it, and fewer others are asked
      for than the store holds. */
  lemma {:induction false} ChallengeWaits(
    cfg: Config, crypto: Crypto, s: State, run: seq<Event>, nonce: string, entry: Timed<string>, until: int)
    requires Tidy(cfg, s) && StandsBefore(s.challenges, nonce, entry, {}) && until < entry.expiresAt
    requires AllLeaveNonce(run, nonce, until) && AsksIn(run) < AtLeastOne(cfg.maxOutstanding)
    ensures Tidy(cfg, PlayOn(cfg, crypto, s, run))
    ensures StandsBefore(PlayOn(cfg, crypto, s, run).challenges, nonce, entry, IssuedIn(run))
  {
    hide After, StandsBefore, Tidy, LeavesNonce, Issued;
    if run != [] {
      var n := |run| - 1;
      ChallengeWaits(cfg, crypto, s, run[..n], nonce, entry, until);
      IssuedAreFew(run[..n]);
      StepKeepsTidy(cfg, crypto, PlayOn(cfg, crypto, s, run[..n]), run[n]);
      StepSparesChallenge(cfg, crypto, PlayOn(cfg, crypto, s, run[..n]), run[n], nonce, entry, until,
                          IssuedIn(run[..n]));
    }
  }

  // ---- a session that is waited on ----------------------------------------------------------

  /** The token an event puts at the end of the store: by granting it, or by using it while it is good.
      An attestation refused or a login by a dead token puts none there. */
  function Granted(cfg: Config, crypto: Crypto, s: State, e: Event): set<string> {
    if Grants(cfg, crypto, s, e) then {e.token} else {}
  }

  function Used(s: State, e: Event): set<string> {
    if && e.LogIn? && e.raw.JText? && Login.IsSessionToken(e.raw.text)
       && SessionTokens.Resolved(s.tokens, e.raw.text, e.at).Some?
    then {e.raw.text} else {}
  }

  function UsedIn(cfg: Config, crypto: Crypto, s: State, run: seq<Event>): set<string> {
    if run == [] then {}
    else
      var before, last := run[..|run| - 1], run[|run| - 1];
      UsedIn(cfg, crypto, s, before) + Used(PlayOn(cfg, crypto, s, before), last)
  }

  function GrantedIn(cfg: Config, crypto: Crypto, s: State, run: seq<Event>): set<string> {
    if run == [] then {}
    else
      var before, last := run[..|run| - 1], run[|run| - 1];
      GrantedIn(cfg, crypto, s, before) + Granted(cfg, crypto, PlayOn(cfg, crypto, s, before), last)
  }

  /** How many sessions these events grant. */
  function GrantsIn(cfg: Config, crypto: Crypto, s: State, run: seq<Event>): nat {
    if run == [] then 0
    else
      var before, last := run[..|run| - 1], run[|run| - 1];
      GrantsIn(cfg, crypto, s, before) + |Granted(cfg, crypto, PlayOn(cfg, crypto, s, before), last)|
  }

  lemma {:induction false} GrantedAreFew(cfg: Config, crypto: Crypto, s: State, run: seq<Event>)
    ensures |GrantedIn(cfg, crypto, s, run)| <= GrantsIn(cfg, crypto, s, run)
  {
    hide Granted, PlayOn;
    if run != [] {
      var before, last := run[..|run| - 1], run[|run| - 1];
      GrantedAreFew(cfg, crypto, s, before);
      UnionIsFew(GrantedIn(cfg, crypto, s, before), Granted(cfg, crypto, PlayOn(cfg, crypto, s, before), last));
    }
  }

  /** The event is no grant or use of this token, and comes no later than this. */
  predicate LeavesToken(e: Event, token: string, until: int) {
    !(e.Attest? && e.token == token) && e != LogIn(JText(token), e.at) && e.at <= until
  }

  ghost predicate AllLeaveToken(run: seq<Event>, token: string, until: int) {
    forall k :: 0 <= k < |run| ==> LeavesToken(run[k], token, until)
  }

  /** The sessions these events grant, and those they use, leave room for one more. */
  predicate FewOthers(cfg: Config, crypto: Crypto, s: State, run: seq<Event>) {
    var grants := GrantsIn(cfg, crypto, s, run);
    grants > 0 ==> |UsedIn(cfg, crypto, s, run)| + grants < cfg.maxSessions
  }

  lemma StepSparesToken(
    cfg: Config, crypto: Crypto, s: State, e: Event, token: string, entry: Timed<SessionTokens.Subject>,
    until: int, behind: set<string>)
    requires Tidy(cfg, s) && StandsBefore(s.tokens, token, entry, behind)
    requires LeavesToken(e, token, until) && until < entry.expiresAt
    requires Grants(cfg, crypto, s, e) ==> |behind| + 1 < cfg.maxSessions
    ensures StandsBefore(After(cfg, crypto, s, e).tokens, token, entry,
                         behind + Granted(cfg, crypto, s, e) + Used(s, e))
  {
    hide AttestReply, BindReply, AfterIssue, SessionTokens.AfterResolve, SessionTokens.Resolved, Remove, StandsBefore;
    assert behind + {} == behind;
    match e {
      case Attest(attestation, _, issued, at) =>
        if Grants(cfg, crypto, s, e) {
          GrantMeans(cfg, crypto, s, e);
          var subject := SubjectOf(s.tables.keys[attestation.value.publicKey]);
          IssueSpares(s.tokens, token, entry, behind, issued, Timed(subject, at + cfg.sessionTtl), at,
                      cfg.maxSessions);
        }
      case LogIn(raw, at) =>
        if raw.JText? && Login.IsSessionToken(raw.text) {
          ResolveSpares(s.tokens, token, entry, behind, raw.text, at, cfg.sessionTtl);
        }
      case _ =>
    }
  }

  /** Another token's login moves that token behind this one if it is good, and otherwise nothing. */
  lemma ResolveSpares(
    m: SessionTokens.Tokens, token: string, entry: Timed<SessionTokens.Subject>, behind: set<string>,
    used: string, now: int, ttl: int)
    requires StandsBefore(m, token, entry, behind) && used != token
    ensures StandsBefore(SessionTokens.AfterResolve(m, used, now, ttl), token, entry,
                         if SessionTokens.Resolved(m, used, now).Some? then behind + {used} else behind)
  {
    hide StandsBefore, Get, Put, Remove;
    RemoveSpares(m, token, entry, behind, used);
    var subject := SessionTokens.Resolved(m, used, now);
    if subject.Some? {
      PutSpares(Remove(m, used), token, entry, behind, used, Timed(subject.value, now + ttl));
    }
  }

  /** A token at the end of the store keeps its entry as long as it is in time and fewer others are
      granted or used than the store holds. */
  lemma {:induction false} SessionWaits(
    cfg: Config, crypto: Crypto, s: State, run: seq<Event>, token: string, entry: Timed<SessionTokens.Subject>,
    until: int)
    requires Tidy(cfg, s) && StandsBefore(s.tokens, token, entry, {}) && until < entry.expiresAt
    requires AllLeaveToken(run, token, until) && FewOthers(cfg, crypto, s, run)
    ensures Tidy(cfg, PlayOn(cfg, crypto, s, run))
    ensures StandsBefore(PlayOn(cfg, crypto, s, run).tokens, token, entry,
                         UsedIn(cfg, crypto, s, run) + GrantedIn(cfg, crypto, s, run))
  {
    hide After, StandsBefore, Tidy, LeavesToken, Used, Grants;
    if run == [] {
      assert UsedIn(cfg, crypto, s, run) + GrantedIn(cfg, crypto, s, run) == {};
    } else {
      var before, last := run[..|run| - 1], run[|run| - 1];
      MoreUsed(cfg, crypto, s, run);
      SessionWaits(cfg, crypto, s, before, token, entry, until);
      var used, granted := UsedIn(cfg, crypto, s, before), GrantedIn(cfg, crypto, s, before);
      GrantedAreFew(cfg, crypto, s, before);
      UnionIsFew(used, granted);
      var t := PlayOn(cfg, crypto, s, before);
      StepKeepsTidy(cfg, crypto, t, last);
      StepSparesToken(cfg, crypto, t, last, token, entry, until, used + granted);
      assert used + granted + Granted(cfg, crypto, t, last) + Used(t, last)
          == UsedIn(cfg, crypto, s, run) + GrantedIn(cfg, crypto, s, run);
    }
  }

  lemma MoreUsed(cfg: Config, crypto: Crypto, s: State, run: seq<Event>)
    requires run != []
    ensures |UsedIn(cfg, crypto, s, run[..|run| - 1])| <= |UsedIn(cfg, crypto, s, run)|
    ensures GrantsIn(cfg, crypto, s, run[..|run| - 1]) <= GrantsIn(cfg, crypto, s, run)
  {
    hide Used, Granted, PlayOn;
    var init := run[..|run| - 1];
    var before, last := UsedIn(cfg, crypto, s, init), Used(PlayOn(cfg, crypto, s, init), run[|run| - 1]);
    assert before + last == before + (last - before);
  }

  // ---- the main results ---------------------------------------------------------------------

  lemma {:induction false} NewNonceIsNotThere(cfg: Config, crypto: Crypto, run: seq<Event>, nonce: string)
    requires forall k :: 0 <= k < |run| && run[k].Challenge? ==> run[k].nonce != nonce
    ensures !Has(Play(cfg, crypto, run).challenges, nonce)
  {
    hide Play, Get;
    if Has(Play(cfg, crypto, run).challenges, nonce) {
      var c := ChallengeWasIssued(cfg, crypto, run, nonce);
      assert false;
    }
  }

  lemma NewTokenIsNotThere(cfg: Config, crypto: Crypto, run: seq<Event>, token: string)
    requires forall k :: 0 <= k < |run| && run[k].Attest? ==> run[k].token != token
    ensures !Has(Play(cfg, crypto, run).tokens, token)
  {
    hide Play, Get;
    if Has(Play(cfg, crypto, run).tokens, token) {
      var i := SessionWasGranted(cfg, crypto, run, token);
      assert false;
    }
  }

  /** A rig whose key is bound asked for a challenge, in any reachable state; then anything else
      happened for a while that neither tried its nonce nor crowded it out. */
  lemma AnswerIsGranted(
    cfg: Config, crypto: Crypto, run: seq<Event>, waiting: seq<Event>, a: Attestation, signature: string,
    token: string, asked: int, answered: int)
    requires var keys := Play(cfg, crypto, run).tables.keys;
             a.publicKey in keys && keys[a.publicKey].accountId == a.accountId
    requires a.publicKey != "" && VerifyAttestation(crypto, a, signature)
    requires forall k :: 0 <= k < |run| && run[k].Challenge? ==> run[k].nonce != a.nonce
    requires AllLeaveNonce(waiting, a.nonce, answered) && AsksIn(waiting) < AtLeastOne(cfg.maxOutstanding)
    requires answered < asked + cfg.challengeTtl
    requires !IsStale(crypto, answered, a.issuedAt)
    ensures var before := Play(cfg, crypto, run + [Challenge(a.publicKey, a.nonce, asked)] + waiting);
            && Tidy(cfg, before) && a.publicKey in before.tables.keys
            && SameBinding(before.tables.keys[a.publicKey], Play(cfg, crypto, run).tables.keys[a.publicKey])
            && Grants(cfg, crypto, before, Attest(Some(a), Some(signature), token, answered))
  {
    hide VerifyAttestation, AfterIssue, Get, Play, PlayOn, StandsBefore, AllLeaveNonce, After;
    var ask, entry := Challenge(a.publicKey, a.nonce, asked), Timed(a.publicKey, asked + cfg.challengeTtl);
    var s := Play(cfg, crypto, run);
    StoresStayTidy(cfg, crypto, run);
    NewNonceIsNotThere(cfg, crypto, run, a.nonce);
    IssueStandsLast(s.challenges, a.nonce, entry, asked, cfg.maxOutstanding);
    OneMore(cfg, crypto, run, ask);
    AskIsIssued(cfg, crypto, s, ask);
    StoresStayTidy(cfg, crypto, run + [ask]);
    ChallengeWaits(cfg, crypto, Play(cfg, crypto, run + [ask]), waiting, a.nonce, entry, answered);
    PlayGoesOn(cfg, crypto, run + [ask], waiting);
    var before := Play(cfg, crypto, run + [ask] + waiting);
    StandingIsGot(before.challenges, a.nonce, entry, IssuedIn(waiting));
    assert (run + [ask] + waiting)[..|run|] == run;
    KeyStays(cfg, crypto, run + [ask] + waiting, |run|, a.publicKey);
  }

  lemma AskIsIssued(cfg: Config, crypto: Crypto, s: State, ask: Event)
    requires ask.Challenge? && ask.publicKey != ""
    ensures After(cfg, crypto, s, ask).challenges
         == AfterIssue(s.challenges, ask.nonce, Timed(ask.publicKey, ask.at + cfg.challengeTtl), ask.at,
                       cfg.maxOutstanding)
  {}

  lemma OneMore(cfg: Config, crypto: Crypto, run: seq<Event>, e: Event)
    ensures Play(cfg, crypto, run + [e]) == After(cfg, crypto, Play(cfg, crypto, run), e)
  {
    hide After;
    assert (run + [e])[..|run|] == run;
  }

  lemma GrantIsIssued(cfg: Config, crypto: Crypto, s: State, e: Event)
    requires Grants(cfg, crypto, s, e)
    ensures e.Attest? && e.attestation.Some? && e.attestation.value.publicKey in s.tables.keys
    ensures After(cfg, crypto, s, e).tokens
         == AfterIssue(s.tokens, e.token,
                       Timed(SubjectOf(s.tables.keys[e.attestation.value.publicKey]), e.at + cfg.sessionTtl), e.at,
                       cfg.maxSessions)
  {
    hide VerifyAttestation, AfterIssue, Challenges.Spendable;
  }

  /** A session at the end of the store still stands for its subject after these events. */
  lemma TokenResolves(
    cfg: Config, crypto: Crypto, run: seq<Event>, working: seq<Event>, token: string,
    entry: Timed<SessionTokens.Subject>, used: int)
    requires Login.IsSessionToken(token) && used < entry.expiresAt
    requires StandsBefore(Play(cfg, crypto, run).tokens, token, entry, {})
    requires AllLeaveToken(working, token, used) && FewOthers(cfg, crypto, Play(cfg, crypto, run), working)
    ensures var subject := entry.value;
            LoginReply(cfg, Play(cfg, crypto, run + working), JText(token), used)
            == Known(WorkerIdentity(subject.accountId, subject.workerName,
                                    Login.Canonical(subject.accountId, subject.workerName)))
  {
    hide Play, PlayOn, StandsBefore, AllLeaveToken, FewOthers, Get, Login.Canonical;
    StoresStayTidy(cfg, crypto, run);
    SessionWaits(cfg, crypto, Play(cfg, crypto, run), working, token, entry, used);
    PlayGoesOn(cfg, crypto, run, working);
    var s := Play(cfg, crypto, run);
    StandingIsGot(Play(cfg, crypto, run + working).tokens, token, entry,
                  UsedIn(cfg, crypto, s, working) + GrantedIn(cfg, crypto, s, working));
  }

  /** In any reachable state, a rig whose key is bound asks for a challenge, answers it in time with a
      signature that verifies, and the token it is given logs it in as its account and worker for a
      whole lifetime: whatever else happens while it waits, as long as nobody else tries its nonce and
      fewer challenges are asked for than the store holds, and whatever else happens once it is in, as
      long as fewer sessions are granted and used than the store holds. */
  lemma HonestRigLogsIn(
    cfg: Config, crypto: Crypto, run: seq<Event>, waiting: seq<Event>, working: seq<Event>,
    a: Attestation, signature: string, token: string, asked: int, answered: int, used: int)
    requires var keys := Play(cfg, crypto, run).tables.keys;
             a.publicKey in keys && keys[a.publicKey].accountId == a.accountId
    requires a.publicKey != "" && VerifyAttestation(crypto, a, signature) && Login.IsSessionToken(token)
    requires forall k :: 0 <= k < |run| && run[k].Challenge? ==> run[k].nonce != a.nonce
    requires forall k :: 0 <= k < |run + waiting| && (run + waiting)[k].Attest? ==> (run + waiting)[k].token != token
    requires AllLeaveNonce(waiting, a.nonce, answered) && AsksIn(waiting) < AtLeastOne(cfg.maxOutstanding)
    requires AllLeaveToken(working, token, used)
    requires FewOthers(cfg, crypto, Play(cfg, crypto, run + [Challenge(a.publicKey, a.nonce, asked)] + waiting
                                                      + [Attest(Some(a), Some(signature), token, answered)]), working)
    requires answered < asked + cfg.challengeTtl && used < answered + cfg.sessionTtl
    requires !IsStale(crypto, answered, a.issuedAt)
    ensures var whole := run + [Challenge(a.publicKey, a.nonce, asked)] + waiting
                         + [Attest(Some(a), Some(signature), token, answered)] + working;
            var workerName := Play(cfg, crypto, run).tables.keys[a.publicKey].workerName;
            && LoginReply(cfg, Play(cfg, crypto, whole), JText(token), used)
            == Known(WorkerIdentity(a.accountId, workerName, Login.Canonical(a.accountId, workerName)))
  {
    hide VerifyAttestation, AfterIssue, Get, Play, StandsBefore, AllLeaveNonce, AllLeaveToken, FewOthers, After;
    hide Login.Canonical, LoginReply, Grants, Tidy;
    var ask, answer := Challenge(a.publicKey, a.nonce, asked), Attest(Some(a), Some(signature), token, answered);
    var before := run + [ask] + waiting;
    AnswerIsGranted(cfg, crypto, run, waiting, a, signature, token, asked, answered);
    forall k | 0 <= k < |before| && before[k].Attest?
      ensures before[k].token != token
    {
      assert before[k] == if k < |run| then (run + waiting)[k] else if k == |run| then ask else (run + waiting)[k - 1];
    }
    NewTokenIsNotThere(cfg, crypto, before, token);
    GrantLogsIn(cfg, crypto, before, working, answer, used);
  }

  lemma GrantLogsIn(
    cfg: Config, crypto: Crypto, before: seq<Event>, working: seq<Event>, answer: Event, used: int)
    requires Grants(cfg, crypto, Play(cfg, crypto, before), answer)
    requires !Has(Play(cfg, crypto, before).tokens, answer.token) && Login.IsSessionToken(answer.token)
    requires AllLeaveToken(working, answer.token, used)
    requires FewOthers(cfg, crypto, Play(cfg, crypto, before + [answer]), working)
    requires used < answer.at + cfg.sessionTtl
    ensures answer.attestation.Some?
    ensures var keys, key := Play(cfg, crypto, before).tables.keys, answer.attestation.value.publicKey;
            key in keys && LoginReply(cfg, Play(cfg, crypto, before + [answer] + working), JText(answer.token), used)
            == Known(WorkerIdentity(keys[key].accountId, keys[key].workerName,
                                    Login.Canonical(keys[key].accountId, keys[key].workerName)))
  {
    hide AfterIssue, Get, Play, StandsBefore, AllLeaveToken, FewOthers, After, Login.Canonical, LoginReply, Grants;
    var s := Play(cfg, crypto, before);
    StoresStayTidy(cfg, crypto, before);
    GrantIsIssued(cfg, crypto, s, answer);
    var subject := SubjectOf(s.tables.keys[answer.attestation.value.publicKey]);
    var entry := Timed(subject, answer.at + cfg.sessionTtl);
    IssueStandsLast(s.tokens, answer.token, entry, answer.at, cfg.maxSessions);
    OneMore(cfg, crypto, before, answer);
    TokenResolves(cfg, crypto, before + [answer], working, answer.token, entry, used);
  }

  /** Using a token renews it: whenever one resolves, in any reachable state, it goes on standing for
      the same worker for a lifetime from then, under the same proviso. A rig that logs in once in every
      lifetime never has to attest again. */
  lemma UsedTokenLivesOn(
    cfg: Config, crypto: Crypto, run: seq<Event>, working: seq<Event>, token: string, identity: WorkerIdentity,
    at: int, used: int)
    requires Login.IsSessionToken(token)
    requires LoginReply(cfg, Play(cfg, crypto, run), JText(token), at) == Known(identity)
    requires AllLeaveToken(working, token, used) && used < at + cfg.sessionTtl
    requires FewOthers(cfg, crypto, Play(cfg, crypto, run + [LogIn(JText(token), at)]), working)
    ensures LoginReply(cfg, Play(cfg, crypto, run + [LogIn(JText(token), at)] + working), JText(token), used)
         == Known(identity)
  {
    hide Play, StandsBefore, AllLeaveToken, FewOthers, Get, Put, Remove, Login.Canonical;
    var s := Play(cfg, crypto, run);
    var subject := SessionTokens.Resolved(s.tokens, token, at).value;
    StoresStayTidy(cfg, crypto, run);
    RemoveKeeps(s.tokens, token);
    PutStandsLast(Remove(s.tokens, token), token, Timed(subject, at + cfg.sessionTtl));
    OneMore(cfg, crypto, run, LogIn(JText(token), at));
    TokenResolves(cfg, crypto, run + [LogIn(JText(token), at)], working, token,
                  Timed(subject, at + cfg.sessionTtl), used);
  }
}
