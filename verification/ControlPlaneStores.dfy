/** What the control plane keeps over every run: its stores within bounds and in age order,
    every entry in them with an event of the run behind it. */
module ControlPlaneStores {
  import opened Wrappers
  import opened OrderedMap
  import opened Expiring
  import opened Stratum
  import opened ControlPlane
  import Challenges
  import SessionTokens
  import Login

  /** Nonces are drawn from 32 random bytes: no two challenges share one. */
  ghost predicate FreshNonces(run: seq<Event>) {
    forall i, j :: 0 <= i < j < |run| && run[i].Challenge? && run[j].Challenge? ==> run[i].nonce != run[j].nonce
  }

  ghost predicate FreshTokens(run: seq<Event>) {
    forall i, j :: 0 <= i < j < |run| && run[i].Attest? && run[j].Attest? ==> run[i].token != run[j].token
  }

  /** The clock does not go back. */
  ghost predicate Forward(run: seq<Event>) {
    forall i, j :: 0 <= i < j < |run| ==> run[i].at <= run[j].at
  }

  function AtLeastOne(ceiling: int): int {
    if ceiling > 1 then ceiling else 1
  }

  // ---- the stores ------------------------------------------------------------------

  ghost predicate Tidy(cfg: Config, s: State) {
    && Distinct(s.challenges) && |s.challenges| <= AtLeastOne(cfg.maxOutstanding)
    && Distinct(s.tokens) && |s.tokens| <= AtLeastOne(cfg.maxSessions)
  }

  lemma StepKeepsTidy(cfg: Config, crypto: Crypto, s: State, e: Event)
    requires Tidy(cfg, s)
    ensures Tidy(cfg, After(cfg, crypto, s, e))
  {
    hide AttestReply, BindReply, AfterIssue, SessionTokens.AfterResolve, Remove;
    match e {
      case Challenge(publicKey, nonce, at) =>
        var _ := IssueShape(s.challenges, nonce, Timed(publicKey, at + cfg.challengeTtl), at, cfg.maxOutstanding);
      case Attest(attestation, signature, token, at) =>
        if attestation.Some? && signature.Some? {
          RemoveKeeps(s.challenges, attestation.value.nonce);
          if Grants(cfg, crypto, s, e) {
            GrantMeans(cfg, crypto, s, e);
            var subject := SubjectOf(s.tables.keys[attestation.value.publicKey]);
            var _ := IssueShape(s.tokens, token, Timed(subject, at + cfg.sessionTtl), at, cfg.maxSessions);
          }
        }
      case BindWallet(binding, signature, at) =>
        if binding.Some? {
          RemoveKeeps(s.challenges, binding.value.nonce);
        }
      case LogIn(raw, at) =>
        if raw.JText? {
          ResolveKeepsDistinct(s.tokens, raw.text, at, cfg.sessionTtl);
        }
      case _ =>
    }
  }

  lemma ResolveKeepsDistinct(m: SessionTokens.Tokens, token: string, now: int, ttl: int)
    requires Distinct(m)
    ensures Distinct(SessionTokens.AfterResolve(m, token, now, ttl))
    ensures |SessionTokens.AfterResolve(m, token, now, ttl)| <= |m|
  {
    RemoveKeeps(m, token);
    var subject := SessionTokens.Resolved(m, token, now);
    if subject.Some? {
      PutKeepsDistinct(Remove(m, token), token, Timed(subject.value, now + ttl));
      PutAdds(Remove(m, token), token, Timed(subject.value, now + ttl));
    }
  }

  /** In every run, no key appears twice and no store outgrows its ceiling (a ceiling below one
      still admits one entry). */
  lemma {:induction false} StoresStayTidy(cfg: Config, crypto: Crypto, run: seq<Event>)
    ensures Tidy(cfg, Play(cfg, crypto, run))
  {
    hide After;
    if run != [] {
      StoresStayTidy(cfg, crypto, run[..|run| - 1]);
      StepKeepsTidy(cfg, crypto, Play(cfg, crypto, run[..|run| - 1]), run[|run| - 1]);
    }
  }

  /** What a granted session says about the state it was granted in. */
  lemma GrantMeans(cfg: Config, crypto: Crypto, s: State, e: Event)
    requires Grants(cfg, crypto, s, e)
    ensures e.attestation.Some? && e.signature.Some?
    ensures var a := e.attestation.value;
            && Challenges.Spendable(s.challenges, a.nonce, a.publicKey, e.at)
            && !IsStale(crypto, e.at, a.issuedAt)
            && VerifyAttestation(crypto, a, e.signature.value)
            && a.publicKey in s.tables.keys && s.tables.keys[a.publicKey].accountId == a.accountId
  {}

  lemma BindMeans(crypto: Crypto, s: State, e: Event)
    requires Binds(crypto, s, e)
    ensures e.binding.Some? && e.signature.Some?
    ensures var b := e.binding.value;
            && Challenges.Spendable(s.challenges, b.nonce, b.solanaAddress, e.at)
            && !IsStale(crypto, e.at, b.issuedAt)
            && VerifySolanaBinding(crypto, b, e.signature.value)
            && b.accountId in s.tables.accounts
  {}

  // ---- where an entry comes from --------------------------------------------------------

  /** A nonce outstanding after a step was issued by it or was there before, unchanged. */
  lemma ChallengeStep(cfg: Config, crypto: Crypto, s: State, e: Event, nonce: string)
    requires Tidy(cfg, s) && Has(After(cfg, crypto, s, e).challenges, nonce)
    ensures var entry := Get(After(cfg, crypto, s, e).challenges, nonce);
            || (e.Challenge? && e.nonce == nonce && entry == Some(Timed(e.publicKey, e.at + cfg.challengeTtl)))
            || Get(s.challenges, nonce) == entry
  {
    hide AttestReply, BindReply, AfterIssue, SessionTokens.AfterResolve, Remove, Get;
    match e {
      case Challenge(publicKey, issued, at) =>
        var entry := Timed(publicKey, at + cfg.challengeTtl);
        GetAfterIssue(s.challenges, issued, entry, at, cfg.maxOutstanding, nonce);
      case Attest(attestation, signature, _, _) =>
        if attestation.Some? && signature.Some? {
          GetAfterRemove(s.challenges, attestation.value.nonce, nonce);
        }
      case BindWallet(binding, signature, _) =>
        if binding.Some? && signature.Some? {
          GetAfterRemove(s.challenges, binding.value.nonce, nonce);
        }
      case _ =>
    }
  }

  lemma GetAfterIssue<V>(m: Store<V>, key: string, entry: Timed<V>, now: int, ceiling: int, other: string)
    requires Distinct(m)
    ensures var got := Get(AfterIssue(m, key, entry, now, ceiling), other);
            if other == key then got == Some(entry) else got.None? || got == Get(m, other)
  {
    var n := IssueShape(m, key, entry, now, ceiling);
    GetAfterPut(m[n..], key, entry, other);
    GetAfterDrop(m, n, other);
  }

  /** The event a nonce was issued by: the entry is for the key that asked, from when it asked. */
  lemma {:induction false} ChallengeWasIssued(cfg: Config, crypto: Crypto, run: seq<Event>, nonce: string)
    returns (c: nat)
    requires Has(Play(cfg, crypto, run).challenges, nonce)
    ensures c < |run| && run[c].Challenge? && run[c].nonce == nonce
    ensures Get(Play(cfg, crypto, run).challenges, nonce)
         == Some(Timed(run[c].publicKey, run[c].at + cfg.challengeTtl))
  {
    hide After, Get;
    c := 0;
    if run == [] {
      NothingAtFirst(nonce);
    } else {
      var n := |run| - 1;
      var s := Play(cfg, crypto, run[..n]);
      StoresStayTidy(cfg, crypto, run[..n]);
      ChallengeStep(cfg, crypto, s, run[n], nonce);
      if Get(s.challenges, nonce) == Get(Play(cfg, crypto, run).challenges, nonce) {
        c := ChallengeWasIssued(cfg, crypto, run[..n], nonce);
      } else {
        c := n;
      }
    }
  }

  lemma NothingAtFirst(key: string)
    ensures !Has(INITIAL.challenges, key) && !Has(INITIAL.tokens, key)
  {}

  /** A token alive after a step was granted by it or stood for the same worker before; its
      lifetime starts at the step, if the step granted or used it, or is unchanged. */
  lemma TokenStep(cfg: Config, crypto: Crypto, s: State, e: Event, token: string)
    requires Tidy(cfg, s) && Has(After(cfg, crypto, s, e).tokens, token)
    ensures var entry := Get(After(cfg, crypto, s, e).tokens, token).value;
            || (Grants(cfg, crypto, s, e) && e.token == token && e.attestation.Some?
                && e.attestation.value.publicKey in s.tables.keys
                && entry == Timed(SubjectOf(s.tables.keys[e.attestation.value.publicKey]), e.at + cfg.sessionTtl))
            || (e == LogIn(JText(token), e.at) && Has(s.tokens, token)
                && entry == Timed(Get(s.tokens, token).value.value, e.at + cfg.sessionTtl))
            || Get(s.tokens, token) == Some(entry)
  {
    hide AttestReply, BindReply, AfterIssue, SessionTokens.AfterResolve, Remove, Get;
    match e {
      case Attest(attestation, _, issued, at) =>
        if Grants(cfg, crypto, s, e) {
          GrantMeans(cfg, crypto, s, e);
          var subject := SubjectOf(s.tables.keys[attestation.value.publicKey]);
          GetAfterIssue(s.tokens, issued, Timed(subject, at + cfg.sessionTtl), at, cfg.maxSessions, token);
        }
      case LogIn(raw, at) =>
        if raw.JText? && Login.IsSessionToken(raw.text) {
          GetAfterResolve(s.tokens, raw.text, at, cfg.sessionTtl, token);
        }
      case _ =>
    }
  }

  lemma GetAfterResolve(m: SessionTokens.Tokens, used: string, now: int, ttl: int, token: string)
    requires Distinct(m)
    ensures var got := Get(SessionTokens.AfterResolve(m, used, now, ttl), token);
            if token != used then got == Get(m, token)
            else got.None? || (Has(m, used) && got.value == Timed(Get(m, used).value.value, now + ttl))
  {
    GetAfterRemove(m, used, token);
    var subject := SessionTokens.Resolved(m, used, now);
    if subject.Some? {
      GetAfterPut(Remove(m, used), used, Timed(subject.value, now + ttl), token);
    }
  }

  lemma {:induction false} SessionWasGranted(cfg: Config, crypto: Crypto, run: seq<Event>, token: string)
    returns (i: nat)
    requires Has(Play(cfg, crypto, run).tokens, token)
    ensures i < |run| && Grants(cfg, crypto, Play(cfg, crypto, run[..i]), run[i]) && run[i].token == token
    ensures var keys := Play(cfg, crypto, run[..i]).tables.keys;
            && run[i].attestation.Some? && run[i].attestation.value.publicKey in keys
            && Get(Play(cfg, crypto, run).tokens, token).value.value
            == SubjectOf(keys[run[i].attestation.value.publicKey])
  {
    hide After, Get, Grants;
    i := 0;
    if run == [] {
      NothingAtFirst(token);
    } else {
      var n := |run| - 1;
      var s := Play(cfg, crypto, run[..n]);
      StoresStayTidy(cfg, crypto, run[..n]);
      TokenStep(cfg, crypto, s, run[n], token);
      var after := Play(cfg, crypto, run);
      if Has(s.tokens, token) && Get(s.tokens, token).value.value == Get(after.tokens, token).value.value {
        i := SessionWasGranted(cfg, crypto, run[..n], token);
        assert run[..n][..i] == run[..i];
      } else {
        i := n;
      }
    }
  }

  // ---- the early stop is exact ----------------------------------------------------------------

  ghost predicate Aged(cfg: Config, s: State, now: int) {
    && ByAge(s.challenges) && NoneAfter(s.challenges, now + cfg.challengeTtl)
    && ByAge(s.tokens) && NoneAfter(s.tokens, now + cfg.sessionTtl)
  }

  lemma StepKeepsAged(cfg: Config, crypto: Crypto, s: State, e: Event)
    requires Tidy(cfg, s) && Aged(cfg, s, e.at)
    requires e.Challenge? ==> !Has(s.challenges, e.nonce)
    requires e.Attest? ==> !Has(s.tokens, e.token)
    ensures Aged(cfg, After(cfg, crypto, s, e), e.at)
  {
    hide AttestReply, BindReply, AfterIssue, SessionTokens.AfterResolve, Remove, ByAge, NoneAfter, Get;
    match e {
      case Challenge(publicKey, nonce, at) =>
        IssueKeepsAge(s.challenges, nonce, publicKey, at, cfg.challengeTtl, cfg.maxOutstanding);
      case Attest(attestation, signature, token, at) =>
        if attestation.Some? {
          RemoveKeeps(s.challenges, attestation.value.nonce);
        }
        if Grants(cfg, crypto, s, e) {
          GrantMeans(cfg, crypto, s, e);
          var subject := SubjectOf(s.tables.keys[attestation.value.publicKey]);
          IssueKeepsAge(s.tokens, token, subject, at, cfg.sessionTtl, cfg.maxSessions);
        }
      case BindWallet(binding, _, _) =>
        if binding.Some? {
          RemoveKeeps(s.challenges, binding.value.nonce);
        }
      case LogIn(raw, at) =>
        if raw.JText? {
          SessionTokens.ResolveKeepsAge(s.tokens, raw.text, at, cfg.sessionTtl);
        }
      case _ =>
    }
  }

  lemma {:induction false} StoresStayAged(cfg: Config, crypto: Crypto, run: seq<Event>, now: int)
    requires FreshNonces(run) && FreshTokens(run) && Forward(run)
    requires run != [] ==> run[|run| - 1].at <= now
    ensures Aged(cfg, Play(cfg, crypto, run), now)
  {
    hide After, Get;
    if run != [] {
      var n := |run| - 1;
      var s, e := Play(cfg, crypto, run[..n]), run[n];
      StoresStayAged(cfg, crypto, run[..n], e.at);
      StoresStayTidy(cfg, crypto, run[..n]);
      if e.Challenge? && Has(s.challenges, e.nonce) {
        var c := ChallengeWasIssued(cfg, crypto, run[..n], e.nonce);
      }
      if e.Attest? && Has(s.tokens, e.token) {
        var i := SessionWasGranted(cfg, crypto, run[..n], e.token);
      }
      StepKeepsAged(cfg, crypto, s, e);
    }
  }

  /** Whenever a store is swept, stopping at the first live entry removes exactly the expired ones:
      insertion order is age order even though a used token moves to the end. */
  lemma SweepsAreExact(cfg: Config, crypto: Crypto, run: seq<Event>, now: int)
    requires FreshNonces(run) && FreshTokens(run) && Forward(run)
    requires run != [] ==> run[|run| - 1].at <= now
    ensures var s := Play(cfg, crypto, run);
            Sweep(s.challenges, now) == Live(s.challenges, now) && Sweep(s.tokens, now) == Live(s.tokens, now)
  {
    hide Play;
    StoresStayAged(cfg, crypto, run, now);
    SweepIsFilter(Play(cfg, crypto, run).challenges, now);
    SweepIsFilter(Play(cfg, crypto, run).tokens, now);
  }
}
