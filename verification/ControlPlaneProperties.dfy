/** Where a token comes from, that a nonce is good once, and that an enrolled name is no
    credential, over every run of the control plane. */
module ControlPlaneProperties {
  import opened Wrappers
  import opened OrderedMap
  import opened Expiring
  import opened SignedEncoding
  import opened Stratum
  import opened ControlPlane
  import opened ControlPlaneKeys
  import opened ControlPlaneStores
  import Challenges
  import SessionTokens
  import Registry
  import Login

  /** The event puts this nonce forward and gets something for it: a session, or a wallet bound. */
  ghost predicate Uses(cfg: Config, crypto: Crypto, s: State, e: Event, nonce: string) {
    NonceOf(e) == Some(nonce) && (Grants(cfg, crypto, s, e) || Binds(crypto, s, e))
  }

  // ---- one use per nonce ------------------------------------------------------------------

  lemma UseSpends(cfg: Config, crypto: Crypto, s: State, e: Event, nonce: string)
    requires Tidy(cfg, s) && Uses(cfg, crypto, s, e, nonce)
    ensures NonceOf(e) == Some(nonce) && Has(s.challenges, nonce)
  {
    if Grants(cfg, crypto, s, e) {
      GrantMeans(cfg, crypto, s, e);
    } else {
      BindMeans(crypto, s, e);
    }
  }

  lemma TrySpends(cfg: Config, crypto: Crypto, s: State, e: Event, nonce: string)
    requires Tidy(cfg, s) && NonceOf(e) == Some(nonce)
    ensures !Has(After(cfg, crypto, s, e).challenges, nonce)
  {
    hide AttestReply, BindReply, AfterIssue, Get;
    GetAfterRemove(s.challenges, nonce, nonce);
  }

  /** A nonce that was tried while outstanding, whether the try succeeded or not, is never
      outstanding again. */
  lemma {:induction false} TriedNonceIsGone(cfg: Config, crypto: Crypto, run: seq<Event>, i: nat, nonce: string)
    requires FreshNonces(run) && i < |run| && NonceOf(run[i]) == Some(nonce)
    requires Has(Play(cfg, crypto, run[..i]).challenges, nonce)
    ensures !Has(Play(cfg, crypto, run).challenges, nonce)
  {
    hide After, Get;
    var n := |run| - 1;
    var s := Play(cfg, crypto, run[..n]);
    StoresStayTidy(cfg, crypto, run[..n]);
    if i == n {
      TrySpends(cfg, crypto, s, run[n], nonce);
    } else {
      assert run[..n][..i] == run[..i];
      TriedNonceIsGone(cfg, crypto, run[..n], i, nonce);
      var c := ChallengeWasIssued(cfg, crypto, run[..i], nonce);
      if Has(Play(cfg, crypto, run).challenges, nonce) {
        ChallengeStep(cfg, crypto, s, run[n], nonce);
      }
    }
  }

  /** One nonce is good for one thing once: no second session, and no wallet binding either. */
  lemma NonceIsUsedOnce(cfg: Config, crypto: Crypto, run: seq<Event>, i: nat, j: nat, nonce: string)
    requires FreshNonces(run) && i < |run| && j < |run|
    requires Uses(cfg, crypto, Play(cfg, crypto, run[..i]), run[i], nonce)
    requires Uses(cfg, crypto, Play(cfg, crypto, run[..j]), run[j], nonce)
    ensures i == j
  {
    hide Uses, Get, After;
    if i < j {
      UsedIsNotUsable(cfg, crypto, run, i, j, nonce);
    } else if j < i {
      UsedIsNotUsable(cfg, crypto, run, j, i, nonce);
    }
  }

  lemma UsedIsNotUsable(cfg: Config, crypto: Crypto, run: seq<Event>, i: nat, j: nat, nonce: string)
    requires FreshNonces(run) && i < j < |run|
    requires Uses(cfg, crypto, Play(cfg, crypto, run[..i]), run[i], nonce)
    ensures !Uses(cfg, crypto, Play(cfg, crypto, run[..j]), run[j], nonce)
  {
    hide Uses, Get, After;
    assert run[..j][..i] == run[..i];
    StoresStayTidy(cfg, crypto, run[..i]);
    UseSpends(cfg, crypto, Play(cfg, crypto, run[..i]), run[i], nonce);
    TriedNonceIsGone(cfg, crypto, run[..j], i, nonce);
    StoresStayTidy(cfg, crypto, run[..j]);
    if Uses(cfg, crypto, Play(cfg, crypto, run[..j]), run[j], nonce) {
      UseSpends(cfg, crypto, Play(cfg, crypto, run[..j]), run[j], nonce);
    }
  }

  // ---- the main results ----------------------------------------------------------------------

  /** Event i granted the token to this identity on an attestation whose signature verified over
      exactly its fields, under a key bound then and now to the identity's account and worker,
      within the age limit, spending an unexpired nonce that event c had issued to that very key
      and that is used for nothing else in the whole run. */
  ghost predicate GrantedBy(
    cfg: Config, crypto: Crypto, run: seq<Event>, token: string, identity: WorkerIdentity, i: nat, c: nat)
  {
    && c < i < |run|
    && run[i].Attest? && run[i].token == token && run[i].attestation.Some? && run[i].signature.Some?
    && var a := run[i].attestation.value;
       var granted := Play(cfg, crypto, run[..i]).tables.keys;
       var current := Play(cfg, crypto, run).tables.keys;
       && a.accountId == identity.username
       && VerifyAttestation(crypto, a, run[i].signature.value)
       && a.publicKey in granted && granted[a.publicKey].accountId == identity.username
       && granted[a.publicKey].workerName == identity.workerName
       && a.publicKey in current && SameBinding(current[a.publicKey], granted[a.publicKey])
       && !IsStale(crypto, run[i].at, a.issuedAt)
       && run[c] == Challenge(a.publicKey, a.nonce, run[c].at)
       && run[i].at < run[c].at + cfg.challengeTtl
       && forall j :: 0 <= j < |run| && Uses(cfg, crypto, Play(cfg, crypto, run[..j]), run[j], a.nonce) ==> j == i
  }

  /** Every token a login resolves was granted so, whoever else did whatever else in the run. */
  lemma TokenProvenance(
    cfg: Config, crypto: Crypto, run: seq<Event>, token: string, now: int, identity: WorkerIdentity)
    requires FreshNonces(run) && Login.IsSessionToken(token)
    requires LoginReply(cfg, Play(cfg, crypto, run), JText(token), now) == Known(identity)
    ensures exists i: nat, c: nat :: GrantedBy(cfg, crypto, run, token, identity, i, c)
  {
    hide After, Get, Uses, Play, VerifyAttestation, AttestReply;
    var i := SessionWasGranted(cfg, crypto, run, token);
    var s := Play(cfg, crypto, run[..i]);
    GrantMeans(cfg, crypto, s, run[i]);
    var a := run[i].attestation.value;
    var c := ChallengeWasIssued(cfg, crypto, run[..i], a.nonce);
    KeyStays(cfg, crypto, run, i, a.publicKey);
    GrantUses(cfg, crypto, s, run[i]);
    forall j | 0 <= j < |run| && Uses(cfg, crypto, Play(cfg, crypto, run[..j]), run[j], a.nonce)
      ensures j == i
    {
      NonceIsUsedOnce(cfg, crypto, run, i, j, a.nonce);
    }
    assert GrantedBy(cfg, crypto, run, token, identity, i, c);
  }

  lemma GrantUses(cfg: Config, crypto: Crypto, s: State, e: Event)
    requires Grants(cfg, crypto, s, e) && e.attestation.Some?
    ensures Uses(cfg, crypto, s, e, e.attestation.value.nonce)
  {}

  /** Silence for the whole lifetime ends a session: a token that still resolves was granted or
      used less than a lifetime ago. */
  lemma SilenceEndsASession(cfg: Config, crypto: Crypto, run: seq<Event>, token: string, now: int)
    returns (i: nat)
    requires Login.IsSessionToken(token) && LoginReply(cfg, Play(cfg, crypto, run), JText(token), now).Known?
    ensures i < |run| && (run[i] == LogIn(JText(token), run[i].at) || (run[i].Attest? && run[i].token == token))
    ensures now < run[i].at + cfg.sessionTtl
  {
    hide Play, Get;
    i := LifetimeStarts(cfg, crypto, run, token);
  }

  lemma {:induction false} LifetimeStarts(cfg: Config, crypto: Crypto, run: seq<Event>, token: string)
    returns (i: nat)
    requires Has(Play(cfg, crypto, run).tokens, token)
    ensures i < |run| && (run[i] == LogIn(JText(token), run[i].at) || (run[i].Attest? && run[i].token == token))
    ensures Get(Play(cfg, crypto, run).tokens, token).value.expiresAt == run[i].at + cfg.sessionTtl
  {
    hide After, Get;
    i := 0;
    if run == [] {
      NothingAtFirst(token);
    } else {
      var n := |run| - 1;
      var s := Play(cfg, crypto, run[..n]);
      StoresStayTidy(cfg, crypto, run[..n]);
      TokenStep(cfg, crypto, s, run[n], token);
      if Get(s.tokens, token) == Get(Play(cfg, crypto, run).tokens, token) {
        i := LifetimeStarts(cfg, crypto, run[..n], token);
      } else {
        i := n;
      }
    }
  }

  /** Once an account has an enrolled key, its name is no credential: no plain login resolves to
      it at any later point of any run, even where plain logins are allowed. */
  lemma EnrolledNameNeverResolves(
    cfg: Config, crypto: Crypto, run: seq<Event>, n: nat, account: string, raw: Json, now: int)
    requires n <= |run| && Registry.Enrolled(Play(cfg, crypto, run[..n]).tables, account)
    requires !(raw.JText? && Login.IsSessionToken(raw.text))
    ensures var reply := LoginReply(cfg, Play(cfg, crypto, run), raw, now);
            reply.Known? ==> reply.identity.username != account
  {
    hide Play, Login.ParseWorkerLogin;
    var key :| key in Play(cfg, crypto, run[..n]).tables.keys
      && Play(cfg, crypto, run[..n]).tables.keys[key].accountId == account;
    KeyStays(cfg, crypto, run, n, key);
  }

  /** A wallet on record was put there by a binding of the run whose signature verified under that
      wallet's own key, with a nonce issued to it. */
  lemma {:induction false} WalletProvenance(
    cfg: Config, crypto: Crypto, run: seq<Event>, account: string, wallet: string)
    returns (i: nat)
    requires var accounts := Play(cfg, crypto, run).tables.accounts;
             account in accounts && accounts[account].solanaAddress == Some(wallet)
    ensures i < |run| && Binds(crypto, Play(cfg, crypto, run[..i]), run[i])
    ensures run[i].binding.Some? && run[i].signature.Some?
    ensures var b := run[i].binding.value;
            && b.accountId == account && b.solanaAddress == wallet
            && VerifySolanaBinding(crypto, b, run[i].signature.value)
  {
    hide After, Binds, VerifySolanaBinding;
    i := 0;
    if run != [] {
      var n := |run| - 1;
      var s := Play(cfg, crypto, run[..n]);
      WalletStep(cfg, crypto, s, run[n], account, wallet);
      if account in s.tables.accounts && s.tables.accounts[account].solanaAddress == Some(wallet) {
        i := WalletProvenance(cfg, crypto, run[..n], account, wallet);
        assert run[..n][..i] == run[..i];
      } else {
        i := n;
        BindMeans(crypto, s, run[n]);
      }
    }
  }

  lemma WalletStep(cfg: Config, crypto: Crypto, s: State, e: Event, account: string, wallet: string)
    requires var accounts := After(cfg, crypto, s, e).tables.accounts;
             account in accounts && accounts[account].solanaAddress == Some(wallet)
    ensures || (account in s.tables.accounts && s.tables.accounts[account].solanaAddress == Some(wallet))
            || (Binds(crypto, s, e) && e.binding.Some?
                && e.binding.value.accountId == account && e.binding.value.solanaAddress == wallet)
  {
    hide AttestReply, AfterIssue, SessionTokens.AfterResolve, Remove, Challenges.Spendable, VerifySolanaBinding;
  }
}
