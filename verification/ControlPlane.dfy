/** The control plane: a challenge is issued to a key, spent on an attestation, and answered with
    a session token; a token or a plain name is then what a miner logs in with. */
module ControlPlane {
  import opened Wrappers
  import opened OrderedMap
  import opened Expiring
  import opened Decimal
  import opened SignedEncoding
  import opened Stratum
  import Base58
  import Challenges
  import SessionTokens
  import Registry
  import Rollup
  import Login

  const ATTESTATION_MAX_AGE_SECONDS := 120
  const KEY_BYTES := 32

  /** Ed25519, the base64url reading of a key and the number a spelling stands for are parameters:
      any functions of these types. */
  datatype Crypto = Crypto(
    keyBytes: string -> seq<nat>,
    verify: (seq<nat>, string, string) -> bool,
    seconds: NumberText -> real)

  datatype Config = Config(
    challengeTtl: int,
    maxOutstanding: int,
    sessionTtl: int,
    maxSessions: int,
    allowLegacyLogin: bool)

  datatype State = State(challenges: Challenges.Outstanding, tokens: SessionTokens.Tokens, tables: Registry.Tables)

  const INITIAL := State([], [], Registry.EMPTY)

  datatype Reply =
    | ChallengeIssued(nonce: string, expiresAt: int)
    | SessionIssued(token: string, expiresAt: int)
    | Bound(accountId: string, solanaAddress: string)
    | Rejected(status: int, reason: string)

  // ---- signatures ------------------------------------------------------------------

  /** False for every failure, an unencodable field or a key of the wrong size included. */
  predicate VerifyAttestation(crypto: Crypto, a: Attestation, signature: string) {
    && EncodeAttestation(a).Ok?
    && |crypto.keyBytes(a.publicKey)| == KEY_BYTES
    && crypto.verify(crypto.keyBytes(a.publicKey), EncodeAttestation(a).value, signature)
  }

  predicate IsSolanaAddress(text: string) {
    Base58.Decode(text).Ok? && |Base58.Decode(text).value| == KEY_BYTES
  }

  predicate VerifySolanaBinding(crypto: Crypto, b: SolanaBinding, signature: string) {
    && IsSolanaAddress(b.solanaAddress)
    && EncodeSolanaBinding(b).Ok?
    && crypto.verify(Base58.Decode(b.solanaAddress).value, EncodeSolanaBinding(b).value, signature)
  }

  /** `Math.abs(now - issuedAt) > 120`, for a time of any value. */
  predicate IsStale(crypto: Crypto, now: int, issuedAt: NumberText) {
    var age := now as real - crypto.seconds(issuedAt);
    (if age >= 0.0 then age else -age) > ATTESTATION_MAX_AGE_SECONDS as real
  }

  // ---- handlers ---------------------------------------------------------------------

  function ChallengeReply(cfg: Config, publicKey: string, nonce: string, now: int): Reply {
    if publicKey == "" then Rejected(400, "malformed") else ChallengeIssued(nonce, now + cfg.challengeTtl)
  }

  function AfterChallenge(cfg: Config, s: State, publicKey: string, nonce: string, now: int): State {
    if publicKey == "" then s
    else
      s.(challenges := AfterIssue(s.challenges, nonce, Timed(publicKey, now + cfg.challengeTtl), now,
                                  cfg.maxOutstanding))
  }

  /** The checks in the order they are made; the first that fails is the answer. */
  function AttestReply(
    cfg: Config, crypto: Crypto, s: State,
    attestation: Option<Attestation>, signature: Option<string>, token: string, now: int): Reply
  {
    if attestation.None? || signature.None? then Rejected(400, "malformed")
    else
      var a := attestation.value;
      if !Challenges.Spendable(s.challenges, a.nonce, a.publicKey, now) then Rejected(401, "unknown-challenge")
      else if IsStale(crypto, now, a.issuedAt) then Rejected(401, "stale-attestation")
      else if !VerifyAttestation(crypto, a, signature.value) then Rejected(401, "bad-signature")
      else if a.publicKey !in s.tables.keys then Rejected(401, "unknown-key")
      else if s.tables.keys[a.publicKey].accountId != a.accountId then Rejected(401, "unknown-account")
      else SessionIssued(token, now + cfg.sessionTtl)
  }

  function SubjectOf(row: Registry.KeyRow): SessionTokens.Subject {
    SessionTokens.Subject(row.workerId, row.accountId, row.workerName)
  }

  /** A readable attestation spends its nonce whatever follows; only a session touches more. */
  function AfterAttest(
    cfg: Config, crypto: Crypto, s: State,
    attestation: Option<Attestation>, signature: Option<string>, token: string, now: int): State
  {
    if attestation.None? || signature.None? then s
    else
      var a := attestation.value;
      var spent := s.(challenges := Remove(s.challenges, a.nonce));
      if !AttestReply(cfg, crypto, s, attestation, signature, token, now).SessionIssued? then spent
      else
        var subject := SubjectOf(s.tables.keys[a.publicKey]);
        spent.(tokens := AfterIssue(s.tokens, token, Timed(subject, now + cfg.sessionTtl), now, cfg.maxSessions),
               tables := Registry.AfterTouchKey(s.tables, a.publicKey, now))
  }

  function BindReply(
    crypto: Crypto, s: State, binding: Option<SolanaBinding>, signature: Option<string>, now: int): Reply
  {
    if binding.None? || signature.None? then Rejected(400, "malformed")
    else
      var b := binding.value;
      if !Challenges.Spendable(s.challenges, b.nonce, b.solanaAddress, now) then Rejected(401, "unknown-challenge")
      else if IsStale(crypto, now, b.issuedAt) then Rejected(401, "stale-attestation")
      else if !IsSolanaAddress(b.solanaAddress) then Rejected(400, "malformed")
      else if !VerifySolanaBinding(crypto, b, signature.value) then Rejected(401, "bad-signature")
      else if b.accountId !in s.tables.accounts then Rejected(401, "unknown-account")
      else Bound(b.accountId, b.solanaAddress)
  }

  function AfterBind(
    crypto: Crypto, s: State, binding: Option<SolanaBinding>, signature: Option<string>, now: int): State
  {
    if binding.None? || signature.None? then s
    else
      var b := binding.value;
      var spent := s.(challenges := Remove(s.challenges, b.nonce));
      if !BindReply(crypto, s, binding, signature, now).Bound? then spent
      else spent.(tables := Registry.AfterBindWallet(s.tables, b.accountId, b.solanaAddress))
  }

  ghost function LoginReply(cfg: Config, s: State, raw: Json, now: int): ParsedLogin {
    Login.ResolveLogin(s.tokens, s.tables, cfg.allowLegacyLogin, raw, now)
  }

  /** The one effect of a login: a token is used. */
  function AfterLogin(cfg: Config, s: State, raw: Json, now: int): State {
    if raw.JText? && Login.IsSessionToken(raw.text)
    then s.(tokens := SessionTokens.AfterResolve(s.tokens, raw.text, now, cfg.sessionTtl))
    else s
  }

  // ---- the server -----------------------------------------------------------------------

  class ControlServer {
    const cfg: Config
    const crypto: Crypto
    const challenges: Challenges.ChallengeStore
    const sessions: SessionTokens.SessionStore
    const registry: Registry.Registry

    ghost predicate Valid()
    {
      && challenges.ttlSeconds == cfg.challengeTtl && challenges.maxOutstanding == cfg.maxOutstanding
      && sessions.ttlSeconds == cfg.sessionTtl && sessions.maxSessions == cfg.maxSessions
    }

    ghost function Model(): State
      reads challenges, sessions, registry
    {
      State(challenges.outstanding, sessions.sessions, registry.tables)
    }

    constructor (cfg: Config, crypto: Crypto)
      ensures Valid() && this.cfg == cfg && this.crypto == crypto
      ensures fresh(challenges) && fresh(sessions) && fresh(registry)
      ensures Model() == INITIAL
    {
      this.cfg, this.crypto := cfg, crypto;
      challenges := new Challenges.ChallengeStore(cfg.challengeTtl, cfg.maxOutstanding);
      sessions := new SessionTokens.SessionStore(cfg.sessionTtl, cfg.maxSessions);
      registry := new Registry.Registry();
    }

    method HandleChallenge(publicKey: string, nonce: string, now: int) returns (reply: Reply)
      requires Valid()
      modifies challenges
      ensures reply == ChallengeReply(cfg, publicKey, nonce, now)
      ensures Model() == AfterChallenge(cfg, old(Model()), publicKey, nonce, now)
    {
      if |publicKey| == 0 {
        return Rejected(400, "malformed");
      }
      var expiresAt := challenges.Issue(publicKey, nonce, now);
      return ChallengeIssued(nonce, expiresAt);
    }

    method HandleAttest(attestation: Option<Attestation>, signature: Option<string>, token: string, now: int)
      returns (reply: Reply)
      requires Valid()
      modifies challenges, sessions, registry
      ensures reply == AttestReply(cfg, crypto, old(Model()), attestation, signature, token, now)
      ensures Model() == AfterAttest(cfg, crypto, old(Model()), attestation, signature, token, now)
    {
      hide VerifyAttestation, AfterIssue, Challenges.Spendable;
      if attestation.None? || signature.None? {
        return Rejected(400, "malformed");
      }
      var a := attestation.value;
      var spendable := challenges.Consume(a.nonce, a.publicKey, now);
      if !spendable {
        return Rejected(401, "unknown-challenge");
      }
      if IsStale(crypto, now, a.issuedAt) {
        return Rejected(401, "stale-attestation");
      }
      if !VerifyAttestation(crypto, a, signature.value) {
        return Rejected(401, "bad-signature");
      }
      if a.publicKey !in registry.tables.keys {
        return Rejected(401, "unknown-key");
      }
      var binding := registry.tables.keys[a.publicKey];
      if binding.accountId != a.accountId {
        return Rejected(401, "unknown-account");
      }
      registry.TouchWorkerKey(a.publicKey, now);
      var expiresAt := sessions.Issue(SubjectOf(binding), token, now);
      return SessionIssued(token, expiresAt);
    }

    method HandleBindWallet(binding: Option<SolanaBinding>, signature: Option<string>, now: int)
      returns (reply: Reply)
      requires Valid()
      modifies challenges, registry
      ensures reply == BindReply(crypto, old(Model()), binding, signature, now)
      ensures Model() == AfterBind(crypto, old(Model()), binding, signature, now)
    {
      hide VerifySolanaBinding, IsSolanaAddress, Challenges.Spendable;
      if binding.None? || signature.None? {
        return Rejected(400, "malformed");
      }
      var b := binding.value;
      var spendable := challenges.Consume(b.nonce, b.solanaAddress, now);
      if !spendable {
        return Rejected(401, "unknown-challenge");
      }
      if IsStale(crypto, now, b.issuedAt) {
        return Rejected(401, "stale-attestation");
      }
      if !IsSolanaAddress(b.solanaAddress) {
        return Rejected(400, "malformed");
      }
      if !VerifySolanaBinding(crypto, b, signature.value) {
        return Rejected(401, "bad-signature");
      }
      if b.accountId !in registry.tables.accounts {
        return Rejected(401, "unknown-account");
      }
      var _ := registry.BindSolanaAddress(b.accountId, b.solanaAddress);
      return Bound(b.accountId, b.solanaAddress);
    }

    /** What a miner's login stands for. */
    method ResolveLogin(raw: Json, now: int) returns (parsed: ParsedLogin)
      requires Valid()
      modifies sessions
      ensures parsed == LoginReply(cfg, old(Model()), raw, now)
      ensures Model() == AfterLogin(cfg, old(Model()), raw, now)
    {
      if raw.JText? && Login.IsSessionToken(raw.text) {
        var subject := sessions.Resolve(raw.text, now);
        if subject.None? {
          return Refused("unknown-token");
        }
        var s := subject.value;
        return Known(WorkerIdentity(s.accountId, s.workerName, Login.Canonical(s.accountId, s.workerName)));
      }
      if !cfg.allowLegacyLogin {
        return Refused("legacy-login-disabled");
      }
      parsed := Login.ParseWorkerLogin(raw);
      if parsed.Known? {
        var enrolled := registry.HasEnrolledKeys(parsed.identity.username);
        if enrolled {
          return Refused("account-requires-attestation");
        }
      }
    }
  }

  // ---- runs -------------------------------------------------------------------------------

  /** One step of a run. The nonce and the token are the random values drawn at that step;
      accounting a rig's shares may add its worker row at any time. */
  datatype Event =
    | Challenge(publicKey: string, nonce: string, at: int)
    | Attest(attestation: Option<Attestation>, signature: Option<string>, token: string, at: int)
    | BindWallet(binding: Option<SolanaBinding>, signature: Option<string>, at: int)
    | CreateAccount(id: string, payoutAddress: string, at: int)
    | RegisterKey(publicKey: string, accountId: string, workerName: string, at: int)
    | LogIn(raw: Json, at: int)
    | WorkerSeen(worker: Rollup.Worker, at: int)

  function After(cfg: Config, crypto: Crypto, s: State, e: Event): State {
    match e
    case Challenge(publicKey, nonce, at) => AfterChallenge(cfg, s, publicKey, nonce, at)
    case Attest(attestation, signature, token, at) =>
      AfterAttest(cfg, crypto, s, attestation, signature, token, at)
    case BindWallet(binding, signature, at) => AfterBind(crypto, s, binding, signature, at)
    case CreateAccount(id, payoutAddress, _) => s.(tables := Registry.AfterCreate(s.tables, id, payoutAddress))
    case RegisterKey(publicKey, accountId, workerName, at) =>
      s.(tables := Registry.AfterRegister(s.tables, publicKey, accountId, workerName, at))
    case LogIn(raw, at) => AfterLogin(cfg, s, raw, at)
    case WorkerSeen(worker, _) =>
      s.(tables := s.tables.(workers := Rollup.AfterTouch(s.tables.workers, worker)))
  }

  function Play(cfg: Config, crypto: Crypto, run: seq<Event>): State {
    if run == [] then INITIAL
    else After(cfg, crypto, Play(cfg, crypto, run[..|run| - 1]), run[|run| - 1])
  }

  /** The event granted a session. */
  predicate Grants(cfg: Config, crypto: Crypto, s: State, e: Event) {
    e.Attest? && AttestReply(cfg, crypto, s, e.attestation, e.signature, e.token, e.at).SessionIssued?
  }

  /** The event bound a wallet. */
  predicate Binds(crypto: Crypto, s: State, e: Event) {
    e.BindWallet? && BindReply(crypto, s, e.binding, e.signature, e.at).Bound?
  }

  /** The nonce an event puts forward, if it is readable at all. */
  function NonceOf(e: Event): Option<string> {
    match e
    case Attest(attestation, signature, _, _) =>
      if attestation.None? || signature.None? then None else Some(attestation.value.nonce)
    case BindWallet(binding, signature, _) =>
      if binding.None? || signature.None? then None else Some(binding.value.nonce)
    case _ => None
  }
}
