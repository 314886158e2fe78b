/** A login is a live session token or a plain name; a plain name is parsed into one canonical
    spelling, and no longer claims an account that has enrolled a key. */
module Login {
  import opened Wrappers
  import opened Stratum
  import opened Text
  import SessionTokens
  import Registry

  const DEFAULT_WORKER_NAME := "default"
  const MAX_LOGIN_LENGTH := 256
  const MAX_USERNAME_LENGTH := 128
  const MAX_WORKER_NAME_LENGTH := 64
  const TOKEN_PREFIX := "zgt_"

  predicate IsLegalChar(c: char) {
    'A' <= c <= 'Z' || 'a' <= c <= 'z' || '0' <= c <= '9' || c == '.' || c == '_' || c == '-'
  }

  predicate IsLegal(login: string) {
    forall i :: 0 <= i < |login| ==> IsLegalChar(login[i])
  }

  function FirstDot(login: string): Option<nat> {
    if login == "" then None
    else if login[0] == '.' then Some(0)
    else
      var later := FirstDot(login[1..]);
      if later.None? then None else Some(later.value + 1)
  }

  lemma {:induction false} FirstDotShape(login: string)
    ensures match FirstDot(login)
            case None => '.' !in login
            case Some(i) => i < |login| && login[i] == '.' && '.' !in login[..i]
  {
    if login != "" && login[0] != '.' {
      FirstDotShape(login[1..]);
      var later := FirstDot(login[1..]);
      assert login == [login[0]] + login[1..];
      if later.Some? {
        assert login[..later.value + 1] == [login[0]] + login[1..][..later.value];
      }
    }
  }

  function Username(login: string): string {
    FirstDotShape(login);
    if FirstDot(login).None? then login else login[..FirstDot(login).value]
  }

  function WorkerName(login: string): string {
    FirstDotShape(login);
    if FirstDot(login).None? then DEFAULT_WORKER_NAME else login[FirstDot(login).value + 1..]
  }

  function Canonical(username: string, workerName: string): string {
    username + "." + workerName
  }

  function ParseWorkerLogin(raw: Json): ParsedLogin {
    if !raw.JText? then Refused("not-a-string")
    else
      var login := Trim(raw.text);
      if login == "" then Refused("empty")
      else if |login| > MAX_LOGIN_LENGTH then Refused("too-long")
      else if !IsLegal(login) then Refused("illegal-character")
      else if Username(login) == "" then Refused("empty-username")
      else if WorkerName(login) == "" then Refused("empty-worker-name")
      else if |Username(login)| > MAX_USERNAME_LENGTH then Refused("too-long")
      else if |WorkerName(login)| > MAX_WORKER_NAME_LENGTH then Refused("too-long")
      else
        Known(WorkerIdentity(Username(login), WorkerName(login), Canonical(Username(login), WorkerName(login))))
  }

  predicate IsSessionToken(text: string) {
    |text| >= 4 && text[..4] == TOKEN_PREFIX
  }

  ghost function ResolveLogin(
    tokens: SessionTokens.Tokens, tables: Registry.Tables, allowLegacy: bool, raw: Json, now: int): ParsedLogin
  {
    if raw.JText? && IsSessionToken(raw.text) then
      var subject := SessionTokens.Resolved(tokens, raw.text, now);
      if subject.None? then Refused("unknown-token")
      else
        Known(WorkerIdentity(subject.value.accountId, subject.value.workerName,
                             Canonical(subject.value.accountId, subject.value.workerName)))
    else if !allowLegacy then Refused("legacy-login-disabled")
    else
      var parsed := ParseWorkerLogin(raw);
      if parsed.Known? && Registry.Enrolled(tables, parsed.identity.username)
      then Refused("account-requires-attestation")
      else parsed
  }

  // ---- one worker, one spelling ----------------------------------------------------

  /** Splitting at the first dot undoes joining, when the first half has none. */
  lemma SplitOfJoined(username: string, workerName: string)
    requires '.' !in username
    ensures var login := Canonical(username, workerName);
            Username(login) == username && WorkerName(login) == workerName
  {
    var login := Canonical(username, workerName);
    FirstDotShape(login);
    assert login[|username|] == '.';
    var i := FirstDot(login).value;
    DotIsNotEarlier(username, workerName, i);
    assert forall k :: 0 <= k < i ==> login[..i][k] == login[k] != '.';
    assert login[..|username|] == username && login[|username| + 1..] == workerName;
  }

  lemma DotIsNotEarlier(username: string, workerName: string, i: nat)
    requires '.' !in username && i < |Canonical(username, workerName)| && Canonical(username, workerName)[i] == '.'
    ensures i >= |username|
  {
    assert forall k :: 0 <= k < |username| ==> Canonical(username, workerName)[k] == username[k];
  }

  /** Among users without a dot, as every plain login's is, one canonical login is one worker. */
  lemma CanonicalIsUnique(u: string, w: string, v: string, x: string)
    requires '.' !in u && '.' !in v
    ensures Canonical(u, w) == Canonical(v, x) <==> u == v && w == x
  {
    SplitOfJoined(u, w);
    SplitOfJoined(v, x);
  }

  /** One user name and a dot start the other's: then part of the longer one reads as a worker. */
  predicate Absorbs(u: string, v: string) {
    u + "." <= v
  }

  /** The worker of u whose login is spelled as the worker x of v is. */
  function Absorbed(u: string, v: string, x: string): string
    requires Absorbs(u, v)
  {
    v[|u| + 1..] + "." + x
  }

  /** For any names at all: two workers share a canonical login exactly when they are the same, or
      one's user and a dot start the other's user and the rest of the login is its worker. */
  lemma SameLoginIff(u: string, w: string, v: string, x: string)
    ensures Canonical(u, w) == Canonical(v, x) <==>
      || (u == v && w == x)
      || (Absorbs(u, v) && w == Absorbed(u, v, x))
      || (Absorbs(v, u) && x == Absorbed(v, u, w))
  {
    if Canonical(u, w) == Canonical(v, x) {
      SharedLogin(u, w, v, x);
    }
    if Absorbs(u, v) {
      JoinAbsorbed(u, v, x);
    }
    if Absorbs(v, u) {
      JoinAbsorbed(v, u, w);
    }
  }

  lemma JoinAbsorbed(u: string, v: string, x: string)
    requires Absorbs(u, v)
    ensures Canonical(u, Absorbed(u, v, x)) == Canonical(v, x)
  {
    assert v == u + "." + v[|u| + 1..];
  }

  lemma SharedLogin(u: string, w: string, v: string, x: string)
    requires Canonical(u, w) == Canonical(v, x)
    ensures || (u == v && w == x)
            || (Absorbs(u, v) && w == Absorbed(u, v, x))
            || (Absorbs(v, u) && x == Absorbed(v, u, w))
  {
    var login := Canonical(u, w);
    assert login[..|u|] == u && login[|u|] == '.' && login[|u| + 1..] == w;
    assert login[..|v|] == v && login[|v|] == '.' && login[|v| + 1..] == x;
    if |u| < |v| {
      LongerAbsorbs(login, u, w, v, x);
    } else if |v| < |u| {
      LongerAbsorbs(login, v, x, u, w);
    }
  }

  lemma LongerAbsorbs(login: string, u: string, w: string, v: string, x: string)
    requires login == Canonical(u, w) == Canonical(v, x) && |u| < |v|
    ensures Absorbs(u, v) && w == Absorbed(u, v, x)
  {
    assert login[..|v|] == v && login[|u|] == '.';
    assert forall k :: 0 <= k < |u| + 1 ==> v[k] == login[k] == (u + ".")[k];
    JoinAbsorbed(u, v, x);
    assert Canonical(u, w)[|u| + 1..] == w && Canonical(u, Absorbed(u, v, x))[|u| + 1..] == Absorbed(u, v, x);
  }

  /** Some workers of two accounts share a login if and only if one account's name and a dot start
      the other's. */
  lemma AccountsClashIff(u: string, v: string)
    requires u != v
    ensures (exists w, x :: Canonical(u, w) == Canonical(v, x)) <==> Absorbs(u, v) || Absorbs(v, u)
  {
    forall w, x | Canonical(u, w) == Canonical(v, x)
      ensures Absorbs(u, v) || Absorbs(v, u)
    {
      SharedLogin(u, w, v, x);
    }
    if Absorbs(u, v) {
      JoinAbsorbed(u, v, "");
    }
    if Absorbs(v, u) {
      JoinAbsorbed(v, u, "");
    }
  }

  /** Two such accounts, and two rigs of theirs. */
  lemma TwoRigsOneLogin()
    ensures Canonical("a.b", "c") == Canonical("a", "b.c")
  {
    assert Absorbs("a", "a.b") && Absorbed("a", "a.b", "c") == "b.c";
    JoinAbsorbed("a", "a.b", "c");
  }

  /** The login an identity carries is its two names joined. */
  predicate Spelled(identity: WorkerIdentity) {
    identity.login == Canonical(identity.username, identity.workerName)
  }

  lemma LegalHasNoSpace(login: string)
    requires IsLegal(login)
    ensures Trim(login) == login
  {
    if login != "" {
      assert IsLegalChar(login[0]) && IsLegalChar(login[|login| - 1]);
    }
  }

  /** What an accepted plain login is made of. */
  lemma ParsedShape(raw: Json)
    requires ParseWorkerLogin(raw).Known?
    ensures var id := ParseWorkerLogin(raw).identity;
            && 0 < |id.username| <= MAX_USERNAME_LENGTH && '.' !in id.username && IsLegal(id.username)
            && 0 < |id.workerName| <= MAX_WORKER_NAME_LENGTH && IsLegal(id.workerName)
            && id.login == Canonical(id.username, id.workerName)
  {
    FirstDotShape(Trim(raw.text));
  }

  /** The canonical login parses to the identity it came from: parsing twice is parsing once. */
  lemma CanonicalIsStable(raw: Json)
    requires ParseWorkerLogin(raw).Known?
    ensures ParseWorkerLogin(JText(ParseWorkerLogin(raw).identity.login)) == ParseWorkerLogin(raw)
  {
    ParsedShape(raw);
    hide Username, WorkerName, IsLegalChar;
    var id := ParseWorkerLogin(raw).identity;
    SplitOfJoined(id.username, id.workerName);
    DotIsLegal(id.username, id.workerName);
    LegalHasNoSpace(id.login);
  }

  lemma DotIsLegal(username: string, workerName: string)
    requires IsLegal(username) && IsLegal(workerName)
    ensures IsLegal(Canonical(username, workerName))
  {}

  /** Every well-formed name logs in as itself: a user without a dot, a worker of any legal name. */
  lemma EveryNameParses(username: string, workerName: string)
    requires 0 < |username| <= MAX_USERNAME_LENGTH && IsLegal(username) && '.' !in username
    requires 0 < |workerName| <= MAX_WORKER_NAME_LENGTH && IsLegal(workerName)
    ensures ParseWorkerLogin(JText(Canonical(username, workerName)))
         == Known(WorkerIdentity(username, workerName, Canonical(username, workerName)))
    ensures ParseWorkerLogin(JText(username))
         == Known(WorkerIdentity(username, DEFAULT_WORKER_NAME, Canonical(username, DEFAULT_WORKER_NAME)))
  {
    hide IsLegalChar;
    SplitOfJoined(username, workerName);
    DotIsLegal(username, workerName);
    LegalHasNoSpace(Canonical(username, workerName));
    LegalHasNoSpace(username);
    FirstDotShape(username);
  }

  /** Whatever a login resolves to carries its canonical spelling. */
  lemma ResolvedIsSpelled(
    tokens: SessionTokens.Tokens, tables: Registry.Tables, allowLegacy: bool, raw: Json, now: int)
    requires ResolveLogin(tokens, tables, allowLegacy, raw, now).Known?
    ensures Spelled(ResolveLogin(tokens, tables, allowLegacy, raw, now).identity)
  {
    hide Canonical, Username, WorkerName, IsLegal;
  }
}
