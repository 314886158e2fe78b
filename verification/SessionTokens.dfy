/** Session tokens with a lifetime that slides on every use. */
module SessionTokens {
  import opened Wrappers
  import opened OrderedMap
  import opened Expiring

  /** What a token stands for. */
  datatype Subject = Subject(workerId: nat, accountId: string, workerName: string)

  type Tokens = Store<Subject>

  function Resolved(m: Tokens, token: string, now: int): Option<Subject> {
    var session := Get(m, token);
    if session.None? || session.value.expiresAt <= now then None else Some(session.value.value)
  }

  /** A dead token is forgotten; a live one goes to the end with a new lifetime. */
  function AfterResolve(m: Tokens, token: string, now: int, ttl: int): Tokens {
    var subject := Resolved(m, token, now);
    if subject.None? then Remove(m, token)
    else Put(Remove(m, token), token, Timed(subject.value, now + ttl))
  }

  class SessionStore {
    const ttlSeconds: int
    const maxSessions: int
    var sessions: Tokens

    constructor (ttlSeconds: int, maxSessions: int)
      ensures this.ttlSeconds == ttlSeconds && this.maxSessions == maxSessions && sessions == []
    {
      this.ttlSeconds, this.maxSessions, sessions := ttlSeconds, maxSessions, [];
    }

    method Issue(subject: Subject, token: string, now: int) returns (expiresAt: int)
      modifies this
      ensures expiresAt == now + ttlSeconds
      ensures sessions == AfterIssue(old(sessions), token, Timed(subject, now + ttlSeconds), now, maxSessions)
    {
      while sessions != [] && sessions[0].value.expiresAt <= now
        invariant Sweep(sessions, now) == Sweep(old(sessions), now)
        decreases |sessions|
      {
        sessions := sessions[1..];
      }
      while |sessions| >= maxSessions && sessions != []
        invariant MakeRoom(sessions, maxSessions) == MakeRoom(Sweep(old(sessions), now), maxSessions)
        decreases |sessions|
      {
        sessions := sessions[1..];
      }
      expiresAt := now + ttlSeconds;
      sessions := Put(sessions, token, Timed(subject, expiresAt));
    }

    method Resolve(token: string, now: int) returns (subject: Option<Subject>)
      modifies this
      ensures subject == Resolved(old(sessions), token, now)
      ensures sessions == AfterResolve(old(sessions), token, now, ttlSeconds)
    {
      var session := Get(sessions, token);
      if session.None? {
        var _ := RemoveShape(sessions, token);
        return None;
      }
      if session.value.expiresAt <= now {
        sessions := Remove(sessions, token);
        return None;
      }
      sessions := Remove(sessions, token);
      sessions := Put(sessions, token, Timed(session.value.value, now + ttlSeconds));
      return Some(session.value.value);
    }
  }

  /** Using a token keeps the store ordered by age, under a clock that does not go back. */
  lemma ResolveKeepsAge(m: Tokens, token: string, now: int, ttl: int)
    requires Distinct(m) && ByAge(m) && NoneAfter(m, now + ttl)
    ensures var after := AfterResolve(m, token, now, ttl);
            Distinct(after) && ByAge(after) && NoneAfter(after, now + ttl) && |after| <= |m|
  {
    RemoveKeeps(m, token);
    var subject := Resolved(m, token, now);
    if subject.Some? {
      PutShape(Remove(m, token), token, Timed(subject.value, now + ttl));
      PutKeepsDistinct(Remove(m, token), token, Timed(subject.value, now + ttl));
    }
  }
}
