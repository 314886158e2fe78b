/** The challenge store: each nonce is held for one key and can be spent once. */
module Challenges {
  import opened Wrappers
  import opened OrderedMap
  import opened Expiring

  /** The key a challenge was issued to, by nonce. */
  type Outstanding = Store<string>

  /** Whether spending a nonce succeeds; whatever the answer, a nonce that was there is gone. */
  predicate Spendable(m: Outstanding, nonce: string, publicKey: string, now: int) {
    var entry := Get(m, nonce);
    entry.Some? && entry.value.expiresAt > now && entry.value.value == publicKey
  }

  class ChallengeStore {
    const ttlSeconds: int
    const maxOutstanding: int
    var outstanding: Outstanding

    constructor (ttlSeconds: int, maxOutstanding: int)
      ensures this.ttlSeconds == ttlSeconds && this.maxOutstanding == maxOutstanding && outstanding == []
    {
      this.ttlSeconds, this.maxOutstanding, outstanding := ttlSeconds, maxOutstanding, [];
    }

    method Issue(publicKey: string, nonce: string, now: int) returns (expiresAt: int)
      modifies this
      ensures expiresAt == now + ttlSeconds
      ensures outstanding
           == AfterIssue(old(outstanding), nonce, Timed(publicKey, now + ttlSeconds), now, maxOutstanding)
    {
      while outstanding != [] && outstanding[0].value.expiresAt <= now
        invariant Sweep(outstanding, now) == Sweep(old(outstanding), now)
        decreases |outstanding|
      {
        outstanding := outstanding[1..];
      }
      while |outstanding| >= maxOutstanding && outstanding != []
        invariant MakeRoom(outstanding, maxOutstanding) == MakeRoom(Sweep(old(outstanding), now), maxOutstanding)
        decreases |outstanding|
      {
        outstanding := outstanding[1..];
      }
      expiresAt := now + ttlSeconds;
      outstanding := Put(outstanding, nonce, Timed(publicKey, expiresAt));
    }

    method Consume(nonce: string, publicKey: string, now: int) returns (ok: bool)
      modifies this
      ensures ok == Spendable(old(outstanding), nonce, publicKey, now)
      ensures outstanding == Remove(old(outstanding), nonce)
    {
      var entry := Get(outstanding, nonce);
      if entry.None? {
        var _ := RemoveShape(outstanding, nonce);
        return false;
      }
      outstanding := Remove(outstanding, nonce);
      return entry.value.expiresAt > now && entry.value.value == publicKey;
    }
  }
}
