/** The proxy's session: one miner socket paired with one upstream socket. */
module Session {
  import opened Wrappers
  import opened OrderedMap
  import opened Shares
  import opened Stratum

  datatype Options = Options(
    upstreamLogin: string,
    upstreamPassword: string,
    maxQueuedMessages: nat,
    submitTimeoutMs: int,
    maxPendingSubmits: nat)

  /** What a share is worth and to whom, fixed when it is relayed. */
  datatype Work = Work(
    identity: WorkerIdentity,
    jobId: Option<string>,
    difficulty: real,
    atSeconds: int)

  datatype PendingSubmit = PendingSubmit(work: Work, sentAtMs: int)

  /** One `onShare` call. `key` is the submit's id, which the hook is not told. */
  datatype Credit = Credit(key: string, work: Work, outcome: ShareOutcome)

  type Pending = OMap<string, PendingSubmit>

  /** Everything a session holds. The last five fields log the calls made on the two
      connections and on the share, identity and difficulty hooks. */
  datatype State = State(
    dialed: bool,
    upstreamReady: bool,
    identity: Option<WorkerIdentity>,
    difficulty: real,
    ended: bool,
    queued: seq<Message>,
    pending: Pending,
    toUpstream: seq<Message>,
    toMiner: seq<Message>,
    credits: seq<Credit>,
    named: seq<WorkerIdentity>,
    observed: seq<real>)

  const UNAUTHORIZED_WORKER := 24
  const OTHER_ERROR := 20

  const INITIAL := State(false, false, None, 1.0, false, [], [], [], [], [], [], [])

  function Refusal(id: Id, code: int, text: string): Message {
    Response(id, JBool(false), Some(StratumError(code, text, None)))
  }

  function JobIdOf(params: seq<Json>): Option<string> {
    if |params| > 1 && params[1].JText? then Some(params[1].text) else None
  }

  predicate IsStale(submit: PendingSubmit, nowMs: int, timeoutMs: int) {
    nowMs - submit.sentAtMs >= timeoutMs
  }

  /** The length of the run of overdue submits at the old end, all that one sweep removes. */
  function StalePrefix(pending: Pending, nowMs: int, timeoutMs: int): (n: nat)
    ensures n <= |pending|
  {
    if pending == [] || !IsStale(pending[0].value, nowMs, timeoutMs) then 0
    else 1 + StalePrefix(pending[1..], nowMs, timeoutMs)
  }

  function CreditAll(pending: Pending, outcome: ShareOutcome): seq<Credit> {
    if pending == [] then []
    else [Credit(pending[0].key, pending[0].value.work, outcome)] + CreditAll(pending[1..], outcome)
  }

  function AfterExpiry(o: Options, s: State, nowMs: int): State {
    var n := StalePrefix(s.pending, nowMs, o.submitTimeoutMs);
    s.(pending := s.pending[n..], credits := s.credits + CreditAll(s.pending[..n], Unresolved))
  }

  function AfterResolve(s: State, key: string, accepted: bool): State {
    match Get(s.pending, key)
    case None => s
    case Some(submit) =>
      s.(pending := Remove(s.pending, key),
         credits := s.credits + [Credit(key, submit.work, if accepted then Accepted else Rejected)])
  }

  function AfterEnd(s: State): State {
    s.(ended := true)
  }

  function AfterForward(o: Options, s: State, message: Message): State {
    var d := s.(dialed := true);
    if d.upstreamReady then d.(toUpstream := d.toUpstream + [message])
    else if |d.queued| >= o.maxQueuedMessages then AfterEnd(d)
    else d.(queued := d.queued + [message])
  }

  function AuthorizeUpstream(o: Options, request: Message): Message
    requires request.Request?
  {
    Request(request.id, request.verb,
            [JText(o.upstreamLogin), JText(o.upstreamPassword)] + Slice(request.params, 2))
  }

  function SubmitUpstream(o: Options, request: Message): Message
    requires request.Request?
  {
    Request(request.id, request.verb, [JText(o.upstreamLogin)] + Slice(request.params, 1))
  }

  function AfterAuthorize(o: Options, s: State, request: Message, resolved: ParsedLogin): State
    requires request.Request?
  {
    match resolved
    case Refused(reason) =>
      s.(toMiner := s.toMiner
                    + [Refusal(request.id, UNAUTHORIZED_WORKER, "Unauthorized worker: " + reason)])
    case Known(identity) =>
      if s.identity.Some? && s.identity.value.login != identity.login then AfterEnd(s)
      else
        var known :=
          if s.identity.None? then s.(identity := Some(identity), named := s.named + [identity]) else s;
        AfterForward(o, known, AuthorizeUpstream(o, request))
  }

  /** What a submit is worth in the state it arrives in. */
  function WorkOf(s: State, request: Message, nowMs: int): Work
    requires request.Request? && s.identity.Some?
  {
    Work(s.identity.value, JobIdOf(request.params), s.difficulty, nowMs / 1000)
  }

  function AfterHold(s: State, request: Message, nowMs: int): State
    requires request.Request? && s.identity.Some?
  {
    s.(pending := Put(s.pending, Key(request.id), PendingSubmit(WorkOf(s, request, nowMs), nowMs)))
  }

  function AfterSubmit(o: Options, s: State, request: Message, nowMs: int): State
    requires request.Request?
  {
    if s.identity.None? then
      s.(toMiner := s.toMiner
                    + [Refusal(request.id, UNAUTHORIZED_WORKER,
                               "Unauthorized worker: submit before authorize")])
    else
      var swept := AfterExpiry(o, s, nowMs);
      var key := Key(request.id);
      if |swept.pending| >= o.maxPendingSubmits then AfterEnd(swept)
      else if Has(swept.pending, key) then
        swept.(toMiner := swept.toMiner
                          + [Refusal(request.id, OTHER_ERROR, "Duplicate submit id still in flight")])
      else
        AfterForward(o, AfterHold(swept, request, nowMs), SubmitUpstream(o, request))
  }

  /** `resolved` is what the injected login resolver answered; only authorize asks it. */
  function AfterMinerMessage(
    o: Options, s: State, message: Message, nowMs: int, resolved: ParsedLogin): State
  {
    if s.ended then s
    else if message.Request? && message.verb == Authorize then
      AfterAuthorize(o, s, message, resolved)
    else if message.Request? && message.verb == Submit then
      AfterSubmit(o, s, message, nowMs)
    else AfterForward(o, s, message)
  }

  function AfterUpstreamReady(s: State): State {
    s.(upstreamReady := true, toUpstream := s.toUpstream + s.queued, queued := [])
  }

  /** The difficulty a message sets, if it is a usable set_difficulty. */
  function DifficultySet(message: Message): Option<real> {
    if message.Request? && message.verb == SetDifficulty
       && |message.params| > 0 && message.params[0].JNumber? && message.params[0].n > 0.0
    then Some(message.params[0].n)
    else None
  }

  function AfterDifficulty(s: State, message: Message): State {
    match DifficultySet(message)
    case None => s
    case Some(value) => s.(difficulty := value, observed := s.observed + [value])
  }

  /** Not guarded by `ended`: lines already read keep arriving after the session ends. */
  function AfterUpstreamMessage(s: State, message: Message): State {
    if message.Request? && message.verb == Reconnect then AfterEnd(s)
    else
      var observed := AfterDifficulty(s, message);
      var resolved :=
        if message.Response? && message.id != NullId
        then AfterResolve(observed, Key(message.id), IsShareAccepted(message))
        else observed;
      resolved.(toMiner := resolved.toMiner + [message])
  }

  /** The session as the source runs it: each handler updates the fields in place. */
  class Session {
    const options: Options
    var dialed: bool
    var upstreamReady: bool
    var identity: Option<WorkerIdentity>
    var difficulty: real
    var ended: bool
    var queued: seq<Message>
    var pending: Pending
    var toUpstream: seq<Message>
    var toMiner: seq<Message>
    var credits: seq<Credit>
    var named: seq<WorkerIdentity>
    var observed: seq<real>

    ghost function Model(): State
      reads this
    {
      State(dialed, upstreamReady, identity, difficulty, ended, queued, pending,
            toUpstream, toMiner, credits, named, observed)
    }

    constructor (options: Options)
      ensures this.options == options
      ensures Model() == INITIAL
    {
      this.options := options;
      dialed, upstreamReady, ended := false, false, false;
      identity, difficulty := None, 1.0;
      queued, pending := [], [];
      toUpstream, toMiner, credits, named, observed := [], [], [], [], [];
    }

    method ExpirePending(nowMs: int)
      modifies this`pending, this`credits
      ensures Model() == AfterExpiry(options, old(Model()), nowMs)
    {
      ghost var n := 0;
      while pending != [] && IsStale(pending[0].value, nowMs, options.submitTimeoutMs)
        invariant n <= |old(pending)| && pending == old(pending)[n..]
        invariant credits == old(credits) + CreditAll(old(pending)[..n], Unresolved)
        invariant StalePrefix(old(pending), nowMs, options.submitTimeoutMs)
               == n + StalePrefix(pending, nowMs, options.submitTimeoutMs)
        decreases |pending|
      {
        CreditAllSnoc(old(pending)[..n], pending[0], Unresolved);
        assert old(pending)[..n + 1] == old(pending)[..n] + [pending[0]];
        credits := credits + [Credit(pending[0].key, pending[0].value.work, Unresolved)];
        pending := pending[1..];
        n := n + 1;
      }
    }

    method ResolveSubmit(id: Id, accepted: bool) returns (found: bool)
      modifies this`pending, this`credits
      ensures found == Has(old(pending), Key(id))
      ensures Model() == AfterResolve(old(Model()), Key(id), accepted)
    {
      var submit := Get(pending, Key(id));
      if submit.None? {
        return false;
      }
      pending := Remove(pending, Key(id));
      credits := credits + [Credit(Key(id), submit.value.work, if accepted then Accepted else Rejected)];
      return true;
    }

    method End()
      modifies this`ended
      ensures Model() == AfterEnd(old(Model()))
    {
      ended := true;
    }

    method Forward(message: Message)
      modifies this`dialed, this`ended, this`queued, this`toUpstream
      ensures Model() == AfterForward(options, old(Model()), message)
    {
      dialed := true;
      if upstreamReady {
        toUpstream := toUpstream + [message];
        return;
      }
      if |queued| >= options.maxQueuedMessages {
        End();
        return;
      }
      queued := queued + [message];
    }

    method HandleAuthorize(request: Message, resolved: ParsedLogin)
      requires request.Request?
      modifies this
      ensures Model() == AfterAuthorize(options, old(Model()), request, resolved)
    {
      if resolved.Refused? {
        toMiner := toMiner
        + [Refusal(request.id, UNAUTHORIZED_WORKER, "Unauthorized worker: " + resolved.reason)];
        return;
      }
      if identity.Some? && identity.value.login != resolved.identity.login {
        End();
        return;
      }
      if identity.None? {
        identity := Some(resolved.identity);
        named := named + [resolved.identity];
      }
      Forward(AuthorizeUpstream(options, request));
    }

    method HandleSubmit(request: Message, nowMs: int)
      requires request.Request?
      modifies this
      ensures Model() == AfterSubmit(options, old(Model()), request, nowMs)
    {
      if identity.None? {
        toMiner := toMiner
        + [Refusal(request.id, UNAUTHORIZED_WORKER, "Unauthorized worker: submit before authorize")];
        return;
      }
      ExpirePending(nowMs);
      if |pending| >= options.maxPendingSubmits {
        End();
        return;
      }
      var key := Key(request.id);
      if Has(pending, key) {
        toMiner := toMiner
        + [Refusal(request.id, OTHER_ERROR, "Duplicate submit id still in flight")];
        return;
      }
      var work := Work(identity.value, JobIdOf(request.params), difficulty, nowMs / 1000);
      pending := Put(pending, key, PendingSubmit(work, nowMs));
      Forward(SubmitUpstream(options, request));
    }

    method HandleMinerMessage(message: Message, nowMs: int, resolved: ParsedLogin)
      modifies this
      ensures Model() == AfterMinerMessage(options, old(Model()), message, nowMs, resolved)
    {
      if ended {
        return;
      }
      if message.Request? {
        if message.verb == Authorize {
          HandleAuthorize(message, resolved);
          return;
        }
        if message.verb == Submit {
          HandleSubmit(message, nowMs);
          return;
        }
      }
      Forward(message);
    }

    method OnUpstreamReady()
      modifies this`upstreamReady, this`toUpstream, this`queued
      ensures Model() == AfterUpstreamReady(old(Model()))
    {
      upstreamReady := true;
      var held := queued;
      queued := [];
      for i := 0 to |held|
        invariant upstreamReady && queued == []
        invariant toUpstream == old(toUpstream) + held[..i]
      {
        toUpstream := toUpstream + [held[i]];
        assert held[..i + 1] == held[..i] + [held[i]];
      }
      assert held[..|held|] == held;
    }

    method ObserveDifficulty(message: Message)
      modifies this`difficulty, this`observed
      ensures Model() == AfterDifficulty(old(Model()), message)
    {
      if !message.Request? || message.verb != SetDifficulty {
        return;
      }
      if |message.params| == 0 || !message.params[0].JNumber? || message.params[0].n <= 0.0 {
        return;
      }
      difficulty := message.params[0].n;
      observed := observed + [difficulty];
    }

    method OnUpstreamMessage(message: Message)
      modifies this
      ensures Model() == AfterUpstreamMessage(old(Model()), message)
    {
      if message.Request? && message.verb == Reconnect {
        End();
        return;
      }
      ObserveDifficulty(message);
      if message.Response? && message.id != NullId {
        var _ := ResolveSubmit(message.id, IsShareAccepted(message));
      }
      toMiner := toMiner + [message];
    }
  }

  lemma {:induction false} CreditAllSnoc(
    pending: Pending, e: Entry<string, PendingSubmit>, outcome: ShareOutcome)
    ensures CreditAll(pending + [e], outcome)
         == CreditAll(pending, outcome) + [Credit(e.key, e.value.work, outcome)]
  {
    if pending != [] {
      CreditAllSnoc(pending[1..], e, outcome);
      assert (pending + [e])[1..] == pending[1..] + [e];
    }
  }
}
