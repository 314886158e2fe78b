/** The rig's ledger and the proxy's books, composed: the miner's messages pass the tap
    and queue for the session, the session's answers queue for the tap. */
module TapAgreement {
  import opened Wrappers
  import opened OrderedMap
  import opened Stratum
  import opened Shares
  import opened SessionFate
  import S = Session
  import SP = SessionProperties
  import T = Tap

  /** `sent` is all the miner has sent, of which the session has read `taken`;
      `relayed` is all the session wrote to the miner, of which the tap saw `seen`. */
  datatype World = World(
    tap: T.State,
    closed: bool,
    sent: seq<Message>,
    taken: nat,
    session: S.State,
    relayed: seq<Message>,
    seen: nat)

  const START := World(T.INITIAL, false, [], 0, S.INITIAL, [], 0)

  datatype Event =
    | MinerSends(message: Message, at: int)
    | SessionReads(nowMs: int, resolved: ParsedLogin)
    | UpstreamReady
    | UpstreamSends(answer: Message)
    | SessionHangsUp
    | TapReads(at: int)
    | TapCloses(at: int)

  predicate Requests(message: Message, key: string) {
    message.Request? && Key(message.id) == key
  }

  predicate SomeRequest(messages: seq<Message>, key: string) {
    exists i :: 0 <= i < |messages| && Requests(messages[i], key)
  }

  /** What the environment may do. The miner uses a fresh, non-null id for each request;
      upstream answers only ids of requests it was sent. Nothing else is assumed: channels
      may stall for ever, upstream may answer late, repeatedly or never. */
  predicate Enabled(w: World, e: Event) {
    match e
    case MinerSends(message, _) =>
      !w.closed && (message.Request? ==>
        message.id != NullId && !SomeRequest(w.sent, Key(message.id)))
    case SessionReads(_, _) => w.taken < |w.sent|
    case UpstreamSends(answer) =>
      answer.Response? && answer.id != NullId ==> SomeRequest(w.session.toUpstream, Key(answer.id))
    case TapReads(_) => !w.closed && w.seen < |w.relayed|
    case TapCloses(_) => !w.closed
    case UpstreamReady => true
    case SessionHangsUp => true
  }

  /** What a session step put on the miner's socket. A socket closed by `end` takes nothing more. */
  function Written(before: S.State, after: S.State): seq<Message> {
    if before.ended then [] else Slice(after.toMiner, |before.toMiner|)
  }

  function SessionStep(o: S.Options, w: World, e: SP.Event): World {
    var after := SP.Step(o, w.session, e);
    w.(session := after, relayed := w.relayed + Written(w.session, after))
  }

  function Step(o: S.Options, w: World, e: Event): World
    requires Enabled(w, e)
  {
    match e
    case MinerSends(message, at) =>
      w.(tap := T.AfterMiner(w.tap, message, at), sent := w.sent + [message])
    case SessionReads(nowMs, resolved) =>
      SessionStep(o, w, SP.FromMiner(w.sent[w.taken], nowMs, resolved)).(taken := w.taken + 1)
    case UpstreamReady => SessionStep(o, w, SP.UpstreamReady)
    case UpstreamSends(answer) => SessionStep(o, w, SP.FromUpstream(answer))
    case SessionHangsUp => SessionStep(o, w, SP.Hangup)
    case TapReads(at) =>
      w.(tap := T.AfterProxy(w.tap, w.relayed[w.seen], at), seen := w.seen + 1)
    case TapCloses(at) => w.(tap := T.AfterDrain(w.tap, at), closed := true)
  }

  /** The world a sequence of events leads to, if each was possible in its turn. */
  function Play(o: S.Options, es: seq<Event>): Option<World> {
    if es == [] then Some(START)
    else
      var before := Play(o, es[..|es| - 1]);
      if before.Some? && Enabled(before.value, es[|es| - 1])
      then Some(Step(o, before.value, es[|es| - 1]))
      else None
  }

  // ---- the traffic about one id --------------------------------------------

  function Answers(messages: seq<Message>, key: string): seq<Message> {
    if messages == [] then []
    else Answers(messages[..|messages| - 1], key)
         + (if AnswersKey(messages[|messages| - 1], key) then [messages[|messages| - 1]] else [])
  }

  function FatesFor(ledger: seq<T.LedgerEntry>, key: string): seq<T.Fate> {
    if ledger == [] then []
    else
      var last := ledger[|ledger| - 1];
      FatesFor(ledger[..|ledger| - 1], key)
      + (if last.Share? && last.share.id == key then [last.fate] else [])
  }

  lemma {:induction false} AnswersConcat(a: seq<Message>, b: seq<Message>, key: string)
    ensures Answers(a + b, key) == Answers(a, key) + Answers(b, key)
  {
    if b == [] {
      assert a + b == a;
    } else {
      AnswersConcat(a, b[..|b| - 1], key);
      assert (a + b)[..|a + b| - 1] == a + b[..|b| - 1];
    }
  }

  // ---- the session's side --------------------------------------------------

  /** How far a request with the id in question has come: not read by the session yet,
      or read and a submit, or read and something else. */
  datatype Phase = NotRead | ReadSubmit | ReadOther

  predicate Asked(s: S.State, key: string) {
    SomeRequest(SP.Outgoing(s), key)
  }

  /** Waiting for a verdict; credited once, in agreement with the first answer that went
      out; or turned away, so that upstream was never asked. */
  predicate SubmitSettled(s: S.State, answers: seq<Message>, key: string) {
    var credits := CreditsFor(s.credits, key);
    if Has(s.pending, key) then credits == [] && answers == []
    else if credits == [] then !Asked(s, key) && (answers != [] ==> !IsShareAccepted(answers[0]))
    else
      && |credits| == 1
      && (credits[0] != Unresolved && answers == [] ==> s.ended)
      && (credits[0] == Accepted && answers != [] ==> IsShareAccepted(answers[0]))
      && (credits[0] == Rejected && answers != [] ==> !IsShareAccepted(answers[0]))
  }

  predicate SessionSide(s: S.State, answers: seq<Message>, key: string, phase: Phase) {
    match phase
    case NotRead => !Has(s.pending, key) && CreditsFor(s.credits, key) == [] && !Asked(s, key) && answers == []
    case ReadOther => !Has(s.pending, key) && CreditsFor(s.credits, key) == []
    case ReadSubmit => SubmitSettled(s, answers, key)
  }

  lemma AskedAfter(before: seq<Message>, more: seq<Message>, key: string)
    ensures SomeRequest(before + more, key) == (SomeRequest(before, key) || SomeRequest(more, key))
  {
    var all := before + more;
    if i :| 0 <= i < |before| && Requests(before[i], key) {
      assert Requests(all[i], key);
    }
    if i :| 0 <= i < |more| && Requests(more[i], key) {
      assert Requests(all[|before| + i], key);
    }
  }

  /** What a miner's message makes the session hand upstream carries that message's id. */
  lemma ForwardsKeepIds(o: S.Options, s: S.State, e: SP.Event, key: string)
    requires e.FromMiner? && !Requests(e.message, key)
    ensures !SomeRequest(SP.Forwards(o, s, e), key)
  {
  }

  lemma SubmitSays(o: S.Options, s: S.State, request: Message, nowMs: int)
    requires request.Request?
    ensures var t := S.AfterSubmit(o, s, request, nowMs);
            t.toMiner == s.toMiner
            || exists code, text :: t.toMiner == s.toMiner + [S.Refusal(request.id, code, text)]
  {
    if s.identity.Some? {
      var held := S.AfterHold(S.AfterExpiry(o, s, nowMs), request, nowMs);
      SP.ForwardLeavesBooks(o, held, S.SubmitUpstream(o, request));
      hide S.AfterForward;
    }
  }

  /** To a miner's message the session itself answers at most once, with a refusal of it. */
  lemma OnlyRefusals(o: S.Options, s: S.State, e: SP.Event)
    requires e.FromMiner?
    ensures var said := Written(s, SP.Step(o, s, e));
            said == [] || (e.message.Request?
                           && exists code, text :: said == [S.Refusal(e.message.id, code, text)])
  {
    hide S.AfterForward, S.AfterSubmit;
    var message := e.message;
    if SP.IsSubmit(e) {
      SubmitSays(o, s, message, e.nowMs);
    } else if message.Request? && message.verb == Authorize && e.resolved.Known? {
      var identity := e.resolved.identity;
      var known := if s.identity.None? then s.(identity := Some(identity), named := s.named + [identity]) else s;
      SP.ForwardLeavesBooks(o, known, S.AuthorizeUpstream(o, message));
    } else {
      SP.ForwardLeavesBooks(o, s, message);
    }
  }

  /** What a message that is not the request in question can do to it: let it expire. */
  lemma OtherMessage(o: S.Options, s: S.State, e: SP.Event, key: string)
    requires SP.WellFormed(o, s) && e.FromMiner? && !Requests(e.message, key)
    ensures var t := SP.Step(o, s, e);
            && (s.ended ==> t.ended)
            && Asked(t, key) == Asked(s, key)
            && (Has(t.pending, key) ==> Has(s.pending, key))
            && CreditsFor(t.credits, key) == CreditsFor(s.credits, key)
                 + (if Has(s.pending, key) && !Has(t.pending, key) then [Unresolved] else [])
            && Answers(Written(s, t), key) == []
  {
    hide S.AfterMinerMessage, S.AfterHold, S.AfterExpiry, SP.Forwards;
    var t := SP.Step(o, s, e);
    if s.ended { StaysEnded(o, s, e); }
    SP.StepForwards(o, s, e);
    AskedAfter(SP.Outgoing(s), SP.Forwards(o, s, e), key);
    ForwardsKeepIds(o, s, e, key);
    OnlyRefusals(o, s, e);
    MessageBooks(o, s, e);
    if SP.IsSubmit(e) {
      ExpiryFor(o, s, e.nowMs, key);
      if s.identity.Some? {
        var swept := S.AfterExpiry(o, s, e.nowMs);
        HoldFor(swept, e.message, e.nowMs, key);
      }
    }
  }

  lemma HoldFor(s: S.State, request: Message, nowMs: int, key: string)
    requires request.Request? && s.identity.Some?
    ensures Has(S.AfterHold(s, request, nowMs).pending, key)
         == (Key(request.id) == key || Has(s.pending, key))
  {
    GetAfterPut(s.pending, Key(request.id), S.PendingSubmit(S.WorkOf(s, request, nowMs), nowMs), key);
  }

  /** A submit read by the session waits, or is turned away without upstream being asked. */
  lemma OwnSubmit(o: S.Options, s: S.State, e: SP.Event, key: string)
    requires SP.WellFormed(o, s) && SP.IsSubmit(e) && Requests(e.message, key)
    requires SessionSide(s, [], key, NotRead)
    ensures SessionSide(SP.Step(o, s, e), Answers(Written(s, SP.Step(o, s, e)), key), key, ReadSubmit)
  {
    hide S.AfterMinerMessage, S.AfterHold, S.AfterExpiry;
    var t := SP.Step(o, s, e);
    SP.StepForwards(o, s, e);
    OnlyRefusals(o, s, e);
    if SP.Admits(o, s, e) { AdmittedOrSilent(o, s, e); }
    MessageBooks(o, s, e);
    ExpiryFor(o, s, e.nowMs, key);
    if s.identity.Some? {
      HoldFor(S.AfterExpiry(o, s, e.nowMs), e.message, e.nowMs, key);
    }
    var said := Written(s, t);
    if said != [] {
      assert said[..0] == [];
    }
  }

  /** An admitted submit is not answered by the session itself. */
  lemma AdmittedOrSilent(o: S.Options, s: S.State, e: SP.Event)
    requires SP.IsSubmit(e) && SP.Admits(o, s, e)
    ensures Written(s, SP.Step(o, s, e)) == []
  {
    var held := S.AfterHold(S.AfterExpiry(o, s, e.nowMs), e.message, e.nowMs);
    SP.ForwardLeavesBooks(o, held, S.SubmitUpstream(o, e.message));
    hide S.AfterForward;
  }

  lemma MessageKeepsSide(
    o: S.Options, s: S.State, e: SP.Event, answers: seq<Message>, key: string, phase: Phase)
    requires SP.WellFormed(o, s) && e.FromMiner? && !Requests(e.message, key)
    requires SessionSide(s, answers, key, phase)
    ensures SessionSide(SP.Step(o, s, e), answers + Answers(Written(s, SP.Step(o, s, e)), key), key, phase)
  {
    hide SP.Step, Asked;
    OtherMessage(o, s, e, key);
    assert answers + [] == answers;
  }

  /** An answer is written to the miner as long as the session has not ended. */
  lemma UpstreamFor(o: S.Options, s: S.State, answer: Message, key: string)
    requires Distinct(s.pending)
    ensures var t := S.AfterUpstreamMessage(s, answer);
            && (s.ended ==> t.ended) && Asked(t, key) == Asked(s, key)
            && Answers(Written(s, t), key) == (if AnswersKey(answer, key) && !s.ended then [answer] else [])
            && (if AnswersKey(answer, key) && Has(s.pending, key) then
                  && !Has(t.pending, key)
                  && CreditsFor(t.credits, key) == CreditsFor(s.credits, key)
                       + [if IsShareAccepted(answer) then Accepted else Rejected]
                else
                  && Has(t.pending, key) == Has(s.pending, key)
                  && CreditsFor(t.credits, key) == CreditsFor(s.credits, key))
  {
    SP.UpstreamBooks(s, answer);
    ResolveFor(s, Key(answer.id), IsShareAccepted(answer), key);
    UpstreamSays(s, answer);
    hide S.AfterUpstreamMessage, S.AfterResolve;
    var said := Written(s, S.AfterUpstreamMessage(s, answer));
    if said != [] {
      assert said[..0] == [];
    }
  }

  lemma UpstreamSays(s: S.State, answer: Message)
    ensures var t := S.AfterUpstreamMessage(s, answer);
            && (s.ended ==> t.ended)
            && Written(s, t) ==
                 if s.ended || (answer.Request? && answer.verb == Reconnect) then [] else [answer]
  {
  }

  lemma UpstreamKeepsSide(
    o: S.Options, s: S.State, answer: Message, answers: seq<Message>, key: string, phase: Phase)
    requires SP.WellFormed(o, s) && SessionSide(s, answers, key, phase)
    requires AnswersKey(answer, key) ==> Asked(s, key)
    ensures var t := SP.Step(o, s, SP.FromUpstream(answer));
            SessionSide(t, answers + Answers(Written(s, t), key), key, phase)
  {
    hide S.AfterUpstreamMessage, Asked, Written, SP.WellFormed, Get, CreditsFor, IsShareAccepted, Answers;
    WellFormedIsDistinct(o, s);
    UpstreamFor(o, s, answer, key);
    assert SP.Step(o, s, SP.FromUpstream(answer)) == S.AfterUpstreamMessage(s, answer);
    hide SP.Step;
    assert answers + [] == answers;
    if answers != [] {
      assert (answers + [answer])[0] == answers[0];
    }
  }

  // ---- the tap's side ------------------------------------------------------

  datatype Sent = Unsent | SentSubmit | SentOther

  function FateOf(answer: Message): T.Fate {
    if IsShareAccepted(answer) then T.Accepted else T.Rejected
  }

  ghost predicate TapShape(t: T.State) {
    && Distinct(t.pending)
    && forall i :: 0 <= i < |t.pending| ==> t.pending[i].value.id == t.pending[i].key
  }

  /** `answers` are those of the id the tap has seen. Its first one decides the share's fate. */
  predicate TapSide(t: T.State, answers: seq<Message>, key: string, sent: Sent, closed: bool) {
    match sent
    case Unsent => !Has(t.pending, key) && FatesFor(t.ledger, key) == [] && key !in t.subscribes
    case SentOther => !Has(t.pending, key) && FatesFor(t.ledger, key) == []
    case SentSubmit =>
      && key !in t.subscribes
      && Has(t.pending, key) == (answers == [] && !closed)
      && FatesFor(t.ledger, key) ==
           if answers != [] then [FateOf(answers[0])]
           else if closed then [T.Unanswered]
           else []
  }

  lemma ResolveWrites(
    t: T.State, entry: T.Pending, fate: T.Fate, reason: Option<string>, at: int, key: string)
    ensures var u := T.AfterResolve(t, entry, fate, reason, at);
            && u.pending == t.pending && u.subscribes == t.subscribes
            && FatesFor(u.ledger, key) == FatesFor(t.ledger, key) + (if entry.id == key then [fate] else [])
  {
    var w, u := T.AfterWriteJob(t, entry.jobId, at), T.AfterResolve(t, entry, fate, reason, at);
    assert u.ledger[..|u.ledger| - 1] == w.ledger;
    if w != t {
      assert w.ledger[..|w.ledger| - 1] == t.ledger;
    }
  }

  lemma {:induction false} DrainWrites(t: T.State, left: OMap<string, T.Pending>, at: int, key: string)
    requires Distinct(left) && forall i :: 0 <= i < |left| ==> left[i].value.id == left[i].key
    ensures var u := T.AfterDrainOf(t, left, at);
            && u.subscribes == t.subscribes
            && FatesFor(u.ledger, key)
               == FatesFor(t.ledger, key) + (if Has(left, key) then [T.Unanswered] else [])
    decreases left
  {
    if left != [] {
      ResolveWrites(t, left[0].value, T.Unanswered, None, at, key);
      DrainWrites(T.AfterResolve(t, left[0].value, T.Unanswered, None, at), left[1..], at, key);
      GetIsMembership(left[1..], key);
      hide T.AfterResolve;
    }
  }

  lemma PendingIdIsKey(t: T.State, key: string)
    requires TapShape(t) && Has(t.pending, key)
    ensures Get(t.pending, key).value.id == key
  {
    GetIsMembership(t.pending, key);
  }

  lemma MinerKeepsTapShape(t: T.State, message: Message, at: int)
    requires TapShape(t)
    ensures TapShape(T.AfterMiner(t, message, at))
  {
    if message.Request? && message.verb == Submit {
      var key := Key(message.id);
      var entry := T.Pending(at, key, SpellParam(message.params, 1), Slice(message.params, 1),
                             t.extranonce1, t.difficulty, t.target);
      PutKeepsDistinct(t.pending, key, entry);
      PutShape(t.pending, key, entry);
      PutKeepsIds(t.pending, key, entry);
    }
  }

  lemma {:induction false} PutKeepsIds(m: OMap<string, T.Pending>, key: string, entry: T.Pending)
    requires entry.id == key
    requires forall i :: 0 <= i < |m| ==> m[i].value.id == m[i].key
    ensures forall i :: 0 <= i < |Put(m, key, entry)| ==> Put(m, key, entry)[i].value.id == Put(m, key, entry)[i].key
  {
    if m != [] && m[0].key != key {
      PutKeepsIds(m[1..], key, entry);
    }
  }

  lemma RemoveKeepsTapShape(t: T.State, id: string)
    requires TapShape(t)
    ensures TapShape(t.(pending := Remove(t.pending, id)))
  {
    RemoveKeepsDistinct(t.pending, id);
    var _ := RemoveShape(t.pending, id);
  }

  lemma AnswerKeepsTapShape(t: T.State, answer: Message, at: int)
    requires TapShape(t) && answer.Response?
    ensures TapShape(T.AfterAnswer(t, answer, at))
  {
    hide T.AfterResolve, Remove, Get, FatesFor;
    var id := Key(answer.id);
    RemoveKeepsTapShape(t, id);
    if Has(t.pending, id) {
      var u := t.(pending := Remove(t.pending, id));
      ResolveWrites(u, Get(t.pending, id).value, T.Accepted, None, at, id);
      ResolveWrites(u, Get(t.pending, id).value, T.Rejected,
                    if answer.error.None? then None else Some(answer.error.value.message), at, id);
    }
  }

  /** A message to the miner changes nothing for an id it does not answer. */
  lemma AnswerFor(t: T.State, answer: Message, at: int, key: string)
    requires TapShape(t) && answer.Response?
    ensures var u := T.AfterAnswer(t, answer, at);
            && u.subscribes <= t.subscribes
            && (if AnswersKey(answer, key) && key !in t.subscribes && Has(t.pending, key) then
                  && !Has(u.pending, key)
                  && FatesFor(u.ledger, key) == FatesFor(t.ledger, key) + [FateOf(answer)]
                else
                  Has(u.pending, key) == Has(t.pending, key)
                  && FatesFor(u.ledger, key) == FatesFor(t.ledger, key))
  {
    hide T.AfterResolve, Remove, Get, FatesFor;
    var id := Key(answer.id);
    GetAfterRemove(t.pending, id, key);
    if Has(t.pending, id) {
      PendingIdIsKey(t, id);
      var u := t.(pending := Remove(t.pending, id));
      ResolveWrites(u, Get(t.pending, id).value, T.Accepted, None, at, key);
      ResolveWrites(u, Get(t.pending, id).value, T.Rejected,
                    if answer.error.None? then None else Some(answer.error.value.message), at, key);
    }
  }

  lemma NoticeFor(t: T.State, message: Message, at: int)
    requires message.Request?
    ensures var u := T.AfterProxy(t, message, at);
            u.pending == t.pending && u.subscribes == t.subscribes && u.ledger == t.ledger
  {
  }

  lemma TapReadsSide(
    t: T.State, message: Message, at: int, answers: seq<Message>, key: string, sent: Sent)
    requires TapShape(t) && TapSide(t, answers, key, sent, false)
    requires sent.Unsent? ==> !AnswersKey(message, key)
    ensures TapShape(T.AfterProxy(t, message, at))
    ensures TapSide(T.AfterProxy(t, message, at),
                    answers + (if AnswersKey(message, key) then [message] else []), key, sent, false)
  {
    assert answers + [] == answers;
    if message.Request? {
      NoticeFor(t, message, at);
    } else {
      AnswerKeepsTapShape(t, message, at);
      AnswerFor(t, message, at, key);
    }
    hide T.AfterAnswer, T.AfterNotify;
  }

  lemma TapClosesSide(t: T.State, at: int, answers: seq<Message>, key: string, sent: Sent)
    requires TapShape(t) && TapSide(t, answers, key, sent, false)
    ensures TapShape(T.AfterDrain(t, at)) && TapSide(T.AfterDrain(t, at), answers, key, sent, true)
  {
    DrainWrites(t, t.pending, at, key);
  }

  lemma TapHearsMiner(
    t: T.State, message: Message, at: int, answers: seq<Message>, key: string, sent: Sent)
    requires TapSide(t, answers, key, sent, false)
    requires Requests(message, key) ==> message.id != NullId && sent == Unsent && answers == []
    ensures TapSide(T.AfterMiner(t, message, at), answers, key,
                    if Requests(message, key) then SentBy(message) else sent, false)
  {
    if message.Request? && message.verb == Submit {
      var entry := T.Pending(at, Key(message.id), SpellParam(message.params, 1), Slice(message.params, 1),
                             t.extranonce1, t.difficulty, t.target);
      GetAfterPut(t.pending, Key(message.id), entry, key);
    }
  }

  function SentBy(message: Message): Sent
    requires message.Request?
  {
    if message.verb == Submit then SentSubmit else SentOther
  }

  // ---- both sides, over every interleaving ---------------------------------

  /** What request the id in question named, if one was made. */
  function RequestIn(messages: seq<Message>, key: string): Option<Message> {
    if messages == [] then None
    else if Requests(messages[|messages| - 1], key) then Some(messages[|messages| - 1])
    else RequestIn(messages[..|messages| - 1], key)
  }

  function SentAs(messages: seq<Message>, key: string): Sent {
    match RequestIn(messages, key)
    case None => Unsent
    case Some(request) => if request.Request? && request.verb == Submit then SentSubmit else SentOther
  }

  function ReadAs(messages: seq<Message>, key: string): Phase {
    match SentAs(messages, key)
    case Unsent => NotRead
    case SentSubmit => ReadSubmit
    case SentOther => ReadOther
  }

  lemma {:induction false} NoRequestIn(messages: seq<Message>, key: string)
    ensures RequestIn(messages, key).None? <==> !SomeRequest(messages, key)
    ensures RequestIn(messages, key).Some? ==> Requests(RequestIn(messages, key).value, key)
  {
    if messages != [] {
      var n := |messages| - 1;
      NoRequestIn(messages[..n], key);
      assert messages == messages[..n] + [messages[n]];
      AskedAfter(messages[..n], [messages[n]], key);
      assert SomeRequest([messages[n]], key) == Requests(messages[n], key) by {
        assert [messages[n]][0] == messages[n];
      }
    }
  }

  ghost predicate FreshIds(messages: seq<Message>) {
    && (forall i :: 0 <= i < |messages| && messages[i].Request? ==> messages[i].id != NullId)
    && (forall i, j :: 0 <= i < j < |messages| && messages[i].Request? && messages[j].Request? ==>
          Key(messages[i].id) != Key(messages[j].id))
  }

  ghost predicate Inv(o: S.Options, w: World, key: string) {
    && SP.WellFormed(o, w.session) && TapShape(w.tap) && FreshIds(w.sent)
    && w.taken <= |w.sent| && w.seen <= |w.relayed|
    && SessionSide(w.session, Answers(w.relayed, key), key, ReadAs(w.sent[..w.taken], key))
    && TapSide(w.tap, Answers(w.relayed[..w.seen], key), key, SentAs(w.sent, key), w.closed)
  }

  /** What the session has read of an id is nothing, or what the miner sent under it. */
  lemma {:induction false} ReadIsSent(messages: seq<Message>, n: nat, key: string)
    requires n <= |messages| && FreshIds(messages)
    ensures SentAs(messages[..n], key) == Unsent || SentAs(messages[..n], key) == SentAs(messages, key)
  {
    if n == |messages| {
      assert messages[..n] == messages;
    } else {
      var m := |messages| - 1;
      ReadIsSent(messages[..m], n, key);
      assert messages[..m][..n] == messages[..n];
      if Requests(messages[m], key) {
        NoRequestIn(messages[..n], key);
      }
    }
  }

  lemma SeenIsPrefix(w: World, key: string)
    requires w.seen <= |w.relayed|
    ensures Answers(w.relayed[..w.seen], key) <= Answers(w.relayed, key)
  {
    AnswersConcat(w.relayed[..w.seen], w.relayed[w.seen..], key);
    assert w.relayed[..w.seen] + w.relayed[w.seen..] == w.relayed;
  }

  lemma MinerSendsKeeps(o: S.Options, w: World, message: Message, at: int, key: string)
    requires Inv(o, w, key) && Enabled(w, MinerSends(message, at))
    ensures Inv(o, Step(o, w, MinerSends(message, at)), key)
  {
    hide T.AfterMiner, TapSide, SubmitSettled, TapShape, SP.WellFormed;
    var v := Step(o, w, MinerSends(message, at));
    assert v.sent[..v.taken] == w.sent[..w.taken];
    assert v.sent[..|v.sent| - 1] == w.sent;
    NoRequestIn(w.sent, key);
    ReadIsSent(w.sent, w.taken, key);
    SeenIsPrefix(w, key);
    MinerKeepsTapShape(w.tap, message, at);
    TapHearsMiner(w.tap, message, at, Answers(w.relayed[..w.seen], key), key, SentAs(w.sent, key));
    if message.Request? {
      NoRequestIn(w.sent, Key(message.id));
      forall i | 0 <= i < |w.sent| && w.sent[i].Request? ensures Key(w.sent[i].id) != Key(message.id) {
        assert !Requests(w.sent[i], Key(message.id));
      }
    }
  }

  lemma SessionWrites(o: S.Options, w: World, e: SP.Event, key: string)
    requires w.seen <= |w.relayed|
    ensures var v := SessionStep(o, w, e);
            && v.relayed[..v.seen] == w.relayed[..w.seen] && v.seen <= |v.relayed|
            && Answers(v.relayed, key) == Answers(w.relayed, key) + Answers(Written(w.session, v.session), key)
  {
    hide SP.Step;
    AnswersConcat(w.relayed, Written(w.session, SP.Step(o, w.session, e)), key);
  }

  /** The session's side after reading one more of the miner's messages. */
  lemma ReadsKeepsSide(o: S.Options, w: World, e: SP.Event, key: string)
    requires Inv(o, w, key) && w.taken < |w.sent| && e.FromMiner? && e.message == w.sent[w.taken]
    ensures var t := SP.Step(o, w.session, e);
            SessionSide(t, Answers(w.relayed, key) + Answers(Written(w.session, t), key), key,
                        ReadAs(w.sent[..w.taken + 1], key))
  {
    hide SP.Step, TapSide, SubmitSettled, TapShape, SP.WellFormed, Written, Asked;
    var message, s, answers := e.message, w.session, Answers(w.relayed, key);
    assert w.sent[..w.taken + 1][..w.taken] == w.sent[..w.taken];
    if Requests(message, key) {
      NoRequestIn(w.sent[..w.taken], key);
      var said := Answers(Written(s, SP.Step(o, s, e)), key);
      assert answers == [] && [] + said == said;
      if message.verb == Submit {
        OwnSubmit(o, s, e, key);
      } else {
        SP.OtherBooks(o, s, e);
      }
    } else {
      MessageKeepsSide(o, s, e, answers, key, ReadAs(w.sent[..w.taken], key));
    }
  }

  lemma SessionReadsKeeps(o: S.Options, w: World, nowMs: int, resolved: ParsedLogin, key: string)
    requires Inv(o, w, key) && w.taken < |w.sent|
    ensures Inv(o, Step(o, w, SessionReads(nowMs, resolved)), key)
  {
    hide SP.Step, TapSide, SessionSide, TapShape, SP.WellFormed, Written;
    var e := SP.FromMiner(w.sent[w.taken], nowMs, resolved);
    SessionWrites(o, w, e, key);
    SP.StepKeepsWellFormed(o, w.session, e);
    ReadsKeepsSide(o, w, e, key);
  }

  lemma UpstreamKeeps(o: S.Options, w: World, e: SP.Event, key: string)
    requires Inv(o, w, key) && !e.FromMiner?
    requires e.FromUpstream? && AnswersKey(e.answer, key) ==> SomeRequest(w.session.toUpstream, key)
    ensures Inv(o, SessionStep(o, w, e), key)
  {
    var s, answers, phase := w.session, Answers(w.relayed, key), ReadAs(w.sent[..w.taken], key);
    SessionWrites(o, w, e, key);
    SP.StepKeepsWellFormed(o, s, e);
    AskedAfter(s.toUpstream, s.queued, key);
    match e {
      case FromUpstream(answer) => UpstreamKeepsSide(o, s, answer, answers, key, phase);
      case UpstreamReady =>
        assert SP.Outgoing(S.AfterUpstreamReady(s)) == SP.Outgoing(s);
        assert answers + [] == answers;
      case Hangup => assert answers + [] == answers;
    }
    hide S.AfterUpstreamMessage, TapSide, TapShape, SP.WellFormed;
  }

  lemma TapKeeps(o: S.Options, w: World, e: Event, key: string)
    requires Inv(o, w, key) && Enabled(w, e) && (e.TapReads? || e.TapCloses?)
    ensures Inv(o, Step(o, w, e), key)
  {
    var seen, sent := Answers(w.relayed[..w.seen], key), SentAs(w.sent, key);
    match e
    case TapReads(at) =>
      var message := w.relayed[w.seen];
      assert w.relayed[..w.seen + 1][..w.seen] == w.relayed[..w.seen];
      SeenIsPrefix(w.(seen := w.seen + 1), key);
      ReadIsSent(w.sent, w.taken, key);
      TapReadsSide(w.tap, message, at, seen, key, sent);
      hide T.AfterProxy, TapSide, SubmitSettled, TapShape, SP.WellFormed;
    case TapCloses(at) =>
      TapClosesSide(w.tap, at, seen, key, sent);
      hide T.AfterDrain, TapSide, SessionSide, TapShape, SP.WellFormed;
  }

  lemma StepKeeps(o: S.Options, w: World, e: Event, key: string)
    requires Inv(o, w, key) && Enabled(w, e)
    ensures Inv(o, Step(o, w, e), key)
  {
    hide Inv, SessionStep, T.AfterMiner, T.AfterProxy, T.AfterDrain;
    match e
    case MinerSends(message, at) => MinerSendsKeeps(o, w, message, at, key);
    case SessionReads(nowMs, resolved) => SessionReadsKeeps(o, w, nowMs, resolved, key);
    case UpstreamReady => UpstreamKeeps(o, w, SP.UpstreamReady, key);
    case UpstreamSends(answer) => UpstreamKeeps(o, w, SP.FromUpstream(answer), key);
    case SessionHangsUp => UpstreamKeeps(o, w, SP.Hangup, key);
    case TapReads(at) => TapKeeps(o, w, e, key);
    case TapCloses(at) => TapKeeps(o, w, e, key);
  }

  lemma {:induction false} PlayKeeps(o: S.Options, es: seq<Event>, key: string)
    requires Play(o, es).Some?
    ensures Inv(o, Play(o, es).value, key)
  {
    if es != [] {
      PlayKeeps(o, es[..|es| - 1], key);
      StepKeeps(o, Play(o, es[..|es| - 1]).value, es[|es| - 1], key);
      hide Step, Inv;
    }
  }

  /** What the two sides together say about one submit. */
  predicate Agreed(w: World, key: string) {
    var books, ledger := CreditsFor(w.session.credits, key), FatesFor(w.tap.ledger, key);
    var answered := w.seen <= |w.relayed| && Answers(w.relayed[..w.seen], key) != [];
    && |books| <= 1 && |ledger| <= 1
    && (ledger == [T.Accepted] ==> books == [Accepted] || books == [Unresolved])
    && (ledger == [T.Rejected] ==> books != [Accepted])
    && (answered && books == [Accepted] ==> ledger == [T.Accepted])
    && (answered && books == [Rejected] ==> ledger == [T.Rejected])
    && (!answered && w.closed ==> ledger == [T.Unanswered])
  }

  /** The session's side of a submit that was sent, read yet or not. */
  lemma BooksSay(s: S.State, answers: seq<Message>, key: string, phase: Phase)
    requires SessionSide(s, answers, key, phase) && phase != ReadOther
    ensures var books := CreditsFor(s.credits, key);
            && |books| <= 1
            && (answers != [] && books == [Accepted] ==> IsShareAccepted(answers[0]))
            && (answers != [] && books == [Rejected] ==> !IsShareAccepted(answers[0]))
            && (answers != [] && IsShareAccepted(answers[0]) ==> books == [Accepted] || books == [Unresolved])
  {
    hide CreditsFor, Get, IsShareAccepted, Asked;
    var books := CreditsFor(s.credits, key);
    if |books| == 1 {
      assert books == [books[0]];
    }
  }

  lemma SidesAgree(o: S.Options, w: World, key: string)
    requires Inv(o, w, key) && SentAs(w.sent, key) == SentSubmit
    ensures Agreed(w, key)
  {
    hide SP.WellFormed, TapShape, FreshIds, SessionSide, CreditsFor, FatesFor, Answers, IsShareAccepted, Get;
    ReadIsSent(w.sent, w.taken, key);
    SeenIsPrefix(w, key);
    var seen, answers := Answers(w.relayed[..w.seen], key), Answers(w.relayed, key);
    BooksSay(w.session, answers, key, ReadAs(w.sent[..w.taken], key));
    if seen != [] {
      assert seen[0] == answers[0];
    }
  }

  /** The books and the rig's ledger never disagree about a submit. For every interleaving
      of miner, tap, session and upstream: each side records it at most once; a share the
      ledger calls accepted was credited as accepted, or the session had already given it up
      as unresolved; and once the tap has seen an answer to a share the books call accepted
      (or rejected), the ledger calls it the same. */
  lemma LedgerAgreesWithBooks(o: S.Options, es: seq<Event>, key: string)
    requires Play(o, es).Some? && SentAs(Play(o, es).value.sent, key) == SentSubmit
    ensures Agreed(Play(o, es).value, key)
  {
    hide Play, Inv, Agreed;
    PlayKeeps(o, es, key);
    SidesAgree(o, Play(o, es).value, key);
  }
}
