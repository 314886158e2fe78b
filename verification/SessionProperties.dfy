/** What holds over every run of a session. */
module SessionProperties {
  import opened Wrappers
  import opened OrderedMap
  import opened Shares
  import opened Stratum
  import opened Session

  datatype Event =
    | FromMiner(message: Message, nowMs: int, resolved: ParsedLogin)
    | UpstreamReady
    | FromUpstream(answer: Message)
    | Hangup

  function Step(o: Options, s: State, e: Event): State {
    match e
    case FromMiner(message, nowMs, resolved) => AfterMinerMessage(o, s, message, nowMs, resolved)
    case UpstreamReady => AfterUpstreamReady(s)
    case FromUpstream(answer) => AfterUpstreamMessage(s, answer)
    case Hangup => AfterEnd(s)
  }

  function Run(o: Options, es: seq<Event>): State {
    if es == [] then INITIAL else Step(o, Run(o, es[..|es| - 1]), es[|es| - 1])
  }

  predicate IsSubmit(e: Event) {
    e.FromMiner? && e.message.Request? && e.message.verb == Submit
  }

  predicate Names(e: Event) {
    e.FromMiner? && e.message.Request? && e.message.verb == Authorize && e.resolved.Known?
  }

  // ---- what each piece of a step leaves alone --------------------------------

  lemma ForwardLeavesBooks(o: Options, s: State, message: Message)
    ensures var t := AfterForward(o, s, message);
            && t.identity == s.identity && t.difficulty == s.difficulty
            && t.pending == s.pending && t.credits == s.credits && t.toMiner == s.toMiner
            && t.upstreamReady == s.upstreamReady && t.named == s.named && t.observed == s.observed
  {
  }

  /** A submit changes the books only by sweeping and, when admitted, by holding itself. */
  lemma SubmitBooks(o: Options, s: State, request: Message, nowMs: int)
    requires request.Request?
    ensures var t := AfterSubmit(o, s, request, nowMs);
            var swept := AfterExpiry(o, s, nowMs);
            && t.identity == swept.identity == s.identity && t.difficulty == s.difficulty
            && (s.identity.None? ==> t.pending == s.pending && t.credits == s.credits)
            && (s.identity.Some? ==> t.credits == swept.credits)
            && var held := |swept.pending| < o.maxPendingSubmits && !Has(swept.pending, Key(request.id));
            && (s.identity.Some? && held ==> t.pending == AfterHold(swept, request, nowMs).pending)
            && (s.identity.Some? && !held ==> t.pending == swept.pending)
  {
    if s.identity.Some? {
      ForwardLeavesBooks(o, AfterHold(AfterExpiry(o, s, nowMs), request, nowMs), SubmitUpstream(o, request));
    }
  }

  /** Upstream's messages change the books only by setting the difficulty or answering one id. */
  lemma UpstreamBooks(s: State, answer: Message)
    ensures var t := AfterUpstreamMessage(s, answer);
            var r := AfterResolve(s, Key(answer.id), IsShareAccepted(answer));
            && t.identity == s.identity
            && t.difficulty == (if DifficultySet(answer).Some? then DifficultySet(answer).value else s.difficulty)
            && t.queued == s.queued && t.toUpstream == s.toUpstream && t.upstreamReady == s.upstreamReady
            && t.dialed == s.dialed
            && (if answer.Response? && answer.id != NullId
                then t.pending == r.pending && t.credits == r.credits
                else t.pending == s.pending && t.credits == s.credits)
  {
  }

  /** Every other event leaves the books alone, but for naming the worker. */
  lemma OtherBooks(o: Options, s: State, e: Event)
    requires !e.FromUpstream? && !IsSubmit(e)
    ensures Step(o, s, e).pending == s.pending && Step(o, s, e).credits == s.credits
    ensures Step(o, s, e).difficulty == s.difficulty
    ensures s.identity.Some? ==> Step(o, s, e).identity == s.identity
    ensures s.identity.None? && Step(o, s, e).identity.Some? ==>
      Names(e) && Step(o, s, e).identity == Some(e.resolved.identity)
  {
    hide AfterSubmit;
  }

  // ---- bounds and shape ------------------------------------------------------

  ghost predicate WellFormed(o: Options, s: State) {
    && Distinct(s.pending)
    && |s.pending| <= o.maxPendingSubmits
    && |s.queued| <= o.maxQueuedMessages
    && (s.upstreamReady ==> s.queued == [])
    && (s.identity.None? ==> s.pending == [] && s.credits == [])
  }

  lemma ResolveShape(s: State, key: string, accepted: bool)
    requires Distinct(s.pending)
    ensures Distinct(AfterResolve(s, key, accepted).pending)
    ensures |AfterResolve(s, key, accepted).pending| <= |s.pending|
  {
    RemoveKeepsDistinct(s.pending, key);
    var _ := RemoveShape(s.pending, key);
  }

  lemma ForwardShape(o: Options, s: State, message: Message)
    requires WellFormed(o, s)
    ensures WellFormed(o, AfterForward(o, s, message))
  {
  }

  lemma ExpiryShape(o: Options, s: State, nowMs: int)
    requires WellFormed(o, s)
    ensures WellFormed(o, AfterExpiry(o, s, nowMs))
  {
  }

  lemma SubmitShape(o: Options, s: State, request: Message, nowMs: int)
    requires WellFormed(o, s) && request.Request?
    ensures WellFormed(o, AfterSubmit(o, s, request, nowMs))
  {
    if s.identity.Some? {
      ExpiryShape(o, s, nowMs);
      var swept := AfterExpiry(o, s, nowMs);
      if |swept.pending| < o.maxPendingSubmits && !Has(swept.pending, Key(request.id)) {
        HoldShape(o, swept, request, nowMs);
        ForwardShape(o, AfterHold(swept, request, nowMs), SubmitUpstream(o, request));
      }
      hide AfterHold, AfterExpiry, AfterForward;
    }
  }

  lemma HoldShape(o: Options, s: State, request: Message, nowMs: int)
    requires WellFormed(o, s) && request.Request? && s.identity.Some?
    requires |s.pending| < o.maxPendingSubmits && !Has(s.pending, Key(request.id))
    ensures WellFormed(o, AfterHold(s, request, nowMs))
  {
    var submit := PendingSubmit(WorkOf(s, request, nowMs), nowMs);
    PutShape(s.pending, Key(request.id), submit);
    PutKeepsDistinct(s.pending, Key(request.id), submit);
  }

  lemma AuthorizeShape(o: Options, s: State, request: Message, resolved: ParsedLogin)
    requires WellFormed(o, s) && request.Request?
    ensures WellFormed(o, AfterAuthorize(o, s, request, resolved))
  {
    if resolved.Known? {
      var named := if s.identity.None? then s.(identity := Some(resolved.identity)) else s;
      ForwardShape(o, named, AuthorizeUpstream(o, request));
    }
  }

  lemma UpstreamShape(o: Options, s: State, answer: Message)
    requires WellFormed(o, s)
    ensures WellFormed(o, AfterUpstreamMessage(s, answer))
  {
    UpstreamBooks(s, answer);
    ResolveShape(s, Key(answer.id), IsShareAccepted(answer));
    hide AfterUpstreamMessage;
  }

  lemma StepKeepsWellFormed(o: Options, s: State, e: Event)
    requires WellFormed(o, s)
    ensures WellFormed(o, Step(o, s, e))
  {
    hide AfterSubmit, AfterAuthorize, AfterForward, AfterUpstreamMessage;
    match e
    case FromMiner(message, nowMs, resolved) =>
      if IsSubmit(e) {
        SubmitShape(o, s, message, nowMs);
      } else if message.Request? && message.verb == Authorize {
        AuthorizeShape(o, s, message, resolved);
      } else {
        ForwardShape(o, s, message);
      }
    case FromUpstream(answer) => UpstreamShape(o, s, answer);
    case UpstreamReady =>
    case Hangup =>
  }

  /** The two ceilings hold in every reachable state, ended or not. */
  lemma {:induction false} RunIsWellFormed(o: Options, es: seq<Event>)
    ensures WellFormed(o, Run(o, es))
  {
    if es != [] {
      RunIsWellFormed(o, es[..|es| - 1]);
      StepKeepsWellFormed(o, Run(o, es[..|es| - 1]), es[|es| - 1]);
    }
  }

  // ---- conservation of shares -----------------------------------------------

  /** A submit from an authorized miner that finds room and an id not in flight. */
  predicate Admits(o: Options, s: State, e: Event) {
    && IsSubmit(e) && !s.ended && s.identity.Some?
    && var live := s.pending[StalePrefix(s.pending, e.nowMs, o.submitTimeoutMs)..];
       |live| < o.maxPendingSubmits && !Has(live, Key(e.message.id))
  }

  function AdmittedBy(o: Options, s: State, e: Event): seq<Work> {
    if Admits(o, s, e) then [WorkOf(s, e.message, e.nowMs)] else []
  }

  function Admitted(o: Options, es: seq<Event>): seq<Work> {
    if es == [] then []
    else Admitted(o, es[..|es| - 1]) + AdmittedBy(o, Run(o, es[..|es| - 1]), es[|es| - 1])
  }

  function Times(works: seq<Work>, w: Work): nat {
    if works == [] then 0
    else Times(works[..|works| - 1], w) + (if works[|works| - 1] == w then 1 else 0)
  }

  function TimesHeld(pending: Pending, w: Work): nat {
    if pending == [] then 0
    else (if pending[0].value.work == w then 1 else 0) + TimesHeld(pending[1..], w)
  }

  function TimesCredited(credits: seq<Credit>, w: Work): nat {
    if credits == [] then 0
    else TimesCredited(credits[..|credits| - 1], w) + (if credits[|credits| - 1].work == w then 1 else 0)
  }

  lemma {:induction false} TimesConcat(a: seq<Work>, b: seq<Work>, w: Work)
    ensures Times(a + b, w) == Times(a, w) + Times(b, w)
  {
    if b == [] {
      assert a + b == a;
    } else {
      TimesConcat(a, b[..|b| - 1], w);
      assert (a + b)[..|a + b| - 1] == a + b[..|b| - 1];
    }
  }

  lemma {:induction false} TimesHeldConcat(a: Pending, b: Pending, w: Work)
    ensures TimesHeld(a + b, w) == TimesHeld(a, w) + TimesHeld(b, w)
  {
    if a == [] {
      assert a + b == b;
    } else {
      TimesHeldConcat(a[1..], b, w);
      assert (a + b)[1..] == a[1..] + b;
    }
  }

  lemma {:induction false} TimesCreditedConcat(a: seq<Credit>, b: seq<Credit>, w: Work)
    ensures TimesCredited(a + b, w) == TimesCredited(a, w) + TimesCredited(b, w)
  {
    if b == [] {
      assert a + b == a;
    } else {
      TimesCreditedConcat(a, b[..|b| - 1], w);
      assert (a + b)[..|a + b| - 1] == a + b[..|b| - 1];
    }
  }

  lemma {:induction false} CreditAllConservesWork(pending: Pending, outcome: ShareOutcome, w: Work)
    ensures TimesCredited(CreditAll(pending, outcome), w) == TimesHeld(pending, w)
  {
    if pending != [] {
      CreditAllConservesWork(pending[1..], outcome, w);
      var first := [Credit(pending[0].key, pending[0].value.work, outcome)];
      TimesCreditedConcat(first, CreditAll(pending[1..], outcome), w);
      assert first[..0] == [];
    }
  }

  function TimesBooked(s: State, w: Work): nat {
    TimesCredited(s.credits, w) + TimesHeld(s.pending, w)
  }

  lemma ExpiryConservesWork(o: Options, s: State, nowMs: int, w: Work)
    ensures TimesBooked(AfterExpiry(o, s, nowMs), w) == TimesBooked(s, w)
  {
    hide TimesCredited, TimesHeld, CreditAll, StalePrefix;
    var n := StalePrefix(s.pending, nowMs, o.submitTimeoutMs);
    TimesCreditedConcat(s.credits, CreditAll(s.pending[..n], Unresolved), w);
    CreditAllConservesWork(s.pending[..n], Unresolved, w);
    TimesHeldConcat(s.pending[..n], s.pending[n..], w);
    assert s.pending[..n] + s.pending[n..] == s.pending;
  }

  lemma {:induction false} TimesHeldAfterRemove(pending: Pending, key: string, w: Work)
    ensures TimesHeld(pending, w) == TimesHeld(Remove(pending, key), w)
         + (if Has(pending, key) && Get(pending, key).value.work == w then 1 else 0)
  {
    if pending != [] && pending[0].key != key {
      TimesHeldAfterRemove(pending[1..], key, w);
      assert Remove(pending, key)[1..] == Remove(pending[1..], key);
    }
  }

  lemma ResolveConservesWork(s: State, key: string, accepted: bool, w: Work)
    ensures TimesBooked(AfterResolve(s, key, accepted), w) == TimesBooked(s, w)
  {
    if Has(s.pending, key) {
      TimesHeldAfterRemove(s.pending, key, w);
      var credits := AfterResolve(s, key, accepted).credits;
      assert credits[..|credits| - 1] == s.credits;
    }
  }

  lemma HoldAddsWork(s: State, request: Message, nowMs: int, w: Work)
    requires request.Request? && s.identity.Some? && !Has(s.pending, Key(request.id))
    ensures TimesHeld(AfterHold(s, request, nowMs).pending, w)
         == TimesHeld(s.pending, w) + Times([WorkOf(s, request, nowMs)], w)
  {
    var submit := PendingSubmit(WorkOf(s, request, nowMs), nowMs);
    PutShape(s.pending, Key(request.id), submit);
    TimesHeldConcat(s.pending, [Entry(Key(request.id), submit)], w);
    assert [WorkOf(s, request, nowMs)][..0] == [];
  }

  lemma SubmitConservesWork(o: Options, s: State, e: Event, w: Work)
    requires IsSubmit(e) && !s.ended
    ensures TimesBooked(AfterSubmit(o, s, e.message, e.nowMs), w)
         == TimesBooked(s, w) + Times(AdmittedBy(o, s, e), w)
  {
    SubmitBooks(o, s, e.message, e.nowMs);
    if s.identity.Some? {
      ExpiryConservesWork(o, s, e.nowMs, w);
      if Admits(o, s, e) {
        HoldAddsWork(AfterExpiry(o, s, e.nowMs), e.message, e.nowMs, w);
      }
    }
    hide AfterSubmit, AfterHold;
  }

  lemma StepConservesWork(o: Options, s: State, e: Event, w: Work)
    ensures TimesBooked(Step(o, s, e), w) == TimesBooked(s, w) + Times(AdmittedBy(o, s, e), w)
  {
    hide AfterSubmit, AfterUpstreamMessage, AfterResolve, AfterAuthorize, AfterForward;
    hide Admits, AdmittedBy, TimesCredited, TimesHeld;
    OnlySubmitsAreAdmitted(o, s, e, w);
    if IsSubmit(e) {
      if !s.ended {
        SubmitConservesWork(o, s, e, w);
      }
    } else if e.FromUpstream? {
      UpstreamBooks(s, e.answer);
      ResolveConservesWork(s, Key(e.answer.id), IsShareAccepted(e.answer), w);
    } else {
      OtherBooks(o, s, e);
    }
  }

  lemma OnlySubmitsAreAdmitted(o: Options, s: State, e: Event, w: Work)
    ensures !IsSubmit(e) || s.ended ==> Times(AdmittedBy(o, s, e), w) == 0
  {
  }

  /** Every admitted submit is in the books exactly once: credited with one outcome,
      or still pending. Nothing else is. `end` drains nothing: what becomes of a submit
      left pending when the session ends is told in `SessionFate`. */
  lemma {:induction false} SharesAreConserved(o: Options, es: seq<Event>, w: Work)
    ensures Times(Admitted(o, es), w)
         == TimesCredited(Run(o, es).credits, w) + TimesHeld(Run(o, es).pending, w)
  {
    if es != [] {
      var n := |es| - 1;
      SharesAreConserved(o, es[..n], w);
      StepConservesWork(o, Run(o, es[..n]), es[n], w);
      TimesConcat(Admitted(o, es[..n]), AdmittedBy(o, Run(o, es[..n]), es[n]), w);
    }
  }

  // ---- what each share is credited with ------------------------------------

  /** The value of the last usable set_difficulty, or 1. */
  function DifficultyInForce(es: seq<Event>): real {
    if es == [] then 1.0
    else
      var e := es[|es| - 1];
      if e.FromUpstream? && DifficultySet(e.answer).Some? then DifficultySet(e.answer).value
      else DifficultyInForce(es[..|es| - 1])
  }

  lemma StepNames(o: Options, s: State, e: Event)
    ensures s.identity.Some? ==> Step(o, s, e).identity == s.identity
    ensures s.identity.None? && Step(o, s, e).identity.Some? ==>
      Names(e) && Step(o, s, e).identity == Some(e.resolved.identity)
  {
    hide AfterSubmit, AfterUpstreamMessage, AfterAuthorize, AfterForward;
    if IsSubmit(e) {
      SubmitBooks(o, s, e.message, e.nowMs);
    } else if e.FromUpstream? {
      UpstreamBooks(s, e.answer);
    } else {
      OtherBooks(o, s, e);
    }
  }

  lemma StepDifficulty(o: Options, s: State, e: Event)
    ensures Step(o, s, e).difficulty ==
      if e.FromUpstream? && DifficultySet(e.answer).Some? then DifficultySet(e.answer).value
      else s.difficulty
  {
    hide AfterSubmit, AfterUpstreamMessage, AfterAuthorize, AfterForward;
    if IsSubmit(e) {
      SubmitBooks(o, s, e.message, e.nowMs);
    } else if e.FromUpstream? {
      UpstreamBooks(s, e.answer);
    } else {
      OtherBooks(o, s, e);
    }
  }

  lemma {:induction false} DifficultyIsTheLastOneSet(o: Options, es: seq<Event>)
    ensures Run(o, es).difficulty == DifficultyInForce(es)
  {
    if es != [] {
      DifficultyIsTheLastOneSet(o, es[..|es| - 1]);
      StepDifficulty(o, Run(o, es[..|es| - 1]), es[|es| - 1]);
      hide Step;
    }
  }

  /** The values of all usable set_difficulties, in order. */
  function DifficultiesSet(es: seq<Event>): seq<real> {
    if es == [] then []
    else
      var e := es[|es| - 1];
      DifficultiesSet(es[..|es| - 1])
      + (if e.FromUpstream? && DifficultySet(e.answer).Some? then [DifficultySet(e.answer).value] else [])
  }

  predicate NamedAs(s: State) {
    s.named == match s.identity case None => [] case Some(identity) => [identity]
  }

  lemma AuthorizeHooks(o: Options, s: State, request: Message, resolved: ParsedLogin)
    requires request.Request? && NamedAs(s)
    ensures var t := AfterAuthorize(o, s, request, resolved); NamedAs(t) && t.observed == s.observed
  {}

  lemma SubmitHooks(o: Options, s: State, request: Message, nowMs: int)
    requires request.Request?
    ensures var t := AfterSubmit(o, s, request, nowMs);
            t.identity == s.identity && t.named == s.named && t.observed == s.observed
  {
    hide AfterForward, SubmitUpstream, Put, Get, StalePrefix, CreditAll;
    if s.identity.Some? {
      ForwardLeavesBooks(o, AfterHold(AfterExpiry(o, s, nowMs), request, nowMs), SubmitUpstream(o, request));
    }
  }

  lemma UpstreamHooks(s: State, answer: Message)
    ensures var t := AfterUpstreamMessage(s, answer);
            && t.identity == s.identity && t.named == s.named
            && t.observed == s.observed
                 + (if DifficultySet(answer).Some? then [DifficultySet(answer).value] else [])
  {
    hide Get, Remove;
  }

  /** The identity hook hears of the one worker the session ever has, once; the difficulty hook
      hears every usable difficulty upstream sets, in order. */
  lemma {:induction false} HooksHearIt(o: Options, es: seq<Event>)
    ensures NamedAs(Run(o, es)) && Run(o, es).observed == DifficultiesSet(es)
  {
    hide AfterSubmit, AfterUpstreamMessage, AfterAuthorize;
    if es != [] {
      var s, e := Run(o, es[..|es| - 1]), es[|es| - 1];
      HooksHearIt(o, es[..|es| - 1]);
      if IsSubmit(e) {
        SubmitHooks(o, s, e.message, e.nowMs);
      } else if e.FromUpstream? {
        UpstreamHooks(s, e.answer);
      } else if e.FromMiner? && e.message.Request? && e.message.verb == Authorize {
        AuthorizeHooks(o, s, e.message, e.resolved);
      }
    }
  }

  lemma {:induction false} DifficultyIsPositive(es: seq<Event>)
    ensures DifficultyInForce(es) > 0.0
  {
    if es != [] {
      DifficultyIsPositive(es[..|es| - 1]);
    }
  }

  lemma {:induction false} IdentityNeverChanges(o: Options, es: seq<Event>, n: nat)
    requires n <= |es| && Run(o, es[..n]).identity.Some?
    ensures Run(o, es).identity == Run(o, es[..n]).identity
  {
    if n == |es| {
      assert es[..n] == es;
    } else {
      assert es[..|es| - 1][..n] == es[..n];
      IdentityNeverChanges(o, es[..|es| - 1], n);
      StepNames(o, Run(o, es[..|es| - 1]), es[|es| - 1]);
      hide Step;
    }
  }

  /** A submit at position i that produced `work`: the job and second it named, the
      difficulty upstream had last set before it, the session's one identity. */
  ghost predicate SubmittedAt(o: Options, es: seq<Event>, i: int, work: Work) {
    && 0 <= i < |es|
    && es[i].FromMiner? && es[i].message.Request? && es[i].message.verb == Submit
    && work.jobId == JobIdOf(es[i].message.params)
    && work.atSeconds == es[i].nowMs / 1000
    && work.difficulty == DifficultyInForce(es[..i])
    && Run(o, es).identity == Some(work.identity)
  }

  lemma {:induction false} AdmittedWorkIsSubmittedWork(o: Options, es: seq<Event>, work: Work)
    requires work in Admitted(o, es)
    ensures exists i :: SubmittedAt(o, es, i, work)
  {
    var n := |es| - 1;
    DifficultyIsTheLastOneSet(o, es[..n]);
    if work in Admitted(o, es[..n]) {
      AdmittedWorkIsSubmittedWork(o, es[..n], work);
      var i :| SubmittedAt(o, es[..n], i, work);
      IdentityNeverChanges(o, es, n);
      assert es[..n][..i] == es[..i];
      assert SubmittedAt(o, es, i, work);
    } else {
      IdentityNeverChanges(o, es, n);
      assert SubmittedAt(o, es, n, work);
    }
  }

  lemma {:induction false} CreditIsCounted(credits: seq<Credit>, c: Credit)
    requires c in credits
    ensures TimesCredited(credits, c.work) > 0
  {
    var n := |credits| - 1;
    if c != credits[n] {
      assert credits == credits[..n] + [credits[n]];
      CreditIsCounted(credits[..n], c);
    }
  }

  lemma {:induction false} CountedIsPresent(works: seq<Work>, w: Work)
    requires Times(works, w) > 0
    ensures w in works
  {
    if works[|works| - 1] != w {
      CountedIsPresent(works[..|works| - 1], w);
    }
  }

  /** Every share reported to the accounting was made by a submit of this run, for the
      one worker the session ever had, at the difficulty in force when it was made. */
  lemma EveryCreditIsEarned(o: Options, es: seq<Event>, c: Credit)
    requires c in Run(o, es).credits
    ensures exists i :: SubmittedAt(o, es, i, c.work)
  {
    CreditIsCounted(Run(o, es).credits, c);
    SharesAreConserved(o, es, c.work);
    CountedIsPresent(Admitted(o, es), c.work);
    AdmittedWorkIsSubmittedWork(o, es, c.work);
  }

  /** No share is ever credited without weight. */
  lemma CreditedWorkHasWeight(o: Options, es: seq<Event>, c: Credit)
    requires c in Run(o, es).credits
    ensures c.work.difficulty > 0.0
  {
    hide Run;
    EveryCreditIsEarned(o, es, c);
    var i :| SubmittedAt(o, es, i, c.work);
    DifficultyIsPositive(es[..i]);
  }

  // ---- outcomes are upstream's ---------------------------------------------

  function CountOutcome(credits: seq<Credit>, outcome: ShareOutcome): nat {
    if credits == [] then 0
    else CountOutcome(credits[..|credits| - 1], outcome)
         + (if credits[|credits| - 1].outcome == outcome then 1 else 0)
  }

  /** Responses with an id upstream sent, split by what they say. */
  function CountVerdicts(es: seq<Event>, accepting: bool): nat {
    if es == [] then 0
    else
      var e := es[|es| - 1];
      CountVerdicts(es[..|es| - 1], accepting)
      + (if e.FromUpstream? && e.answer.Response? && e.answer.id != NullId
            && IsShareAccepted(e.answer) == accepting then 1 else 0)
  }

  lemma {:induction false} CountOutcomeConcat(a: seq<Credit>, b: seq<Credit>, outcome: ShareOutcome)
    ensures CountOutcome(a + b, outcome) == CountOutcome(a, outcome) + CountOutcome(b, outcome)
  {
    if b == [] {
      assert a + b == a;
    } else {
      CountOutcomeConcat(a, b[..|b| - 1], outcome);
      assert (a + b)[..|a + b| - 1] == a + b[..|b| - 1];
    }
  }

  lemma {:induction false} ExpiryCreditsNoVerdict(pending: Pending, outcome: ShareOutcome)
    requires outcome != Unresolved
    ensures CountOutcome(CreditAll(pending, Unresolved), outcome) == 0
  {
    if pending != [] {
      ExpiryCreditsNoVerdict(pending[1..], outcome);
      CountOutcomeConcat([Credit(pending[0].key, pending[0].value.work, Unresolved)],
                         CreditAll(pending[1..], Unresolved), outcome);
    }
  }

  lemma SweepCountsNoVerdict(o: Options, s: State, nowMs: int, outcome: ShareOutcome)
    requires outcome != Unresolved
    ensures CountOutcome(AfterExpiry(o, s, nowMs).credits, outcome) == CountOutcome(s.credits, outcome)
  {
    var n := StalePrefix(s.pending, nowMs, o.submitTimeoutMs);
    CountOutcomeConcat(s.credits, CreditAll(s.pending[..n], Unresolved), outcome);
    ExpiryCreditsNoVerdict(s.pending[..n], outcome);
  }

  lemma SubmitCountsNoVerdict(o: Options, s: State, request: Message, nowMs: int, outcome: ShareOutcome)
    requires request.Request? && outcome != Unresolved
    ensures CountOutcome(AfterSubmit(o, s, request, nowMs).credits, outcome)
         == CountOutcome(s.credits, outcome)
  {
    SweepCountsNoVerdict(o, s, nowMs, outcome);
    SubmitBooks(o, s, request, nowMs);
    hide AfterSubmit, AfterExpiry;
  }

  lemma ResolveCountsOneVerdict(s: State, key: string, accepted: bool)
    ensures CountOutcome(AfterResolve(s, key, accepted).credits, Accepted)
         <= CountOutcome(s.credits, Accepted) + (if accepted then 1 else 0)
    ensures CountOutcome(AfterResolve(s, key, accepted).credits, Rejected)
         <= CountOutcome(s.credits, Rejected) + (if accepted then 0 else 1)
  {
    var credits := AfterResolve(s, key, accepted).credits;
    if Has(s.pending, key) {
      assert credits[..|credits| - 1] == s.credits;
    }
  }

  lemma StepCounts(o: Options, s: State, e: Event)
    ensures var heard := e.FromUpstream? && e.answer.Response? && e.answer.id != NullId;
            && CountOutcome(Step(o, s, e).credits, Accepted) <= CountOutcome(s.credits, Accepted)
                 + (if heard && IsShareAccepted(e.answer) then 1 else 0)
            && CountOutcome(Step(o, s, e).credits, Rejected) <= CountOutcome(s.credits, Rejected)
                 + (if heard && !IsShareAccepted(e.answer) then 1 else 0)
  {
    hide AfterSubmit, AfterUpstreamMessage, AfterResolve, AfterAuthorize, AfterForward;
    if IsSubmit(e) {
      SubmitCountsNoVerdict(o, s, e.message, e.nowMs, Accepted);
      SubmitCountsNoVerdict(o, s, e.message, e.nowMs, Rejected);
    } else if e.FromUpstream? {
      UpstreamBooks(s, e.answer);
      ResolveCountsOneVerdict(s, Key(e.answer.id), IsShareAccepted(e.answer));
    } else {
      OtherBooks(o, s, e);
    }
  }

  /** Accepted and rejected shares are never more than upstream's own answers of that kind. */
  lemma {:induction false} VerdictsComeFromUpstream(o: Options, es: seq<Event>)
    ensures CountOutcome(Run(o, es).credits, Accepted) <= CountVerdicts(es, true)
    ensures CountOutcome(Run(o, es).credits, Rejected) <= CountVerdicts(es, false)
  {
    if es != [] {
      VerdictsComeFromUpstream(o, es[..|es| - 1]);
      StepCounts(o, Run(o, es[..|es| - 1]), es[|es| - 1]);
      hide Step;
    }
  }

  // ---- order upstream and downstream ---------------------------------------

  /** The one message, rewritten at the authorize and submit boundary, that an event
      hands to upstream, or nothing. */
  function Forwards(o: Options, s: State, e: Event): seq<Message> {
    if !e.FromMiner? || s.ended then []
    else
      var room := s.upstreamReady || |s.queued| < o.maxQueuedMessages;
      if !room then []
      else if e.message.Request? && e.message.verb == Authorize then
        if e.resolved.Known? && (s.identity.None? || s.identity.value.login == e.resolved.identity.login)
        then [AuthorizeUpstream(o, e.message)] else []
      else if e.message.Request? && e.message.verb == Submit then
        if Admits(o, s, e) then [SubmitUpstream(o, e.message)] else []
      else [e.message]
  }

  function ForwardedInOrder(o: Options, es: seq<Event>): seq<Message> {
    if es == [] then []
    else ForwardedInOrder(o, es[..|es| - 1]) + Forwards(o, Run(o, es[..|es| - 1]), es[|es| - 1])
  }

  function Outgoing(s: State): seq<Message> {
    s.toUpstream + s.queued
  }

  lemma ForwardAppends(o: Options, s: State, message: Message)
    requires s.upstreamReady ==> s.queued == []
    ensures Outgoing(AfterForward(o, s, message))
         == Outgoing(s) + (if s.upstreamReady || |s.queued| < o.maxQueuedMessages then [message] else [])
  {
    assert s.toUpstream + (s.queued + [message]) == (s.toUpstream + s.queued) + [message];
  }

  lemma SubmitForwards(o: Options, s: State, e: Event)
    requires IsSubmit(e) && !s.ended && (s.upstreamReady ==> s.queued == [])
    ensures Outgoing(AfterSubmit(o, s, e.message, e.nowMs)) == Outgoing(s) + Forwards(o, s, e)
  {
    hide AfterForward, SubmitUpstream, StalePrefix, CreditAll, Put, Get, WorkOf;
    if Admits(o, s, e) {
      var held := AfterHold(AfterExpiry(o, s, e.nowMs), e.message, e.nowMs);
      ForwardAppends(o, held, SubmitUpstream(o, e.message));
    }
  }

  lemma AuthorizeForwards(o: Options, s: State, e: Event)
    requires e.FromMiner? && e.message.Request? && e.message.verb == Authorize
    requires !s.ended && (s.upstreamReady ==> s.queued == [])
    ensures Outgoing(AfterAuthorize(o, s, e.message, e.resolved)) == Outgoing(s) + Forwards(o, s, e)
  {
    if e.resolved.Known? {
      var named := if s.identity.None? then s.(identity := Some(e.resolved.identity)) else s;
      ForwardAppends(o, named, AuthorizeUpstream(o, e.message));
    }
    hide AfterForward;
  }

  lemma StepForwards(o: Options, s: State, e: Event)
    requires s.upstreamReady ==> s.queued == []
    ensures Outgoing(Step(o, s, e)) == Outgoing(s) + Forwards(o, s, e)
  {
    hide AfterSubmit, AfterUpstreamMessage, AfterAuthorize, AfterForward;
    if e.FromUpstream? {
      UpstreamBooks(s, e.answer);
    } else if e.FromMiner? && !s.ended {
      if IsSubmit(e) {
        SubmitForwards(o, s, e);
      } else if e.message.Request? && e.message.verb == Authorize {
        AuthorizeForwards(o, s, e);
      } else {
        ForwardAppends(o, s, e.message);
      }
    }
  }

  /** Sent or still held, upstream's messages are the forwarded ones in arrival order:
      waiting for the handshake loses, repeats and reorders nothing. */
  lemma {:induction false} UpstreamSeesArrivalOrder(o: Options, es: seq<Event>)
    ensures Run(o, es).toUpstream + Run(o, es).queued == ForwardedInOrder(o, es)
  {
    if es != [] {
      UpstreamSeesArrivalOrder(o, es[..|es| - 1]);
      RunIsWellFormed(o, es[..|es| - 1]);
      StepForwards(o, Run(o, es[..|es| - 1]), es[|es| - 1]);
      hide Step, Forwards;
    }
  }

  // ---- the miner is never sent elsewhere -----------------------------------

  predicate IsReconnect(message: Message) {
    message.Request? && message.verb == Reconnect
  }

  ghost predicate NoReconnect(messages: seq<Message>) {
    forall i :: 0 <= i < |messages| ==> !IsReconnect(messages[i])
  }

  lemma SubmitRelaysNone(o: Options, s: State, request: Message, nowMs: int)
    requires request.Request? && NoReconnect(s.toMiner)
    ensures NoReconnect(AfterSubmit(o, s, request, nowMs).toMiner)
  {
    hide AfterForward, SubmitUpstream, StalePrefix, CreditAll, Put, Get, WorkOf;
    if s.identity.Some? {
      ForwardLeavesBooks(o, AfterHold(AfterExpiry(o, s, nowMs), request, nowMs), SubmitUpstream(o, request));
    }
  }

  lemma AuthorizeRelaysNone(o: Options, s: State, request: Message, resolved: ParsedLogin)
    requires request.Request? && NoReconnect(s.toMiner)
    ensures NoReconnect(AfterAuthorize(o, s, request, resolved).toMiner)
  {}

  lemma UpstreamRelaysNone(s: State, answer: Message)
    requires NoReconnect(s.toMiner)
    ensures NoReconnect(AfterUpstreamMessage(s, answer).toMiner)
    ensures IsReconnect(answer) ==> AfterUpstreamMessage(s, answer) == s.(ended := true)
    ensures s.ended ==> AfterUpstreamMessage(s, answer).ended
  {
    hide Remove, Get, DifficultySet;
  }

  lemma StepRelaysNoReconnect(o: Options, s: State, e: Event)
    requires NoReconnect(s.toMiner)
    ensures NoReconnect(Step(o, s, e).toMiner)
    ensures e.FromUpstream? && IsReconnect(e.answer) ==> Step(o, s, e) == s.(ended := true)
    ensures s.ended ==> Step(o, s, e).ended
  {
    hide AfterSubmit, AfterAuthorize, AfterUpstreamMessage, NoReconnect;
    match e
    case FromMiner(message, nowMs, resolved) =>
      if IsSubmit(e) {
        SubmitRelaysNone(o, s, message, nowMs);
      } else if message.Request? && message.verb == Authorize {
        AuthorizeRelaysNone(o, s, message, resolved);
      }
    case FromUpstream(answer) => UpstreamRelaysNone(s, answer);
    case UpstreamReady =>
    case Hangup =>
  }

  /** Upstream can ask the miner to move to another pool as often as it likes: in no run does the
      request reach the miner, and from then on the session is over. */
  lemma {:induction false} MinerIsNeverSentElsewhere(o: Options, es: seq<Event>)
    ensures NoReconnect(Run(o, es).toMiner)
    ensures (exists i :: 0 <= i < |es| && es[i].FromUpstream? && IsReconnect(es[i].answer)) ==> Run(o, es).ended
  {
    hide Step, NoReconnect;
    if es == [] {
      assert NoReconnect([]) by { NothingToRelay(); }
    } else {
      var n := |es| - 1;
      MinerIsNeverSentElsewhere(o, es[..n]);
      StepRelaysNoReconnect(o, Run(o, es[..n]), es[n]);
      assert forall i :: 0 <= i < n ==> es[i] == es[..n][i];
    }
  }

  lemma NothingToRelay()
    ensures NoReconnect([])
  {}

  // ---- the sweep -----------------------------------------------------------

  function Live(pending: Pending, nowMs: int, timeoutMs: int): Pending {
    if pending == [] then []
    else if IsStale(pending[0].value, nowMs, timeoutMs) then Live(pending[1..], nowMs, timeoutMs)
    else [pending[0]] + Live(pending[1..], nowMs, timeoutMs)
  }

  function Stale(pending: Pending, nowMs: int, timeoutMs: int): Pending {
    if pending == [] then []
    else if IsStale(pending[0].value, nowMs, timeoutMs)
    then [pending[0]] + Stale(pending[1..], nowMs, timeoutMs)
    else Stale(pending[1..], nowMs, timeoutMs)
  }

  ghost predicate AgeOrdered(pending: Pending) {
    forall i, j :: 0 <= i < j < |pending| ==> pending[i].value.sentAtMs <= pending[j].value.sentAtMs
  }

  /** The last clock reading of a run. */
  function LatestClock(es: seq<Event>): Option<int> {
    if es == [] then None
    else if es[|es| - 1].FromMiner? then Some(es[|es| - 1].nowMs)
    else LatestClock(es[..|es| - 1])
  }

  predicate ClockNeverGoesBack(es: seq<Event>) {
    es == [] ||
    var before := es[..|es| - 1];
    && ClockNeverGoesBack(before)
    && (es[|es| - 1].FromMiner? && LatestClock(before).Some? ==>
          LatestClock(before).value <= es[|es| - 1].nowMs)
  }

  lemma {:induction false} EarlyStopIsFullFilter(pending: Pending, nowMs: int, timeoutMs: int)
    requires AgeOrdered(pending)
    ensures pending[StalePrefix(pending, nowMs, timeoutMs)..] == Live(pending, nowMs, timeoutMs)
    ensures pending[..StalePrefix(pending, nowMs, timeoutMs)] == Stale(pending, nowMs, timeoutMs)
  {
    if pending != [] {
      EarlyStopIsFullFilter(pending[1..], nowMs, timeoutMs);
      var n := StalePrefix(pending[1..], nowMs, timeoutMs);
      if IsStale(pending[0].value, nowMs, timeoutMs) {
        assert pending[..n + 1] == [pending[0]] + pending[1..][..n];
      } else {
        assert pending[1..] != [] ==> !IsStale(pending[1..][0].value, nowMs, timeoutMs);
        assert pending[1..][0..] == pending[1..];
        assert pending == [pending[0]] + pending[1..];
      }
    }
  }

  /** In age order, and nothing sent after the last clock reading. */
  ghost predicate AgedBy(pending: Pending, clock: Option<int>) {
    && AgeOrdered(pending)
    && forall i :: 0 <= i < |pending| ==> clock.Some? && pending[i].value.sentAtMs <= clock.value
  }

  lemma HoldKeepsAge(s: State, request: Message, nowMs: int)
    requires request.Request? && s.identity.Some? && AgedBy(s.pending, Some(nowMs))
    requires !Has(s.pending, Key(request.id))
    ensures AgedBy(AfterHold(s, request, nowMs).pending, Some(nowMs))
  {
    hide WorkOf, Put, Has;
    var submit := PendingSubmit(WorkOf(s, request, nowMs), nowMs);
    PutShape(s.pending, Key(request.id), submit);
  }

  lemma ExpiryKeepsAge(o: Options, s: State, nowMs: int, clock: Option<int>)
    requires AgedBy(s.pending, clock) && (clock.Some? ==> clock.value <= nowMs)
    ensures AgedBy(s.pending, Some(nowMs)) && AgedBy(AfterExpiry(o, s, nowMs).pending, Some(nowMs))
  {
  }

  lemma SubmitKeepsAge(o: Options, s: State, request: Message, nowMs: int, clock: Option<int>)
    requires request.Request? && AgedBy(s.pending, clock) && (clock.Some? ==> clock.value <= nowMs)
    ensures AgedBy(AfterSubmit(o, s, request, nowMs).pending, Some(nowMs))
  {
    hide AfterSubmit, AfterExpiry, AfterHold, AgedBy;
    SubmitBooks(o, s, request, nowMs);
    ExpiryKeepsAge(o, s, nowMs, clock);
    var swept := AfterExpiry(o, s, nowMs);
    if s.identity.Some? && !Has(swept.pending, Key(request.id)) {
      HoldKeepsAge(swept, request, nowMs);
    }
  }

  lemma ResolveKeepsAge(s: State, key: string, accepted: bool, clock: Option<int>)
    requires AgedBy(s.pending, clock)
    ensures AgedBy(AfterResolve(s, key, accepted).pending, clock)
  {
    var _ := RemoveShape(s.pending, key);
  }

  lemma StepKeepsAge(o: Options, s: State, e: Event, clock: Option<int>)
    requires AgedBy(s.pending, clock) && (e.FromMiner? && clock.Some? ==> clock.value <= e.nowMs)
    ensures AgedBy(Step(o, s, e).pending, if e.FromMiner? then Some(e.nowMs) else clock)
  {
    hide AfterSubmit, AfterUpstreamMessage, AfterResolve, AfterAuthorize, AfterForward;
    if IsSubmit(e) {
      SubmitKeepsAge(o, s, e.message, e.nowMs, clock);
    } else if e.FromUpstream? {
      UpstreamBooks(s, e.answer);
      ResolveKeepsAge(s, Key(e.answer.id), IsShareAccepted(e.answer), clock);
    } else {
      OtherBooks(o, s, e);
    }
  }

  lemma {:induction false} PendingIsAgeOrdered(o: Options, es: seq<Event>)
    requires ClockNeverGoesBack(es)
    ensures AgedBy(Run(o, es).pending, LatestClock(es))
  {
    if es != [] {
      PendingIsAgeOrdered(o, es[..|es| - 1]);
      StepKeepsAge(o, Run(o, es[..|es| - 1]), es[|es| - 1], LatestClock(es[..|es| - 1]));
      hide Step, AgedBy;
    }
  }

  /** With a clock that never goes back, the sweep that stops at the first entry in
      time gives up on exactly the submits that are out of time, oldest first. */
  lemma SweepIsExact(o: Options, es: seq<Event>, nowMs: int)
    requires ClockNeverGoesBack(es)
    ensures var s := Run(o, es);
            var swept := AfterExpiry(o, s, nowMs);
            && swept.pending == Live(s.pending, nowMs, o.submitTimeoutMs)
            && swept.credits == s.credits + CreditAll(Stale(s.pending, nowMs, o.submitTimeoutMs), Unresolved)
  {
    PendingIsAgeOrdered(o, es);
    EarlyStopIsFullFilter(Run(o, es).pending, nowMs, o.submitTimeoutMs);
  }

  // ---- the pool cannot see the contributor ---------------------------------

  /** Two inputs that differ at most in what names the contributor: the login and
      password of an authorize, the login of a submit, and who the login resolved to. */
  predicate AlikeButForTheWorker(a: Event, b: Event) {
    if !a.FromMiner? || !b.FromMiner? then a == b
    else
      && a.nowMs == b.nowMs
      && (if a.message.Request? && a.message.verb == Authorize then
            && b.message.Request? && b.message.verb == Authorize
            && a.message.id == b.message.id
            && Slice(a.message.params, 2) == Slice(b.message.params, 2)
            && a.resolved.Known? == b.resolved.Known?
          else if a.message.Request? && a.message.verb == Submit then
            && b.message.Request? && b.message.verb == Submit
            && a.message.id == b.message.id
            && Slice(a.message.params, 1) == Slice(b.message.params, 1)
          else a.message == b.message)
  }

  /** Position by position alike, and two authorizes name one worker in both runs or in neither. */
  ghost predicate TwinInputs(es: seq<Event>, fs: seq<Event>) {
    && |es| == |fs|
    && (forall i :: 0 <= i < |es| ==> AlikeButForTheWorker(es[i], fs[i]))
    && (forall i, j :: 0 <= i < |es| && 0 <= j < |es| && Names(es[i]) && Names(es[j]) ==>
          ((es[i].resolved.identity.login == es[j].resolved.identity.login)
           <==> (fs[i].resolved.identity.login == fs[j].resolved.identity.login)))
  }

  ghost predicate SameAges(p: Pending, q: Pending) {
    |p| == |q| && forall i :: 0 <= i < |p| ==>
      p[i].key == q[i].key && p[i].value.sentAtMs == q[i].value.sentAtMs
  }

  /** Equal in everything but whose work it is. */
  ghost predicate TwinStates(s: State, t: State) {
    && s.dialed == t.dialed && s.upstreamReady == t.upstreamReady && s.ended == t.ended
    && s.identity.Some? == t.identity.Some?
    && s.queued == t.queued && s.toUpstream == t.toUpstream
    && SameAges(s.pending, t.pending)
  }

  lemma {:induction false} TwinSweeps(p: Pending, q: Pending, nowMs: int, timeoutMs: int)
    requires SameAges(p, q)
    ensures StalePrefix(p, nowMs, timeoutMs) == StalePrefix(q, nowMs, timeoutMs)
  {
    if p != [] {
      TwinSweeps(p[1..], q[1..], nowMs, timeoutMs);
    }
  }

  lemma {:induction false} TwinMaps(p: Pending, q: Pending, key: string, a: PendingSubmit, b: PendingSubmit)
    requires SameAges(p, q) && a.sentAtMs == b.sentAtMs
    ensures Has(p, key) == Has(q, key)
    ensures SameAges(Remove(p, key), Remove(q, key))
    ensures SameAges(Put(p, key, a), Put(q, key, b))
  {
    if p != [] && p[0].key != key {
      TwinMaps(p[1..], q[1..], key, a, b);
    }
  }

  lemma TwinExpiry(o: Options, s: State, t: State, nowMs: int)
    requires TwinStates(s, t)
    ensures TwinStates(AfterExpiry(o, s, nowMs), AfterExpiry(o, t, nowMs))
  {
    TwinSweeps(s.pending, t.pending, nowMs, o.submitTimeoutMs);
  }

  lemma TwinHolds(s: State, t: State, a: Message, b: Message, nowMs: int)
    requires TwinStates(s, t) && s.identity.Some? && a.Request? && b.Request? && a.id == b.id
    ensures TwinStates(AfterHold(s, a, nowMs), AfterHold(t, b, nowMs))
    ensures Has(s.pending, Key(a.id)) == Has(t.pending, Key(b.id))
  {
    TwinMaps(s.pending, t.pending, Key(a.id),
             PendingSubmit(WorkOf(s, a, nowMs), nowMs), PendingSubmit(WorkOf(t, b, nowMs), nowMs));
  }

  lemma TwinForwards(o: Options, s: State, t: State, message: Message)
    requires TwinStates(s, t)
    ensures TwinStates(AfterForward(o, s, message), AfterForward(o, t, message))
  {
  }

  lemma TwinSubmits(o: Options, s: State, t: State, a: Message, b: Message, nowMs: int)
    requires TwinStates(s, t) && a.Request? && b.Request? && a.id == b.id && a.verb == b.verb
    requires Slice(a.params, 1) == Slice(b.params, 1)
    ensures TwinStates(AfterSubmit(o, s, a, nowMs), AfterSubmit(o, t, b, nowMs))
  {
    if s.identity.Some? {
      TwinExpiry(o, s, t, nowMs);
      var p, q := AfterExpiry(o, s, nowMs), AfterExpiry(o, t, nowMs);
      TwinHolds(p, q, a, b, nowMs);
      TwinForwards(o, AfterHold(p, a, nowMs), AfterHold(q, b, nowMs), SubmitUpstream(o, a));
      hide AfterHold, AfterExpiry, AfterForward;
    }
  }

  lemma TwinAuthorizes(o: Options, s: State, t: State, a: Event, b: Event)
    requires TwinStates(s, t) && a.FromMiner? && b.FromMiner? && AlikeButForTheWorker(a, b)
    requires a.message.Request? && a.message.verb == Authorize
    requires a.resolved.Known? && s.identity.Some? ==>
      (s.identity.value.login == a.resolved.identity.login
       <==> t.identity.value.login == b.resolved.identity.login)
    ensures TwinStates(AfterAuthorize(o, s, a.message, a.resolved), AfterAuthorize(o, t, b.message, b.resolved))
  {
    if a.resolved.Known? {
      var p := if s.identity.None? then s.(identity := Some(a.resolved.identity)) else s;
      var q := if t.identity.None? then t.(identity := Some(b.resolved.identity)) else t;
      TwinForwards(o, p, q, AuthorizeUpstream(o, a.message));
      hide AfterForward;
    }
  }

  lemma TwinResolves(s: State, t: State, key: string, accepted: bool)
    requires TwinStates(s, t)
    ensures TwinStates(AfterResolve(s, key, accepted), AfterResolve(t, key, accepted))
  {
    if s.pending != [] {
      TwinMaps(s.pending, t.pending, key, s.pending[0].value, s.pending[0].value);
    }
  }

  lemma TwinUpstream(s: State, t: State, answer: Message)
    requires TwinStates(s, t)
    ensures TwinStates(AfterUpstreamMessage(s, answer), AfterUpstreamMessage(t, answer))
  {
    UpstreamBooks(s, answer);
    UpstreamBooks(t, answer);
    TwinResolves(s, t, Key(answer.id), IsShareAccepted(answer));
    hide AfterResolve;
  }

  /** `named` is where the identity of both sessions was set. */
  ghost predicate NamedAt(s: State, es: seq<Event>, named: nat) {
    s.identity.Some? ==>
      named < |es| && Names(es[named]) && s.identity.value == es[named].resolved.identity
  }

  lemma TwinSteps(o: Options, s: State, t: State, a: Event, b: Event)
    requires TwinStates(s, t) && AlikeButForTheWorker(a, b)
    requires Names(a) && s.identity.Some? ==>
      (s.identity.value.login == a.resolved.identity.login
       <==> t.identity.value.login == b.resolved.identity.login)
    ensures TwinStates(Step(o, s, a), Step(o, t, b))
  {
    hide AfterSubmit, AfterAuthorize, AfterForward, AfterUpstreamMessage;
    match a
    case FromMiner(message, nowMs, _) =>
      if IsSubmit(a) {
        TwinSubmits(o, s, t, message, b.message, nowMs);
      } else if message.Request? && message.verb == Authorize {
        TwinAuthorizes(o, s, t, a, b);
      } else {
        TwinForwards(o, s, t, message);
      }
    case FromUpstream(answer) => TwinUpstream(s, t, answer);
    case UpstreamReady =>
    case Hangup =>
  }

  lemma {:induction false} TwinRuns(o: Options, es: seq<Event>, fs: seq<Event>) returns (named: nat)
    requires TwinInputs(es, fs)
    ensures TwinStates(Run(o, es), Run(o, fs))
    ensures NamedAt(Run(o, es), es, named) && NamedAt(Run(o, fs), fs, named)
  {
    named := 0;
    if es != [] {
      var n := |es| - 1;
      named := TwinRuns(o, es[..n], fs[..n]);
      var s, t := Run(o, es[..n]), Run(o, fs[..n]);
      TwinSteps(o, s, t, es[n], fs[n]);
      StepNames(o, s, es[n]);
      StepNames(o, t, fs[n]);
      hide Step, TwinStates;
      if s.identity.None? {
        named := n;
      }
    }
  }

  /** All that reaches the upstream pool, or will. */
  datatype UpstreamView = UpstreamView(sent: seq<Message>, held: seq<Message>, ended: bool)

  function SeenByUpstream(s: State): UpstreamView {
    UpstreamView(s.toUpstream, s.queued, s.ended)
  }

  /** The pool cannot tell two contributors apart: whatever they are called, upstream is
      sent the same messages, and the same are held for it. */
  lemma PoolCannotSeeTheContributor(o: Options, es: seq<Event>, fs: seq<Event>)
    requires TwinInputs(es, fs)
    ensures SeenByUpstream(Run(o, es)) == SeenByUpstream(Run(o, fs))
  {
    var _ := TwinRuns(o, es, fs);
  }
}
