/** What becomes of one submit, and when the promise that each is reported once is kept. */
module SessionFate {
  import opened Wrappers
  import opened OrderedMap
  import opened Shares
  import opened Stratum
  import opened Session
  import opened SessionProperties

  // ---- the books about one id ------------------------------------------------

  function CreditsFor(credits: seq<Credit>, key: string): seq<ShareOutcome> {
    if credits == [] then []
    else CreditsFor(credits[..|credits| - 1], key)
         + (if credits[|credits| - 1].key == key then [credits[|credits| - 1].outcome] else [])
  }

  lemma {:induction false} CreditsForConcat(a: seq<Credit>, b: seq<Credit>, key: string)
    ensures CreditsFor(a + b, key) == CreditsFor(a, key) + CreditsFor(b, key)
  {
    if b == [] {
      assert a + b == a;
    } else {
      CreditsForConcat(a, b[..|b| - 1], key);
      assert (a + b)[..|a + b| - 1] == a + b[..|b| - 1];
    }
  }

  lemma {:induction false} CreditAllFor(pending: Pending, outcome: ShareOutcome, key: string)
    requires Distinct(pending)
    ensures CreditsFor(CreditAll(pending, outcome), key) == if Has(pending, key) then [outcome] else []
  {
    if pending != [] {
      CreditAllFor(pending[1..], outcome, key);
      var first := [Credit(pending[0].key, pending[0].value.work, outcome)];
      CreditsForConcat(first, CreditAll(pending[1..], outcome), key);
      assert first[..0] == [];
      GetIsMembership(pending[1..], key);
    }
  }

  lemma StaysEnded(o: Options, s: State, e: Event)
    requires s.ended
    ensures Step(o, s, e).ended
  {
    hide AfterSubmit, AfterAuthorize, AfterForward;
  }

  /** The books after any message of the miner's. */
  lemma MessageBooks(o: Options, s: State, e: Event)
    requires e.FromMiner?
    ensures var t, swept := Step(o, s, e), AfterExpiry(o, s, e.nowMs);
            && (swept.identity == s.identity)
            && (!IsSubmit(e) || s.ended || s.identity.None? ==>
                  t.pending == s.pending && t.credits == s.credits)
            && (IsSubmit(e) && !s.ended && s.identity.Some? ==>
                  && t.credits == swept.credits
                  && t.pending == if Admits(o, s, e)
                                  then AfterHold(swept, e.message, e.nowMs).pending else swept.pending)
  {
    hide AfterSubmit, AfterAuthorize, AfterForward, AfterHold;
    if IsSubmit(e) {
      SubmitBooks(o, s, e.message, e.nowMs);
    } else {
      OtherBooks(o, s, e);
    }
  }

  lemma ExpiryFor(o: Options, s: State, nowMs: int, key: string)
    requires Distinct(s.pending)
    ensures var t := AfterExpiry(o, s, nowMs);
            && Distinct(t.pending)
            && (Has(t.pending, key) ==> Has(s.pending, key))
            && CreditsFor(t.credits, key) == CreditsFor(s.credits, key)
                 + (if Has(s.pending, key) && !Has(t.pending, key) then [Unresolved] else [])
  {
    var n := StalePrefix(s.pending, nowMs, o.submitTimeoutMs);
    GetAfterDrop(s.pending, n, key);
    CreditsForConcat(s.credits, CreditAll(s.pending[..n], Unresolved), key);
    CreditAllFor(s.pending[..n], Unresolved, key);
  }

  lemma ResolveFor(s: State, id: string, accepted: bool, key: string)
    requires Distinct(s.pending)
    ensures var t := AfterResolve(s, id, accepted);
            if id == key && Has(s.pending, key) then
              && !Has(t.pending, key)
              && CreditsFor(t.credits, key)
                 == CreditsFor(s.credits, key) + [if accepted then Accepted else Rejected]
            else
              Has(t.pending, key) == Has(s.pending, key)
              && CreditsFor(t.credits, key) == CreditsFor(s.credits, key)
  {
    var t := AfterResolve(s, id, accepted);
    GetAfterRemove(s.pending, id, key);
    if Has(s.pending, id) {
      assert t.credits[..|t.credits| - 1] == s.credits;
    }
  }

  // ---- one submit, from being held to being credited ---------------------------

  /** The session after more events. */
  function RunOn(o: Options, s: State, fs: seq<Event>): State {
    if fs == [] then s else Step(o, RunOn(o, s, fs[..|fs| - 1]), fs[|fs| - 1])
  }

  lemma {:induction false} RunGoesOn(o: Options, es: seq<Event>, fs: seq<Event>)
    ensures Run(o, es + fs) == RunOn(o, Run(o, es), fs)
  {
    hide Step;
    if fs == [] {
      assert es + fs == es;
    } else {
      RunGoesOn(o, es, fs[..|fs| - 1]);
      assert (es + fs)[..|es + fs| - 1] == es + fs[..|fs| - 1];
    }
  }

  function Verdict(answer: Message): ShareOutcome {
    if IsShareAccepted(answer) then Accepted else Rejected
  }

  /** Upstream answers this id. */
  predicate Answered(e: Event, key: string) {
    e.FromUpstream? && AnswersKey(e.answer, key)
  }

  ghost predicate AnsweredIn(fs: seq<Event>, key: string) {
    exists j :: 0 <= j < |fs| && Answered(fs[j], key)
  }

  /** How an event settles a submit held since before it, if it does: an answer to its id always
      does, and any later submit does once it has waited too long, unless the session has ended. */
  function Settles(o: Options, ended: bool, held: PendingSubmit, key: string, e: Event): Option<ShareOutcome> {
    if Answered(e, key) then Some(Verdict(e.answer))
    else if IsSubmit(e) && !ended && IsStale(held, e.nowMs, o.submitTimeoutMs) then Some(Unresolved)
    else None
  }

  /** How the first event to settle it does. */
  function FateOf(o: Options, s: State, held: PendingSubmit, key: string, fs: seq<Event>): Option<ShareOutcome> {
    if fs == [] then None
    else
      var n := |fs| - 1;
      var before := FateOf(o, s, held, key, fs[..n]);
      if before.Some? then before else Settles(o, RunOn(o, s, fs[..n]).ended, held, key, fs[n])
  }

  lemma {:induction false} StalePrefixShape(pending: Pending, nowMs: int, timeoutMs: int)
    ensures var n := StalePrefix(pending, nowMs, timeoutMs);
            && (forall i :: 0 <= i < n ==> IsStale(pending[i].value, nowMs, timeoutMs))
            && (n < |pending| ==> !IsStale(pending[n].value, nowMs, timeoutMs))
  {
    if pending != [] && IsStale(pending[0].value, nowMs, timeoutMs) {
      StalePrefixShape(pending[1..], nowMs, timeoutMs);
    }
  }

  /** In age order the sweep takes a submit exactly when it has waited too long itself. */
  lemma SweptIff(pending: Pending, nowMs: int, timeoutMs: int, key: string)
    requires Distinct(pending) && AgeOrdered(pending) && Has(pending, key)
    ensures var n := StalePrefix(pending, nowMs, timeoutMs);
            && (Has(pending[..n], key) <==> IsStale(Get(pending, key).value, nowMs, timeoutMs))
            && Get(pending[n..], key) == (if Has(pending[..n], key) then None else Get(pending, key))
  {
    hide Get, IsStale;
    var n := StalePrefix(pending, nowMs, timeoutMs);
    StalePrefixShape(pending, nowMs, timeoutMs);
    GetAfterDrop(pending, n, key);
    GetIsMembership(pending, key);
    GetIsMembership(pending[..n], key);
    var i :| 0 <= i < |pending| && pending[i] == Entry(key, Get(pending, key).value);
    if i >= n {
      StaleGrows(pending[n].value, pending[i].value, nowMs, timeoutMs);
    } else {
      assert pending[..n][i].key == key;
    }
  }

  lemma StaleGrows(older: PendingSubmit, newer: PendingSubmit, nowMs: int, timeoutMs: int)
    requires older.sentAtMs <= newer.sentAtMs
    ensures IsStale(newer, nowMs, timeoutMs) ==> IsStale(older, nowMs, timeoutMs)
  {}

  lemma AnswerSettles(s: State, answer: Message, key: string)
    requires Distinct(s.pending) && Has(s.pending, key)
    ensures var t, held := AfterUpstreamMessage(s, answer), Get(s.pending, key).value;
            && s.credits <= t.credits
            && (if AnswersKey(answer, key) then
                  && !Has(t.pending, key)
                  && CreditsFor(t.credits, key) == CreditsFor(s.credits, key) + [Verdict(answer)]
                  && Credit(key, held.work, Verdict(answer)) in t.credits
                else
                  && Get(t.pending, key) == Some(held)
                  && CreditsFor(t.credits, key) == CreditsFor(s.credits, key))
  {
    UpstreamBooks(s, answer);
    ResolveFor(s, Key(answer.id), IsShareAccepted(answer), key);
    GetAfterRemove(s.pending, Key(answer.id), key);
    hide AfterUpstreamMessage, Get, Remove;
  }

  lemma {:induction false} CreditAllHas(pending: Pending, outcome: ShareOutcome, key: string)
    requires Has(pending, key)
    ensures Credit(key, Get(pending, key).value.work, outcome) in CreditAll(pending, outcome)
  {
    if pending[0].key != key {
      CreditAllHas(pending[1..], outcome, key);
    }
  }

  lemma SweepSettles(o: Options, s: State, e: Event, key: string)
    requires WellFormed(o, s) && AgeOrdered(s.pending) && Has(s.pending, key)
    requires IsSubmit(e) && !s.ended
    ensures var t, held := Step(o, s, e), Get(s.pending, key).value;
            && s.credits <= t.credits
            && (if IsStale(held, e.nowMs, o.submitTimeoutMs) then
                  && CreditsFor(t.credits, key) == CreditsFor(s.credits, key) + [Unresolved]
                  && Credit(key, held.work, Unresolved) in t.credits
                else
                  && Get(t.pending, key) == Some(held)
                  && CreditsFor(t.credits, key) == CreditsFor(s.credits, key))
  {
    hide Get, Step, AfterHold, Admits;
    var held := Get(s.pending, key).value;
    var n := StalePrefix(s.pending, e.nowMs, o.submitTimeoutMs);
    MessageBooks(o, s, e);
    ExpiryFor(o, s, e.nowMs, key);
    SweptIff(s.pending, e.nowMs, o.submitTimeoutMs, key);
    if IsStale(held, e.nowMs, o.submitTimeoutMs) {
      GetAfterDrop(s.pending, n, key);
      CreditAllHas(s.pending[..n], Unresolved, key);
    } else {
      HoldKeepsOthers(o, AfterExpiry(o, s, e.nowMs), s, e, key);
    }
  }

  /** Admitting a submit holds it under its own id and no other. */
  lemma HoldKeepsOthers(o: Options, swept: State, s: State, e: Event, key: string)
    requires IsSubmit(e) && s.identity.Some? && swept == AfterExpiry(o, s, e.nowMs) && Has(swept.pending, key)
    ensures Admits(o, s, e) ==>
      Get(AfterHold(swept, e.message, e.nowMs).pending, key) == Get(swept.pending, key)
  {
    GetAfterPut(swept.pending, Key(e.message.id),
                PendingSubmit(WorkOf(swept, e.message, e.nowMs), e.nowMs), key);
    hide Put, Get;
  }

  /** One event settles a held submit as `Settles` says, or leaves it and its books alone. */
  lemma StepSettles(o: Options, s: State, e: Event, key: string)
    requires WellFormed(o, s) && Has(s.pending, key)
    requires IsSubmit(e) && !s.ended ==> AgeOrdered(s.pending)
    ensures var t, held := Step(o, s, e), Get(s.pending, key).value;
            && s.credits <= t.credits
            && match Settles(o, s.ended, held, key, e)
               case None =>
                 Get(t.pending, key) == Some(held) && CreditsFor(t.credits, key) == CreditsFor(s.credits, key)
               case Some(outcome) =>
                 && CreditsFor(t.credits, key) == CreditsFor(s.credits, key) + [outcome]
                 && Credit(key, held.work, outcome) in t.credits
                 && (s.ended ==> !Has(t.pending, key))
  {
    hide Get, AfterUpstreamMessage, AfterSubmit, AfterAuthorize, AfterForward, WellFormed, CreditsFor;
    if e.FromUpstream? {
      assert Distinct(s.pending) by { WellFormedIsDistinct(o, s); }
      AnswerSettles(s, e.answer, key);
    } else if IsSubmit(e) && !s.ended {
      SweepSettles(o, s, e, key);
    } else if e.FromMiner? {
      MessageBooks(o, s, e);
    }
  }

  lemma WellFormedIsDistinct(o: Options, s: State)
    requires WellFormed(o, s)
    ensures Distinct(s.pending)
  {}

  lemma {:induction false} CreditsForGrows(a: seq<Credit>, b: seq<Credit>, key: string)
    requires a <= b
    ensures CreditsFor(a, key) <= CreditsFor(b, key)
  {
    assert b == a + b[|a|..];
    CreditsForConcat(a, b[|a|..], key);
  }

  /** Nothing credited is ever taken back. */
  lemma StepGrowsCredits(o: Options, s: State, e: Event)
    ensures s.credits <= Step(o, s, e).credits
  {
    hide AfterSubmit, AfterUpstreamMessage, AfterAuthorize, AfterForward, AfterHold;
    if e.FromUpstream? {
      UpstreamBooks(s, e.answer);
    } else if e.FromMiner? {
      MessageBooks(o, s, e);
    }
  }

  ghost predicate EndsAs(s: State, t: State, key: string, held: PendingSubmit, fate: Option<ShareOutcome>) {
    match fate
    case None => Get(t.pending, key) == Some(held) && CreditsFor(t.credits, key) == CreditsFor(s.credits, key)
    case Some(outcome) =>
      CreditsFor(s.credits, key) + [outcome] <= CreditsFor(t.credits, key)
      && Credit(key, held.work, outcome) in t.credits
  }

  lemma StepKeepsEnd(o: Options, s: State, t: State, e: Event, key: string, held: PendingSubmit, outcome: ShareOutcome)
    requires EndsAs(s, t, key, held, Some(outcome))
    ensures EndsAs(s, Step(o, t, e), key, held, Some(outcome))
  {
    hide Step, CreditsFor;
    StepGrowsCredits(o, t, e);
    CreditsForGrows(t.credits, Step(o, t, e).credits, key);
  }

  /** A submit held after es, whatever follows: with a clock that does not go back it is still held,
      and not credited, exactly as long as nothing has settled it; the first event that does credits
      it, once, with the outcome that event gives. */
  lemma {:induction false} EverySubmitMeetsItsFate(o: Options, es: seq<Event>, fs: seq<Event>, key: string)
    requires ClockNeverGoesBack(es + fs) && Has(Run(o, es).pending, key)
    ensures var s := Run(o, es);
            var held := Get(s.pending, key).value;
            EndsAs(s, RunOn(o, s, fs), key, held, FateOf(o, s, held, key, fs))
    decreases |fs|
  {
    hide Get, Step, Run, CreditsFor, Settles;
    var s := Run(o, es);
    var held := Get(s.pending, key).value;
    if fs != [] {
      var n := |fs| - 1;
      var t := RunOn(o, s, fs[..n]);
      assert (es + fs)[..|es + fs| - 1] == es + fs[..n];
      EverySubmitMeetsItsFate(o, es, fs[..n], key);
      RunGoesOn(o, es, fs[..n]);
      var before := FateOf(o, s, held, key, fs[..n]);
      if before.Some? {
        StepKeepsEnd(o, s, t, fs[n], key, held, before.value);
      } else {
        RunIsWellFormed(o, es + fs[..n]);
        PendingIsAgeOrdered(o, es + fs[..n]);
        StepSettles(o, t, fs[n], key);
      }
    }
  }

  // ---- once the session has ended ----------------------------------------------

  /** The verdict of the first answer to the id. */
  function FirstVerdict(fs: seq<Event>, key: string): Option<ShareOutcome> {
    if fs == [] then None
    else if FirstVerdict(fs[..|fs| - 1], key).Some? then FirstVerdict(fs[..|fs| - 1], key)
    else if Answered(fs[|fs| - 1], key) then Some(Verdict(fs[|fs| - 1].answer))
    else None
  }

  lemma {:induction false} FirstVerdictIff(fs: seq<Event>, key: string)
    ensures FirstVerdict(fs, key).Some? <==> AnsweredIn(fs, key)
  {
    if fs != [] {
      var n := |fs| - 1;
      FirstVerdictIff(fs[..n], key);
      assert forall j :: 0 <= j < n ==> fs[..n][j] == fs[j];
    }
  }

  /** What an ended session can still do to its pending submits: settle one that is answered. */
  lemma EndedStep(o: Options, s: State, e: Event)
    requires s.ended && Distinct(s.pending)
    ensures var t := Step(o, s, e);
            && t.ended && Distinct(t.pending)
            && (forall p :: p in t.pending ==> p in s.pending)
            && (!e.FromUpstream? ==> t.pending == s.pending && t.credits == s.credits)
  {
    hide AfterUpstreamMessage, AfterSubmit, AfterAuthorize, AfterForward;
    StaysEnded(o, s, e);
    if e.FromUpstream? {
      UpstreamBooks(s, e.answer);
      RemoveKeepsRest(s.pending, Key(e.answer.id));
    } else if e.FromMiner? {
      MessageBooks(o, s, e);
    }
  }

  lemma RemoveKeepsRest(pending: Pending, key: string)
    requires Distinct(pending)
    ensures Distinct(Remove(pending, key)) && forall p :: p in Remove(pending, key) ==> p in pending
  {
    var _ := RemoveShape(pending, key);
  }

  lemma {:induction false} EndedRun(o: Options, s: State, fs: seq<Event>)
    requires s.ended && Distinct(s.pending)
    ensures var t := RunOn(o, s, fs);
            t.ended && Distinct(t.pending) && forall p :: p in t.pending ==> p in s.pending
  {
    hide Step;
    if fs != [] {
      EndedRun(o, s, fs[..|fs| - 1]);
      EndedStep(o, RunOn(o, s, fs[..|fs| - 1]), fs[|fs| - 1]);
    }
  }

  /** An answer to an id that is not held changes nothing in its books. */
  lemma SettledStaysSettled(o: Options, t: State, e: Event, key: string)
    requires t.ended && Distinct(t.pending) && !Has(t.pending, key)
    ensures !Has(Step(o, t, e).pending, key)
    ensures CreditsFor(Step(o, t, e).credits, key) == CreditsFor(t.credits, key)
  {
    hide AfterUpstreamMessage, AfterResolve, CreditsFor, Get;
    EndedStep(o, t, e);
    if e.FromUpstream? {
      UpstreamBooks(t, e.answer);
      ResolveFor(t, Key(e.answer.id), IsShareAccepted(e.answer), key);
    }
  }

  lemma EndedStepSettles(o: Options, s: State, e: Event, key: string)
    requires s.ended && Distinct(s.pending) && Has(s.pending, key)
    ensures var t, held := Step(o, s, e), Get(s.pending, key).value;
            && s.credits <= t.credits
            && if Answered(e, key) then
                 && !Has(t.pending, key)
                 && CreditsFor(t.credits, key) == CreditsFor(s.credits, key) + [Verdict(e.answer)]
                 && Credit(key, held.work, Verdict(e.answer)) in t.credits
               else Get(t.pending, key) == Some(held) && CreditsFor(t.credits, key) == CreditsFor(s.credits, key)
  {
    hide AfterUpstreamMessage, CreditsFor, Get;
    EndedStep(o, s, e);
    if e.FromUpstream? {
      AnswerSettles(s, e.answer, key);
    }
  }

  /** Once a session has ended, whatever its clock does: a submit still pending then stays so
      exactly as long as upstream has not answered its id; the first answer credits it, once, with
      its verdict, though the session is over. */
  lemma {:induction false} EndedFateIsTheAnswer(o: Options, s: State, fs: seq<Event>, key: string)
    requires s.ended && Distinct(s.pending) && Has(s.pending, key)
    ensures var t, held := RunOn(o, s, fs), Get(s.pending, key).value;
            && (Has(t.pending, key) <==> !AnsweredIn(fs, key))
            && match FirstVerdict(fs, key)
               case None =>
                 Get(t.pending, key) == Some(held) && CreditsFor(t.credits, key) == CreditsFor(s.credits, key)
               case Some(outcome) =>
                 && !Has(t.pending, key)
                 && CreditsFor(t.credits, key) == CreditsFor(s.credits, key) + [outcome]
                 && Credit(key, held.work, outcome) in t.credits
  {
    hide Step, Get, CreditsFor, Verdict;
    FirstVerdictIff(fs, key);
    if fs != [] {
      var n := |fs| - 1;
      var t := RunOn(o, s, fs[..n]);
      EndedFateIsTheAnswer(o, s, fs[..n], key);
      EndedRun(o, s, fs[..n]);
      if Has(t.pending, key) {
        EndedStepSettles(o, t, fs[n], key);
      } else {
        SettledStaysSettled(o, t, fs[n], key);
        StepGrowsCredits(o, t, fs[n]);
      }
    }
  }

  // ---- "reported once, however it ended" ------------------------------------------

  /** Every submit the session took in has been reported, and exactly once. */
  ghost predicate AllReportedOnce(o: Options, es: seq<Event>) {
    forall w :: TimesCredited(Run(o, es).credits, w) == Times(Admitted(o, es), w)
  }

  lemma HeldIsCounted(pending: Pending)
    requires pending != []
    ensures TimesHeld(pending, pending[0].value.work) > 0
  {}

  /** In any run, all are reported exactly when none is pending. */
  lemma AllReportedIffNonePending(o: Options, es: seq<Event>)
    ensures AllReportedOnce(o, es) <==> Run(o, es).pending == []
  {
    hide Run, Admitted;
    var pending := Run(o, es).pending;
    forall w
      ensures Times(Admitted(o, es), w) == TimesCredited(Run(o, es).credits, w) + TimesHeld(pending, w)
    {
      SharesAreConserved(o, es, w);
    }
    if pending != [] {
      HeldIsCounted(pending);
      var w := pending[0].value.work;
      assert TimesCredited(Run(o, es).credits, w) != Times(Admitted(o, es), w);
    }
  }

  ghost predicate AllAnswered(pending: Pending, fs: seq<Event>) {
    forall i :: 0 <= i < |pending| ==> AnsweredIn(fs, pending[i].key)
  }

  /** The promise that each submit is reported once, however it ended, is kept by what follows the
      end of a session if and only if upstream still answers every submit pending at the end. */
  lemma AllReportedIffAllAnswered(o: Options, es: seq<Event>, fs: seq<Event>)
    requires Run(o, es).ended
    ensures AllReportedOnce(o, es + fs) <==> AllAnswered(Run(o, es).pending, fs)
  {
    hide Run, RunOn, AllReportedOnce, AnsweredIn;
    var s := Run(o, es);
    RunIsWellFormed(o, es);
    WellFormedIsDistinct(o, s);
    RunGoesOn(o, es, fs);
    EndedRun(o, s, fs);
    AllReportedIffNonePending(o, es + fs);
    EmptyIffAllAnswered(o, s, fs);
  }

  lemma EmptyIffAllAnswered(o: Options, s: State, fs: seq<Event>)
    requires s.ended && Distinct(s.pending)
    ensures RunOn(o, s, fs).pending == [] <==> AllAnswered(s.pending, fs)
  {
    hide RunOn, AnsweredIn, Get;
    var t := RunOn(o, s, fs);
    EndedRun(o, s, fs);
    forall i | 0 <= i < |s.pending|
      ensures Has(t.pending, s.pending[i].key) <==> !AnsweredIn(fs, s.pending[i].key)
    {
      GetIsMembership(s.pending, s.pending[i].key);
      EndedFateIsTheAnswer(o, s, fs, s.pending[i].key);
    }
    if t.pending == [] {
      forall i | 0 <= i < |s.pending|
        ensures AnsweredIn(fs, s.pending[i].key)
      {
        GetIsMembership(t.pending, s.pending[i].key);
        assert !Has(t.pending, s.pending[i].key);
      }
    } else {
      assert t.pending[0] in s.pending;
      var i :| 0 <= i < |s.pending| && s.pending[i] == t.pending[0];
      GetIsMembership(t.pending, t.pending[0].key);
      assert Has(t.pending, s.pending[i].key);
    }
  }

  // ---- one run that breaks it, and one that does not ------------------------------------

  const LIMITS := Options("pool", "x", 8, 60_000, 8)
  const RIG := WorkerIdentity("account", "rig", "account.rig")
  const ASKED := Request(TextId("1"), Submit, [JText("account.rig"), JText("job")])
  const CUT_SHORT := [
    FromMiner(Request(TextId("0"), Authorize, [JText("account.rig"), JText("")]), 0, Known(RIG)),
    FromMiner(ASKED, 1_000, Refused("")),
    Hangup]

  lemma RigIsNamed()
    ensures var a := Step(LIMITS, INITIAL, CUT_SHORT[0]);
            a.identity == Some(RIG) && a.difficulty == 1.0 && a.pending == [] && a.credits == [] && !a.ended
  {}

  lemma OneIsHeld(a: State)
    requires a.identity == Some(RIG) && a.difficulty == 1.0 && a.pending == [] && a.credits == [] && !a.ended
    ensures var b := Step(LIMITS, a, CUT_SHORT[1]);
            && b.pending == [Entry("1", PendingSubmit(Work(RIG, Some("job"), 1.0, 1), 1_000))]
            && b.credits == []
  {
    MessageBooks(LIMITS, a, CUT_SHORT[1]);
    hide Step;
    assert AfterExpiry(LIMITS, a, 1_000).pending == [];
  }

  /** Authorize, submit, hang up: the session ends with the one submit it took in pending. */
  lemma CutShortRuns()
    ensures var s := Run(LIMITS, CUT_SHORT);
            var work := Work(RIG, Some("job"), 1.0, 1);
            && s.ended && s.credits == [] && s.pending == [Entry("1", PendingSubmit(work, 1_000))]
            && Times(Admitted(LIMITS, CUT_SHORT), work) == 1
  {
    RigIsNamed();
    OneIsHeld(Step(LIMITS, INITIAL, CUT_SHORT[0]));
    ThreeSteps(LIMITS, CUT_SHORT);
    SharesAreConserved(LIMITS, CUT_SHORT, Work(RIG, Some("job"), 1.0, 1));
    hide Run, Admitted;
  }

  lemma ThreeSteps(o: Options, es: seq<Event>)
    requires |es| == 3
    ensures Run(o, es) == Step(o, Step(o, Step(o, INITIAL, es[0]), es[1]), es[2])
  {
    hide Step;
    assert es[..2][..1] == es[..1] && es[..1][..0] == [];
    assert Run(o, es[..1][..0]) == INITIAL;
    assert Run(o, es[..1]) == Step(o, INITIAL, es[0]);
    assert Run(o, es[..2]) == Step(o, Run(o, es[..1]), es[1]);
  }

  /** Unless upstream happens to answer it afterwards, that submit is never reported. */
  lemma SomeSubmitIsNeverReported(fs: seq<Event>)
    requires !AnsweredIn(fs, "1")
    ensures var work := Work(RIG, Some("job"), 1.0, 1);
            && Times(Admitted(LIMITS, CUT_SHORT + fs), work) == 1
            && TimesCredited(Run(LIMITS, CUT_SHORT + fs).credits, work) == 0
            && !AllReportedOnce(LIMITS, CUT_SHORT + fs)
  {
    var s, work := Run(LIMITS, CUT_SHORT), Work(RIG, Some("job"), 1.0, 1);
    CutShortRuns();
    hide Run, RunOn, Admitted, Answered, Get;
    EndedRun(LIMITS, s, fs);
    assert s.pending[0].key == "1";
    GetIsMembership(s.pending, "1");
    EndedFateIsTheAnswer(LIMITS, s, fs, "1");
    RunGoesOn(LIMITS, CUT_SHORT, fs);
    var t := RunOn(LIMITS, s, fs);
    HeldWorkIsCounted(t.pending, "1", work);
    NothingAdmittedOnceEnded(LIMITS, CUT_SHORT, fs, work);
    SharesAreConserved(LIMITS, CUT_SHORT + fs, work);
  }

  lemma {:induction false} HeldWorkIsCounted(pending: Pending, key: string, work: Work)
    requires Has(pending, key) && Get(pending, key).value.work == work
    ensures TimesHeld(pending, work) > 0
  {
    if pending[0].key != key {
      HeldWorkIsCounted(pending[1..], key, work);
    }
  }

  lemma {:induction false} NothingAdmittedOnceEnded(o: Options, es: seq<Event>, fs: seq<Event>, work: Work)
    requires Run(o, es).ended
    ensures Times(Admitted(o, es + fs), work) == Times(Admitted(o, es), work)
    ensures Run(o, es + fs).ended
  {
    hide Step, Admits, AdmittedBy, Times, Run;
    RunGoesOn(o, es, fs);
    if fs == [] {
      assert es + fs == es;
    } else {
      var n := |fs| - 1;
      RunGoesOn(o, es, fs[..n]);
      NothingAdmittedOnceEnded(o, es, fs[..n], work);
      var all := es + fs;
      assert all[..|all| - 1] == es + fs[..n];
      var s := Run(o, es + fs[..n]);
      StaysEnded(o, s, fs[n]);
      OnlySubmitsAreAdmitted(o, s, fs[n], work);
      TimesConcat(Admitted(o, es + fs[..n]), AdmittedBy(o, s, fs[n]), work);
    }
  }

  /** And if upstream does answer, the submit is reported after the end of the session. */
  lemma LateAnswerIsReported()
    ensures var late := CUT_SHORT + [FromUpstream(Response(TextId("1"), JBool(true), None))];
            && Run(LIMITS, late).credits == [Credit("1", Work(RIG, Some("job"), 1.0, 1), Accepted)]
            && AllReportedOnce(LIMITS, late)
  {
    CutShortRuns();
    var answer := FromUpstream(Response(TextId("1"), JBool(true), None));
    var late := CUT_SHORT + [answer];
    assert late[..|late| - 1] == CUT_SHORT;
    hide CUT_SHORT;
    var s := Run(LIMITS, CUT_SHORT);
    assert Run(LIMITS, late) == Step(LIMITS, s, answer);
    AllReportedIffNonePending(LIMITS, late);
  }
}
