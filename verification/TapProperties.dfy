/** What the rig's ledger says and does not say, over every run of the tap. */
module TapProperties {
  import opened Wrappers
  import opened OrderedMap
  import opened Stratum
  import opened Tap

  // ---- the ledger never learns the login -------------------------------------------

  /** Two inputs that differ at most in the login of a submit or anything in an authorize. */
  predicate AlikeButForTheLogin(a: Event, b: Event) {
    if a.FromMiner? && a.sent.Request? && a.sent.verb == Submit then
      && b.FromMiner? && b.sent.Request? && b.sent.verb == Submit && a.at == b.at
      && a.sent.id == b.sent.id && Slice(a.sent.params, 1) == Slice(b.sent.params, 1)
    else if a.FromMiner? && a.sent.Request? && a.sent.verb == Authorize then
      b.FromMiner? && b.sent.Request? && b.sent.verb == Authorize
    else a == b
  }

  /** What a tap holds and writes does not depend on who the rig logs in as, so no token is in it. */
  lemma {:induction false} TapForgetsTheLogin(es: seq<Event>, fs: seq<Event>)
    requires |es| == |fs| && forall i :: 0 <= i < |es| ==> AlikeButForTheLogin(es[i], fs[i])
    ensures Run(es) == Run(fs)
  {
    if es != [] {
      var n := |es| - 1;
      TapForgetsTheLogin(es[..n], fs[..n]);
      SameStep(Run(es[..n]), es[n], fs[n]);
      hide Step;
    }
  }

  lemma SameStep(s: State, a: Event, b: Event)
    requires AlikeButForTheLogin(a, b)
    ensures Step(s, a) == Step(s, b)
  {
    if a.FromMiner? && a.sent.Request? && a.sent.verb == Submit {
      var p, q := a.sent.params, b.sent.params;
      assert |p| > 1 ==> p[1] == Slice(p, 1)[0];
      assert |q| > 1 ==> q[1] == Slice(q, 1)[0];
    }
  }

  // ---- every share in the ledger was submitted, and ended as it says ------------------

  ghost predicate Held(s: State, p: Pending) {
    exists k :: 0 <= k < |s.pending| && s.pending[k].value == p
  }

  ghost predicate Recorded(s: State, p: Pending, fate: Fate) {
    exists k :: 0 <= k < |s.ledger| && s.ledger[k].Share? && s.ledger[k].share == p && s.ledger[k].fate == fate
  }

  /** The event takes in this submit, in this state. */
  ghost predicate Submits(s: State, e: Event, p: Pending) {
    && e.FromMiner? && e.sent.Request? && e.sent.verb == Submit && e.sent.id != NullId
    && p.id == Key(e.sent.id) && p.at == e.at
    && p.jobId == SpellParam(e.sent.params, 1) && p.params == Slice(e.sent.params, 1)
    && p.extranonce1 == s.extranonce1 && p.difficulty == s.difficulty && p.target == s.target
  }

  /** The event is the reason a share of this id ends this way. */
  ghost predicate Ends(e: Event, id: string, fate: Fate) {
    match fate
    case Accepted => e.FromProxy? && AnswersKey(e.received, id) && IsShareAccepted(e.received)
    case Rejected => e.FromProxy? && AnswersKey(e.received, id) && !IsShareAccepted(e.received)
    case Unanswered => e.Closed?
  }

  /** A pending submit is held under its own id. */
  ghost predicate KeyedById(s: State) {
    Distinct(s.pending) && forall k :: 0 <= k < |s.pending| ==> s.pending[k].value.id == s.pending[k].key
  }

  lemma ResolveRecords(s: State, entry: Pending, fate: Fate, reason: Option<string>, at: int, p: Pending, f: Fate)
    requires Recorded(AfterResolve(s, entry, fate, reason, at), p, f)
    ensures Recorded(s, p, f) || (p == entry && f == fate)
    ensures AfterResolve(s, entry, fate, reason, at).pending == s.pending
  {
    var t := AfterResolve(s, entry, fate, reason, at);
    var k :| 0 <= k < |t.ledger| && t.ledger[k].Share? && t.ledger[k].share == p && t.ledger[k].fate == f;
    if k < |s.ledger| {
      assert t.ledger[k] == s.ledger[k];
    }
  }

  lemma ResolveKeepsPending(s: State, entry: Pending, fate: Fate, reason: Option<string>, at: int)
    ensures AfterResolve(s, entry, fate, reason, at).pending == s.pending
  {}

  lemma {:induction false} DrainRecords(s: State, left: OMap<string, Pending>, at: int, p: Pending, f: Fate)
    requires Recorded(AfterDrainOf(s, left, at), p, f)
    ensures Recorded(s, p, f) || (f == Unanswered && exists k :: 0 <= k < |left| && left[k].value == p)
    decreases left
  {
    if left != [] {
      hide AfterResolve;
      DrainRecords(AfterResolve(s, left[0].value, Unanswered, None, at), left[1..], at, p, f);
      if Recorded(AfterResolve(s, left[0].value, Unanswered, None, at), p, f) {
        ResolveRecords(s, left[0].value, Unanswered, None, at, p, f);
      } else {
        var k :| 0 <= k < |left[1..]| && left[1..][k].value == p;
        assert left[k + 1].value == p;
      }
    }
  }

  lemma AnswerRecords(s: State, answer: Message, at: int, p: Pending, f: Fate)
    requires KeyedById(s) && answer.Response? && Recorded(AfterAnswer(s, answer, at), p, f)
    ensures Recorded(s, p, f) || (Held(s, p) && Ends(FromProxy(answer, at), p.id, f))
  {
    hide AfterResolve;
    var id := Key(answer.id);
    if answer.id != NullId && id !in s.subscribes && Has(s.pending, id) {
      GetIsMembership(s.pending, id);
      var t, entry := s.(pending := Remove(s.pending, id)), Get(s.pending, id).value;
      var fate := if IsShareAccepted(answer) then Accepted else Rejected;
      var reason := if IsShareAccepted(answer) || answer.error.None? then None else Some(answer.error.value.message);
      ResolveRecords(t, entry, fate, reason, at, p, f);
      var k :| 0 <= k < |s.pending| && s.pending[k] == Entry(id, entry);
    }
  }

  /** A step records a share only by ending one that was held, for the reason it gives. */
  lemma StepRecords(s: State, e: Event, p: Pending, f: Fate)
    requires KeyedById(s) && Recorded(Step(s, e), p, f)
    ensures Recorded(s, p, f) || (Held(s, p) && Ends(e, p.id, f))
  {
    hide AfterAnswer, AfterNotify, AfterDrainOf;
    match e {
      case FromMiner(sent, at) =>
      case FromProxy(received, at) =>
        if received.Response? {
          AnswerRecords(s, received, at, p, f);
        } else {
          NotifyKeepsLedger(s, received.params);
        }
      case Closed(at) =>
        DrainRecords(s, s.pending, at, p, f);
    }
  }

  lemma NotifyKeepsLedger(s: State, params: seq<Json>)
    ensures AfterNotify(s, params).ledger == s.ledger && AfterNotify(s, params).pending == s.pending
  {}

  lemma AnswerHolds(s: State, answer: Message, at: int)
    requires KeyedById(s) && answer.Response?
    ensures KeyedById(AfterAnswer(s, answer, at))
    ensures forall p :: Held(AfterAnswer(s, answer, at), p) ==> Held(s, p)
  {
    hide AfterResolve;
    var id := Key(answer.id);
    if answer.id != NullId && id !in s.subscribes && Has(s.pending, id) {
      var gone := RemoveShape(s.pending, id);
      RemoveKeepsDistinct(s.pending, id);
      var t, entry := s.(pending := Remove(s.pending, id)), Get(s.pending, id).value;
      var fate := if IsShareAccepted(answer) then Accepted else Rejected;
      var reason := if IsShareAccepted(answer) || answer.error.None? then None else Some(answer.error.value.message);
      ResolveKeepsPending(t, entry, fate, reason, at);
      assert forall k :: 0 <= k < |t.pending| ==> t.pending[k] in s.pending;
    }
  }

  /** A submit held after a step was held before, or the step is the one that took it in. */
  lemma StepHolds(s: State, e: Event)
    requires KeyedById(s)
    ensures KeyedById(Step(s, e))
    ensures forall p :: Held(Step(s, e), p) ==> Held(s, p) || Submits(s, e, p)
  {
    hide AfterAnswer, AfterNotify, AfterDrainOf;
    match e {
      case FromMiner(sent, at) =>
        if sent.Request? && sent.id != NullId && sent.verb == Submit {
          var entry := Pending(at, Key(sent.id), SpellParam(sent.params, 1), Slice(sent.params, 1),
                               s.extranonce1, s.difficulty, s.target);
          PutHolds(s.pending, Key(sent.id), entry);
          assert Submits(s, e, entry);
          assert forall k :: 0 <= k < |Put(s.pending, Key(sent.id), entry)| ==>
            Put(s.pending, Key(sent.id), entry)[k] in Put(s.pending, Key(sent.id), entry);
        }
      case FromProxy(received, at) =>
        if received.Response? {
          AnswerHolds(s, received, at);
        } else {
          NotifyKeepsLedger(s, received.params);
        }
      case Closed(at) =>
    }
  }

  lemma {:induction false} PutHolds(m: OMap<string, Pending>, key: string, entry: Pending)
    ensures forall e :: e in Put(m, key, entry) ==> e == Entry(key, entry) || e in m
    ensures Distinct(m) ==> Distinct(Put(m, key, entry))
  {
    if Distinct(m) {
      PutKeepsDistinct(m, key, entry);
    }
    if m != [] && m[0].key != key {
      PutHolds(m[1..], key, entry);
      assert m == [m[0]] + m[1..];
    }
  }

  lemma {:induction false} RunIsKeyed(es: seq<Event>)
    ensures KeyedById(Run(es))
  {
    hide Step;
    if es != [] {
      RunIsKeyed(es[..|es| - 1]);
      StepHolds(Run(es[..|es| - 1]), es[|es| - 1]);
    }
  }

  ghost predicate SubmittedAt(es: seq<Event>, i: nat, p: Pending) {
    i < |es| && Submits(Run(es[..i]), es[i], p)
  }

  lemma {:induction false} HeldWasSubmitted(es: seq<Event>, p: Pending) returns (i: nat)
    requires Held(Run(es), p)
    ensures SubmittedAt(es, i, p)
  {
    hide Step, Submits, Held;
    i := 0;
    if es == [] {
      NothingHeldAtFirst(p);
    } else {
      var n := |es| - 1;
      RunIsKeyed(es[..n]);
      StepHolds(Run(es[..n]), es[n]);
      if Held(Run(es[..n]), p) {
        i := HeldWasSubmitted(es[..n], p);
        assert es[..n][..i] == es[..i];
      } else {
        i := n;
      }
    }
  }

  lemma NothingHeldAtFirst(p: Pending)
    ensures !Held(INITIAL, p) && !Recorded(INITIAL, p, Accepted) && !Recorded(INITIAL, p, Rejected)
    ensures !Recorded(INITIAL, p, Unanswered)
  {}

  /** Every share in the ledger is a submit of the run, with the job and parameters it named and
      the extranonce, difficulty and target in force when it passed; and it ended after that, by an
      accepting answer to its id, a refusing one, or the close, as it says. */
  lemma {:induction false} EveryShareIsAsSubmitted(es: seq<Event>, p: Pending, f: Fate)
    returns (i: nat, j: nat)
    requires Recorded(Run(es), p, f)
    ensures i < j < |es| && SubmittedAt(es, i, p) && Ends(es[j], p.id, f)
  {
    hide Step, Submits, Held, Recorded, Ends;
    i, j := 0, 0;
    if es == [] {
      NothingHeldAtFirst(p);
    } else {
      var n := |es| - 1;
      RunIsKeyed(es[..n]);
      StepRecords(Run(es[..n]), es[n], p, f);
      if Recorded(Run(es[..n]), p, f) {
        i, j := EveryShareIsAsSubmitted(es[..n], p, f);
      } else {
        i := HeldWasSubmitted(es[..n], p);
        j := n;
      }
      assert es[..n][..i] == es[..i];
    }
  }
}
