/** The rig-side tap: watches the traffic between miner and proxy and keeps its
    own ledger of what became of each submit. */
module Tap {
  import opened Wrappers
  import opened OrderedMap
  import opened Stratum

  const JOBS_HELD := 64

  datatype Pending = Pending(
    at: int,
    id: string,
    jobId: string,
    params: seq<Json>,
    extranonce1: Option<string>,
    difficulty: Option<real>,
    target: Option<string>)

  datatype Fate = Accepted | Rejected | Unanswered

  datatype LedgerEntry =
    | Job(at: int, job: string, jobParams: seq<Json>)
    | Share(share: Pending, fate: Fate, reason: Option<string>)

  datatype State = State(
    extranonce1: Option<string>,
    difficulty: Option<real>,
    target: Option<string>,
    subscribes: set<string>,
    pending: OMap<string, Pending>,
    jobs: OMap<string, seq<Json>>,
    written: seq<string>,
    ledger: seq<LedgerEntry>)

  const INITIAL := State(None, None, None, {}, [], [], [], [])

  /** Writes a job's parameters beside the first share that names it. */
  function AfterWriteJob(s: State, jobId: string, nowSeconds: int): State {
    if jobId in s.written || !Has(s.jobs, jobId) then s
    else
      var written := s.written + [jobId];
      s.(ledger := s.ledger + [Job(nowSeconds, jobId, Get(s.jobs, jobId).value)],
         written := if |written| > JOBS_HELD * 4 then written[1..] else written)
  }

  function AfterResolve(
    s: State, entry: Pending, fate: Fate, reason: Option<string>, nowSeconds: int): State
  {
    var w := AfterWriteJob(s, entry.jobId, nowSeconds);
    w.(ledger := w.ledger + [Share(entry, fate, reason)])
  }

  function AfterMiner(s: State, message: Message, nowSeconds: int): State {
    if !message.Request? || message.id == NullId then s
    else if message.verb == Subscribe then s.(subscribes := s.subscribes + {Key(message.id)})
    else if message.verb == Submit then
      var entry := Pending(nowSeconds, Key(message.id), SpellParam(message.params, 1),
                           Slice(message.params, 1), s.extranonce1, s.difficulty, s.target);
      s.(pending := Put(s.pending, Key(message.id), entry))
    else s
  }

  /** `result[1]`, when the answer to a subscribe is a list with text there. */
  function Extranonce1In(result: Json): Option<string> {
    if result.JList? && |result.items| > 1 && result.items[1].JText?
    then Some(result.items[1].text) else None
  }

  function AfterAnswer(s: State, answer: Message, nowSeconds: int): State
    requires answer.Response?
  {
    if answer.id == NullId then s
    else
      var id := Key(answer.id);
      if id in s.subscribes then
        var t := s.(subscribes := s.subscribes - {id});
        if Extranonce1In(answer.result).Some? then t.(extranonce1 := Extranonce1In(answer.result)) else t
      else if !Has(s.pending, id) then s
      else
        var t := s.(pending := Remove(s.pending, id));
        if IsShareAccepted(answer)
        then AfterResolve(t, Get(s.pending, id).value, Accepted, None, nowSeconds)
        else AfterResolve(t, Get(s.pending, id).value, Rejected,
                          if answer.error.None? then None else Some(answer.error.value.message), nowSeconds)
  }

  function AfterNotify(s: State, params: seq<Json>): State {
    if |params| == 0 then s
    else
      var jobs := Put(s.jobs, SpellParam(params, 0), params);
      s.(jobs := if |jobs| > JOBS_HELD then jobs[1..] else jobs)
  }

  function AfterProxy(s: State, message: Message, nowSeconds: int): State {
    if message.Response? then AfterAnswer(s, message, nowSeconds)
    else
      match message.verb
      case Notify => AfterNotify(s, message.params)
      case SetDifficulty =>
        if |message.params| > 0 && message.params[0].JNumber?
        then s.(difficulty := Some(message.params[0].n)) else s
      case SetTarget =>
        if |message.params| > 0 && message.params[0].JText?
        then s.(target := Some(message.params[0].text)) else s
      case SetExtranonce =>
        if |message.params| > 0 && message.params[0].JText?
        then s.(extranonce1 := Some(message.params[0].text)) else s
      case _ => s
  }

  function AfterDrainOf(s: State, left: OMap<string, Pending>, nowSeconds: int): State
    decreases left
  {
    if left == [] then s
    else AfterDrainOf(AfterResolve(s, left[0].value, Unanswered, None, nowSeconds), left[1..], nowSeconds)
  }

  /** Closing gives every pending submit the third fate, in the order they were made. */
  function AfterDrain(s: State, nowSeconds: int): State {
    AfterDrainOf(s, s.pending, nowSeconds).(pending := [])
  }

  /** The tap as the source runs it. */
  class Watcher {
    var extranonce1: Option<string>
    var difficulty: Option<real>
    var target: Option<string>
    var subscribes: set<string>
    var pending: OMap<string, Pending>
    var jobs: OMap<string, seq<Json>>
    var written: seq<string>
    var ledger: seq<LedgerEntry>

    ghost function Model(): State
      reads this
    {
      State(extranonce1, difficulty, target, subscribes, pending, jobs, written, ledger)
    }

    constructor ()
      ensures Model() == INITIAL
    {
      extranonce1, difficulty, target := None, None, None;
      subscribes, pending, jobs, written, ledger := {}, [], [], [], [];
    }

    method WriteJob(jobId: string, nowSeconds: int)
      modifies this`ledger, this`written
      ensures Model() == AfterWriteJob(old(Model()), jobId, nowSeconds)
    {
      if jobId in written {
        return;
      }
      var params := Get(jobs, jobId);
      if params.None? {
        return;
      }
      ledger := ledger + [Job(nowSeconds, jobId, params.value)];
      written := written + [jobId];
      if |written| > JOBS_HELD * 4 {
        written := written[1..];
      }
    }

    method Resolve(entry: Pending, fate: Fate, reason: Option<string>, nowSeconds: int)
      modifies this`ledger, this`written
      ensures Model() == AfterResolve(old(Model()), entry, fate, reason, nowSeconds)
    {
      WriteJob(entry.jobId, nowSeconds);
      ledger := ledger + [Share(entry, fate, reason)];
    }

    method FromMiner(message: Message, nowSeconds: int)
      modifies this`subscribes, this`pending
      ensures Model() == AfterMiner(old(Model()), message, nowSeconds)
    {
      if !message.Request? || message.id == NullId {
        return;
      }
      var id := Key(message.id);
      if message.verb == Subscribe {
        subscribes := subscribes + {id};
        return;
      }
      if message.verb == Submit {
        pending := Put(pending, id, Pending(nowSeconds, id, SpellParam(message.params, 1),
                                            Slice(message.params, 1), extranonce1, difficulty, target));
      }
    }

    method FromProxy(message: Message, nowSeconds: int)
      modifies this
      ensures Model() == AfterProxy(old(Model()), message, nowSeconds)
    {
      if message.Response? {
        if message.id == NullId {
          return;
        }
        var id := Key(message.id);
        if id in subscribes {
          subscribes := subscribes - {id};
          if Extranonce1In(message.result).Some? {
            extranonce1 := Extranonce1In(message.result);
          }
          return;
        }
        var entry := Get(pending, id);
        if entry.None? {
          return;
        }
        pending := Remove(pending, id);
        if IsShareAccepted(message) {
          Resolve(entry.value, Accepted, None, nowSeconds);
        } else {
          Resolve(entry.value, Rejected,
                  if message.error.None? then None else Some(message.error.value.message), nowSeconds);
        }
        return;
      }
      match message.verb {
        case Notify =>
          if |message.params| == 0 {
            return;
          }
          jobs := Put(jobs, SpellParam(message.params, 0), message.params);
          if |jobs| > JOBS_HELD {
            jobs := jobs[1..];
          }
        case SetDifficulty =>
          if |message.params| > 0 && message.params[0].JNumber? {
            difficulty := Some(message.params[0].n);
          }
        case SetTarget =>
          if |message.params| > 0 && message.params[0].JText? {
            target := Some(message.params[0].text);
          }
        case SetExtranonce =>
          if |message.params| > 0 && message.params[0].JText? {
            extranonce1 := Some(message.params[0].text);
          }
        case _ =>
      }
    }

    method Drain(nowSeconds: int)
      modifies this`ledger, this`written, this`pending
      ensures Model() == AfterDrain(old(Model()), nowSeconds)
    {
      var i := 0;
      while i < |pending|
        invariant 0 <= i <= |pending| && pending == old(pending)
        invariant AfterDrainOf(old(Model()), old(pending), nowSeconds)
               == AfterDrainOf(Model(), pending[i..], nowSeconds)
      {
        assert pending[i..][1..] == pending[i + 1..];
        Resolve(pending[i].value, Unanswered, None, nowSeconds);
        i := i + 1;
      }
      pending := [];
    }
  }

  // ---- bounded memory, and the job beside every share ------------------------

  datatype Event =
    | FromMiner(sent: Message, at: int)
    | FromProxy(received: Message, at: int)
    | Closed(at: int)

  function Step(s: State, e: Event): State {
    match e
    case FromMiner(sent, at) => AfterMiner(s, sent, at)
    case FromProxy(received, at) => AfterProxy(s, received, at)
    case Closed(at) => AfterDrain(s, at)
  }

  function Run(es: seq<Event>): State {
    if es == [] then INITIAL else Step(Run(es[..|es| - 1]), es[|es| - 1])
  }

  /** Some entry before position k writes the job down. */
  ghost predicate JobWrittenBefore(ledger: seq<LedgerEntry>, k: int, job: string) {
    exists i :: 0 <= i < k && i < |ledger| && ledger[i].Job? && ledger[i].job == job
  }

  ghost predicate Tidy(s: State) {
    && Distinct(s.pending) && Distinct(s.jobs)
    && |s.jobs| <= JOBS_HELD
    && |s.written| <= JOBS_HELD * 4
    && (forall j :: j in s.written ==> JobWrittenBefore(s.ledger, |s.ledger|, j))
  }

  lemma WriteJobIsTidy(s: State, jobId: string, nowSeconds: int)
    requires Tidy(s)
    ensures var t := AfterWriteJob(s, jobId, nowSeconds);
            && Tidy(t) && s.ledger <= t.ledger
            && (Has(s.jobs, jobId) ==> JobWrittenBefore(t.ledger, |t.ledger|, jobId))
  {
    var t := AfterWriteJob(s, jobId, nowSeconds);
    if t != s {
      assert t.ledger[|s.ledger|].Job?;
      forall j | j in t.written ensures JobWrittenBefore(t.ledger, |t.ledger|, j) {
        if j != jobId {
          assert j in s.written;
          var i :| 0 <= i < |s.ledger| && s.ledger[i].Job? && s.ledger[i].job == j;
          assert t.ledger[i].Job?;
        }
      }
    }
  }

  /** Resolving a share whose job is still held leaves that job written before it. */
  lemma ResolveIsTidy(s: State, entry: Pending, fate: Fate, reason: Option<string>, nowSeconds: int)
    requires Tidy(s)
    ensures var t := AfterResolve(s, entry, fate, reason, nowSeconds);
            && Tidy(t) && s.ledger <= t.ledger
            && t.pending == s.pending && t.jobs == s.jobs
            && t.ledger[|t.ledger| - 1] == Share(entry, fate, reason)
            && (Has(s.jobs, entry.jobId) ==> JobWrittenBefore(t.ledger, |t.ledger| - 1, entry.jobId))
  {
    WriteJobIsTidy(s, entry.jobId, nowSeconds);
    var w, t := AfterWriteJob(s, entry.jobId, nowSeconds), AfterResolve(s, entry, fate, reason, nowSeconds);
    forall j | JobWrittenBefore(w.ledger, |w.ledger|, j)
      ensures JobWrittenBefore(t.ledger, |t.ledger| - 1, j)
    {
      var i :| 0 <= i < |w.ledger| && w.ledger[i].Job? && w.ledger[i].job == j;
      assert t.ledger[i].Job?;
    }
    hide AfterWriteJob;
  }

  lemma {:induction false} DrainIsTidy(s: State, left: OMap<string, Pending>, nowSeconds: int)
    requires Tidy(s)
    ensures Tidy(AfterDrainOf(s, left, nowSeconds))
    decreases left
  {
    if left != [] {
      ResolveIsTidy(s, left[0].value, Unanswered, None, nowSeconds);
      DrainIsTidy(AfterResolve(s, left[0].value, Unanswered, None, nowSeconds), left[1..], nowSeconds);
    }
  }

  lemma AnswerIsTidy(s: State, answer: Message, nowSeconds: int)
    requires Tidy(s) && answer.Response?
    ensures Tidy(AfterAnswer(s, answer, nowSeconds))
  {
    if Has(s.pending, Key(answer.id)) {
      RemoveKeepsDistinct(s.pending, Key(answer.id));
      var entry, t := Get(s.pending, Key(answer.id)).value, s.(pending := Remove(s.pending, Key(answer.id)));
      assert Tidy(t);
      ResolveIsTidy(t, entry, Accepted, None, nowSeconds);
      ResolveIsTidy(t, entry, Rejected,
                    if answer.error.None? then None else Some(answer.error.value.message), nowSeconds);
    }
    hide AfterResolve;
  }

  lemma NotifyIsTidy(s: State, params: seq<Json>)
    requires Tidy(s)
    ensures Tidy(AfterNotify(s, params))
  {
    PutKeepsDistinct(s.jobs, SpellParam(params, 0), params);
    PutShape(s.jobs, SpellParam(params, 0), params);
  }

  lemma StepIsTidy(s: State, e: Event)
    requires Tidy(s)
    ensures Tidy(Step(s, e))
  {
    hide AfterAnswer, AfterNotify, AfterDrainOf;
    match e
    case FromMiner(sent, at) =>
      if sent.Request? {
        forall entry ensures Distinct(Put(s.pending, Key(sent.id), entry)) {
          PutKeepsDistinct(s.pending, Key(sent.id), entry);
        }
      }
    case FromProxy(received, at) =>
      if received.Response? {
        AnswerIsTidy(s, received, at);
      } else {
        NotifyIsTidy(s, received.params);
      }
    case Closed(at) => DrainIsTidy(s, s.pending, at);
  }

  /** The tap's memory is bounded over every run, and a job it believes written is. */
  lemma {:induction false} RunIsTidy(es: seq<Event>)
    ensures Tidy(Run(es))
  {
    if es != [] {
      RunIsTidy(es[..|es| - 1]);
      StepIsTidy(Run(es[..|es| - 1]), es[|es| - 1]);
      hide Step;
    }
  }
}
