/** `send` and `resume` as they are written, one call after another, and the steps they take
    in the shared world of Dispatch. */
module DispatchProcess {
  import opened Wrappers
  import opened Dispatch

  datatype SendResult =
    | Refused
    | CallFailed
    | NotBroadcast(op: string)
    | OperationLost(op: string)
    | SentAs(op: string, txid: string)
    | StillRunning(op: string)

  /** Where a run of steps leads from a given world, if each is possible in its turn. */
  function RunFrom(w: World, es: seq<Event>): Option<World>
    decreases |es|
  {
    if es == [] then Some(w)
    else if Enabled(w, es[0]) then RunFrom(Step(w, es[0]), es[1..])
    else None
  }

  /** The steps a sender takes once it polls: the wait is over after the last status. */
  function PollSteps(p: nat, op: string, statuses: seq<Status>): seq<Event> {
    if statuses == [] then []
    else
      var seen := SendSees(op, statuses[0]);
      if seen.Completing? then [Poll(p, statuses[0]), Complete(p)]
      else if seen.Failing? then [Poll(p, statuses[0]), Fail(p)]
      else if |statuses| == 1 then [Poll(p, statuses[0]), GiveUp(p)]
      else [Poll(p, statuses[0])] + PollSteps(p, op, statuses[1..])
  }

  /** All the steps of a send. The wallet's answer is None when the call throws. */
  function SendSteps(p: nat, r: Round, answer: Option<string>, statuses: seq<Status>): seq<Event> {
    if r.dispatchState != Planned then [Begin(p)]
    else if answer.None? then [Begin(p), SendManyThrows(p), Fail(p)]
    else [Begin(p), SendManyReturns(p, answer.value), RecordOperation(p)] + PollSteps(p, answer.value, statuses)
  }

  function ResumeSteps(p: nat, r: Round, status: Status): seq<Event> {
    if r.dispatchState != Sending || r.operationId.None? then [LoadForResume(p)]
    else
      var seen := ResumeSees(r.operationId.value, status);
      if seen.ResumeCompleting? then [LoadForResume(p), Poll(p, status), Complete(p)]
      else if seen.ResumeFailing? then [LoadForResume(p), Poll(p, status), Fail(p)]
      else [LoadForResume(p), Poll(p, status)]
  }

  // ---- what each leaves in the row ---------------------------------------------------

  function AfterPolls(r: Round, op: string, statuses: seq<Status>): Round {
    if statuses == [] then r
    else
      var seen := SendSees(op, statuses[0]);
      if seen.Completing? then AfterComplete(r, seen.txid)
      else if seen.Failing? then AfterFail(r)
      else AfterPolls(r, op, statuses[1..])
  }

  function AfterSend(r: Round, plan: SendPlan, answer: Option<string>, statuses: seq<Status>): Round {
    var begun := AfterBegin(r, plan.fromAddress);
    if r.dispatchState != Planned then begun
    else if answer.None? then AfterFail(begun)
    else AfterPolls(AfterOperation(begun, answer.value), answer.value, statuses)
  }

  function AfterResume(r: Round, status: Status): Round {
    if r.dispatchState != Sending || r.operationId.None? then r
    else
      var seen := ResumeSees(r.operationId.value, status);
      if seen.ResumeCompleting? then AfterComplete(r, seen.txid)
      else if seen.ResumeFailing? then AfterFail(r)
      else r
  }

  /** A run from this world ends with the process over, the row as given, and every other process
      where it was. */
  ghost predicate EndsWith(w: World, p: nat, es: seq<Event>, r: Round) {
    var end := RunFrom(w, es);
    && end.Some? && end.value.round == r
    && p in end.value.procs && end.value.procs[p] == Over
    && end.value.procs - {p} == w.procs - {p}
  }

  lemma RunFirst(w: World, e: Event, es: seq<Event>)
    requires Enabled(w, e)
    ensures RunFrom(w, [e] + es) == RunFrom(Step(w, e), es)
  {
    assert ([e] + es)[1..] == es;
  }

  /** Playing on from a reached world is playing the whole: what holds of every interleaving
      holds of these runs wherever they are interrupted. */
  lemma {:induction false} PlayThenRun(entries: seq<RecordedEntry>, before: seq<Event>, es: seq<Event>)
    requires Play(entries, before).Some?
    ensures Play(entries, before + es) == RunFrom(Play(entries, before).value, es)
    decreases |es|
  {
    hide Step, Enabled;
    if es == [] {
      assert before + es == before;
    } else {
      var first := before + [es[0]];
      assert first[..|first| - 1] == before;
      assert before + es == first + es[1..];
      if Enabled(Play(entries, before).value, es[0]) {
        PlayThenRun(entries, first, es[1..]);
      } else {
        StuckStaysStuck(entries, first, es[1..]);
      }
    }
  }

  lemma {:induction false} StuckStaysStuck(entries: seq<RecordedEntry>, stuck: seq<Event>, es: seq<Event>)
    requires Play(entries, stuck).None?
    ensures Play(entries, stuck + es).None?
    decreases |es|
  {
    hide Step, Enabled;
    if es == [] {
      assert stuck + es == stuck;
    } else {
      var all := stuck + es;
      assert all[..|all| - 1] == stuck + es[..|es| - 1];
      StuckStaysStuck(entries, stuck, es[..|es| - 1]);
    }
  }

  /** The status that settles the matter: the first final one. */
  predicate Settles(statuses: seq<Status>, i: nat) {
    i < |statuses| && Terminal(statuses[i]) && forall j :: 0 <= j < i ==> !Terminal(statuses[j])
  }

  /** The sequence of calls a sender makes: it leaves the row as its steps do, and its result says
      what became of the money. */
  method Send(row: Row, plan: SendPlan, answer: Option<string>, statuses: seq<Status>)
    returns (result: SendResult)
    requires statuses != []
    modifies row
    ensures row.round == AfterSend(old(row.round), plan, answer, statuses)
    ensures result == Refused <==> old(row.round).dispatchState != Planned
    ensures result == Refused ==> row.round == old(row.round)
    ensures result.CallFailed? <==> old(row.round).dispatchState == Planned && answer.None?
    ensures old(row.round).dispatchState == Planned && answer.Some? ==>
      forall i: nat :: Settles(statuses, i) ==>
        (if Paid(statuses[i]) then result == SentAs(answer.value, statuses[i].txid.value) else !result.SentAs?)
    ensures result.SentAs? ==>
      && row.round.dispatchState == Sent && row.round.txid == Some(result.txid)
      && row.round.operationId == Some(result.op)
      && exists i :: 0 <= i < |statuses| && Paid(statuses[i]) && statuses[i].txid == Some(result.txid)
    ensures result.StillRunning? ==>
      row.round.dispatchState == Sending && row.round.operationId == Some(result.op)
    ensures result.CallFailed? || result.NotBroadcast? || result.OperationLost? ==>
      row.round.dispatchState == Failed
  {
    var won := row.Begin(plan.fromAddress);
    if !won {
      return Refused;
    }
    if answer.None? {
      row.Fail();
      return CallFailed;
    }
    row.RecordOperation(answer.value);
    result := PollUntilDone(row, answer.value, statuses);
  }

  /** The polling loop, once the operation is written down. */
  method PollUntilDone(row: Row, op: string, statuses: seq<Status>) returns (result: SendResult)
    requires statuses != []
    requires row.round.operationId == Some(op) && row.round.dispatchState == Sending
    modifies row
    ensures row.round == AfterPolls(old(row.round), op, statuses)
    ensures result != Refused && !result.CallFailed?
    ensures forall i: nat :: Settles(statuses, i) ==>
      (if Paid(statuses[i]) then result == SentAs(op, statuses[i].txid.value) else !result.SentAs?)
    ensures result.SentAs? ==>
      && row.round.dispatchState == Sent && row.round.txid == Some(result.txid)
      && row.round.operationId == Some(result.op)
      && exists i :: 0 <= i < |statuses| && Paid(statuses[i]) && statuses[i].txid == Some(result.txid)
    ensures result.StillRunning? ==>
      row.round.dispatchState == Sending && row.round.operationId == Some(result.op)
    ensures result.NotBroadcast? || result.OperationLost? ==> row.round.dispatchState == Failed
  {
    var i := 0;
    while true
      invariant 0 <= i < |statuses| && row.round == old(row.round)
      invariant forall j :: 0 <= j < i ==> !Terminal(statuses[j])
      invariant AfterPolls(row.round, op, statuses) == AfterPolls(row.round, op, statuses[i..])
      decreases |statuses| - i
    {
      var status := statuses[i];
      assert statuses[i..][1..] == statuses[i + 1..];
      if status.phase == Success && status.txid.Some? {
        if !status.broadcast {
          row.Fail();
          return NotBroadcast(op);
        }
        row.Complete(status.txid.value);
        return SentAs(op, status.txid.value);
      }
      if status.phase == OperationFailed || status.phase == Cancelled {
        row.Fail();
        return OperationLost(op);
      }
      if i + 1 == |statuses| {
        return StillRunning(op);
      }
      i := i + 1;
    }
  }

  /** One look at the operation of a round left in sending; anything unsettled is left alone. */
  method Resume(row: Row, status: Status) returns (looked: bool)
    modifies row
    ensures row.round == AfterResume(old(row.round), status)
    ensures looked <==> old(row.round).dispatchState == Sending && old(row.round).operationId.Some?
    ensures row.round.dispatchState == Sent && old(row.round).dispatchState != Sent ==>
      looked && Paid(status) && row.round.txid == status.txid
    ensures row.round != old(row.round) ==> looked && Terminal(status)
  {
    if row.round.dispatchState != Sending || row.round.operationId.None? {
      return false;
    }
    if status.phase == Success && status.txid.Some? && status.broadcast {
      row.Complete(status.txid.value);
    } else if status.phase == OperationFailed || status.phase == Cancelled {
      row.Fail();
    }
    return true;
  }

  // ---- the same in any world ------------------------------------------------------------

  lemma LastTwo(w: World, e: Event, f: Event)
    requires Enabled(w, e) && Enabled(Step(w, e), f)
    ensures RunFrom(w, [e, f]) == Some(Step(Step(w, e), f))
  {
    hide Step, Enabled;
    RunFirst(w, e, [f]);
    RunFirst(Step(w, e), f, []);
    assert [e, f] == [e] + [f] && [f] == [f] + [];
  }

  lemma LastThree(w: World, e: Event, f: Event, g: Event)
    requires Enabled(w, e) && Enabled(Step(w, e), f) && Enabled(Step(Step(w, e), f), g)
    ensures RunFrom(w, [e, f, g]) == Some(Step(Step(Step(w, e), f), g))
  {
    hide Step, Enabled;
    RunFirst(w, e, [f, g]);
    LastTwo(Step(w, e), f, g);
    assert [e, f, g] == [e] + [f, g];
  }

  /** A first step that moves only this process leaves the rest to the rest of the run. */
  lemma EndsAfter(w: World, p: nat, e: Event, es: seq<Event>, r: Round)
    requires Enabled(w, e) && Step(w, e).procs - {p} == w.procs - {p}
    requires EndsWith(Step(w, e), p, es, r)
    ensures EndsWith(w, p, [e] + es, r)
  {
    hide Step, Enabled;
    RunFirst(w, e, es);
  }

  lemma PollEnds(w: World, p: nat, op: string, status: Status)
    requires p in w.procs && w.procs[p] == Polling(op)
    ensures var seen := SendSees(op, status);
            && (seen.Completing? ==> EndsWith(w, p, [Poll(p, status), Complete(p)], AfterComplete(w.round, seen.txid)))
            && (seen.Failing? ==> EndsWith(w, p, [Poll(p, status), Fail(p)], AfterFail(w.round)))
            && (seen.Polling? ==> EndsWith(w, p, [Poll(p, status), GiveUp(p)], w.round))
  {
    var seen := SendSees(op, status);
    LastTwo(w, Poll(p, status),
            if seen.Completing? then Complete(p) else if seen.Failing? then Fail(p) else GiveUp(p));
  }

  lemma {:induction false} PollsRun(w: World, p: nat, op: string, statuses: seq<Status>)
    requires statuses != [] && p in w.procs && w.procs[p] == Polling(op)
    ensures EndsWith(w, p, PollSteps(p, op, statuses), AfterPolls(w.round, op, statuses))
    decreases |statuses|
  {
    hide EndsWith, AfterComplete, AfterFail;
    var seen, e := SendSees(op, statuses[0]), Poll(p, statuses[0]);
    if seen.Polling? && |statuses| > 1 {
      PollsRun(Step(w, e), p, op, statuses[1..]);
      EndsAfter(w, p, e, PollSteps(p, op, statuses[1..]), AfterPolls(w.round, op, statuses));
    } else {
      PollEnds(w, p, op, statuses[0]);
    }
  }

  /** A sender's steps, in any world where it holds this plan: whoever else is there and wherever they
      stand, they end with the row as `Send` leaves it. */
  lemma SendRuns(w: World, p: nat, plan: SendPlan, answer: Option<string>, statuses: seq<Status>)
    requires statuses != [] && p in w.procs && w.procs[p] == Planning(plan)
    ensures EndsWith(w, p, SendSteps(p, w.round, answer, statuses), AfterSend(w.round, plan, answer, statuses))
  {
    if w.round.dispatchState != Planned {
      RunFirst(w, Begin(p), []);
      assert [Begin(p)] + [] == [Begin(p)];
    } else if answer.None? {
      LastThree(w, Begin(p), SendManyThrows(p), Fail(p));
    } else {
      var told := [SendManyReturns(p, answer.value), RecordOperation(p)];
      ClaimedRuns(Step(w, Begin(p)), p, plan, answer.value, statuses);
      EndsAfter(w, p, Begin(p), told + PollSteps(p, answer.value, statuses),
                AfterSend(w.round, plan, answer, statuses));
      assert [Begin(p)] + (told + PollSteps(p, answer.value, statuses))
          == SendSteps(p, w.round, answer, statuses);
    }
  }

  lemma ClaimedRuns(w: World, p: nat, plan: SendPlan, op: string, statuses: seq<Status>)
    requires statuses != [] && p in w.procs && w.procs[p] == Claimed(plan)
    ensures EndsWith(w, p, [SendManyReturns(p, op), RecordOperation(p)] + PollSteps(p, op, statuses),
                     AfterPolls(AfterOperation(w.round, op), op, statuses))
  {
    var told := Step(w, SendManyReturns(p, op));
    var polls, end := PollSteps(p, op, statuses), AfterPolls(AfterOperation(w.round, op), op, statuses);
    PollsRun(Step(told, RecordOperation(p)), p, op, statuses);
    hide PollSteps, AfterPolls, EndsWith;
    EndsAfter(told, p, RecordOperation(p), polls, end);
    EndsAfter(w, p, SendManyReturns(p, op), [RecordOperation(p)] + polls, end);
    assert [SendManyReturns(p, op)] + ([RecordOperation(p)] + polls)
        == [SendManyReturns(p, op), RecordOperation(p)] + polls;
  }

  lemma ResumeRuns(w: World, p: nat, status: Status)
    requires p !in w.procs
    ensures EndsWith(w, p, ResumeSteps(p, w.round, status), AfterResume(w.round, status))
  {
    hide PlanSend;
    var load, e := LoadForResume(p), Poll(p, status);
    if w.round.dispatchState != Sending || w.round.operationId.None? {
      RunFirst(w, load, []);
      assert [load] + [] == [load];
    } else {
      var seen := ResumeSees(w.round.operationId.value, status);
      if seen.ResumeCompleting? {
        LastThree(w, load, e, Complete(p));
      } else if seen.ResumeFailing? {
        LastThree(w, load, e, Fail(p));
      } else {
        LastTwo(w, load, e);
      }
    }
  }

  /** A send begun at any point of any interleaving and let through: the whole is again an interleaving
      the theorems about all of them speak of, the row is as `Send` leaves it, and no other process has
      moved. */
  lemma SendAnywhere(
    entries: seq<RecordedEntry>, before: seq<Event>, p: nat, fromAddress: string,
    answer: Option<string>, statuses: seq<Status>)
    requires Play(entries, before).Some? && statuses != []
    requires var w := Play(entries, before).value; p !in w.procs && PlanSend(w.round, fromAddress).Ok?
    ensures var w := Play(entries, before).value;
            var after := Play(entries, before + [LoadForSend(p, fromAddress)]
                                       + SendSteps(p, w.round, answer, statuses));
            && after.Some? && after.value.procs == w.procs[p := Over]
            && after.value.round
            == AfterSend(w.round, PlanSend(w.round, fromAddress).value, answer, statuses)
  {
    hide PlanSend, SendSteps, AfterSend;
    var w, load := Play(entries, before).value, LoadForSend(p, fromAddress);
    var loaded := before + [load];
    assert loaded[..|loaded| - 1] == before;
    var v := Play(entries, loaded).value;
    SendRuns(v, p, PlanSend(w.round, fromAddress).value, answer, statuses);
    PlayThenRun(entries, loaded, SendSteps(p, w.round, answer, statuses));
    var end := RunFrom(v, SendSteps(p, w.round, answer, statuses)).value;
    assert end.procs == (end.procs - {p})[p := Over] && v.procs - {p} == w.procs;
  }

  lemma ResumeAnywhere(entries: seq<RecordedEntry>, before: seq<Event>, p: nat, status: Status)
    requires Play(entries, before).Some? && p !in Play(entries, before).value.procs
    ensures var w := Play(entries, before).value;
            var after := Play(entries, before + ResumeSteps(p, w.round, status));
            && after.Some? && after.value.procs == w.procs[p := Over]
            && after.value.round == AfterResume(w.round, status)
  {
    hide ResumeSteps, AfterResume;
    var w := Play(entries, before).value;
    ResumeRuns(w, p, status);
    PlayThenRun(entries, before, ResumeSteps(p, w.round, status));
    var end := RunFrom(w, ResumeSteps(p, w.round, status)).value;
    assert end.procs == (end.procs - {p})[p := Over] && w.procs - {p} == w.procs;
  }
}
