/** A round is paid at most once, whatever runs beside whatever and dies when it may. */
module DispatchProperties {
  import opened Wrappers
  import opened Dispatch

  // ---- what each process may believe ---------------------------------------

  /** Between winning the claim and letting go of it. */
  predicate HoldsClaim(proc: Process) {
    proc.Claimed? || proc.CallThrew? || proc.GotOperation? || proc.Polling? || proc.Completing? || proc.Failing?
  }

  predicate HasOperation(proc: Process) {
    proc.GotOperation? || proc.Polling? || proc.Completing? || proc.Failing?
    || proc.Resuming? || proc.ResumeCompleting? || proc.ResumeFailing?
  }

  /** Nobody has won the claim: still planned, or settled by hand. */
  predicate Unclaimed(r: Round) {
    r.dispatchState == Planned || (r.dispatchState == Sent && r.settlement == Some(External))
  }

  predicate AsRecorded(plan: SendPlan, entries: seq<RecordedEntry>) {
    plan.recipients == Recipients(entries) && plan.totalZat == TotalZat(entries)
  }

  predicate Knows(proc: Process, r: Round, calls: seq<SendPlan>, issued: seq<string>) {
    && (HoldsClaim(proc) ==> !Unclaimed(r))
    && (HasOperation(proc) ==> issued == [proc.op])
    && (proc.Planning? ==> AsRecorded(proc.plan, r.entries))
    && (proc.Claimed? ==> AsRecorded(proc.plan, r.entries) && calls == [] && issued == [])
    && (proc.CallThrew? ==> issued == [])
  }

  ghost predicate OneHolder(procs: map<nat, Process>) {
    forall p, q :: p in procs && q in procs && HoldsClaim(procs[p]) && HoldsClaim(procs[q]) ==> p == q
  }

  predicate Shared(w: World) {
    && |w.calls| <= 1 && |w.issued| <= |w.calls|
    && (w.calls != [] ==> AsRecorded(w.calls[0], w.round.entries))
    && (Unclaimed(w.round) ==> w.calls == [] && w.round.operationId.None?)
    && (w.round.settlement == Some(External) ==> w.round.dispatchState == Sent)
    && (w.round.operationId.Some? ==> w.issued == [w.round.operationId.value])
  }

  ghost predicate Inv(w: World) {
    && Shared(w) && OneHolder(w.procs)
    && forall p :: p in w.procs ==> Knows(w.procs[p], w.round, w.calls, w.issued)
  }

  // ---- the invariant is inductive ------------------------------------------

  /** A step by p is safe when what p comes to believe is right, no one else's belief is
      upset, and p does not become a second holder. */
  lemma StepOf(w: World, v: World, p: nat)
    requires Inv(w) && p in v.procs && v.procs == w.procs[p := v.procs[p]]
    requires Shared(v) && Knows(v.procs[p], v.round, v.calls, v.issued)
    requires forall q :: q in w.procs && q != p ==> Knows(w.procs[q], v.round, v.calls, v.issued)
    requires HoldsClaim(v.procs[p]) ==> forall q :: q in w.procs && q != p ==> !HoldsClaim(w.procs[q])
    ensures Inv(v)
  {
  }

  lemma HolderIsAlone(w: World, p: nat)
    requires Inv(w) && p in w.procs && HoldsClaim(w.procs[p])
    ensures forall q :: q in w.procs && q != p ==> !HoldsClaim(w.procs[q])
  {
  }

  lemma SenderKeepsInv(w: World, e: Event)
    requires Inv(w) && Enabled(w, e)
    requires e.Begin? || e.SendManyReturns? || e.SendManyThrows? || e.RecordOperation?
    ensures Inv(Step(w, e))
  {
    hide AsRecorded, OneHolder;
    if !e.Begin? { HolderIsAlone(w, e.p); }
    StepOf(w, Step(w, e), e.p);
  }

  lemma OutcomeKeepsInv(w: World, e: Event)
    requires Inv(w) && Enabled(w, e)
    requires e.Complete? || e.Fail? || e.Poll? || e.GiveUp? || e.Crash?
    ensures Inv(Step(w, e))
  {
    hide AsRecorded, OneHolder;
    if HoldsClaim(w.procs[e.p]) { HolderIsAlone(w, e.p); }
    StepOf(w, Step(w, e), e.p);
  }

  lemma LoaderKeepsInv(w: World, e: Event)
    requires Inv(w) && Enabled(w, e)
    requires e.LoadForSend? || e.LoadForResume? || e.LoadForSettle? || e.Settle?
    ensures Inv(Step(w, e))
  {
    hide Recipients, TotalZat, OneHolder;
    StepOf(w, Step(w, e), e.p);
  }

  lemma StepKeepsInv(w: World, e: Event)
    requires Inv(w) && Enabled(w, e)
    ensures Inv(Step(w, e)) && Step(w, e).round.entries == w.round.entries
  {
    if e.Begin? || e.SendManyReturns? || e.SendManyThrows? || e.RecordOperation? {
      SenderKeepsInv(w, e);
    } else if e.Complete? || e.Fail? || e.Poll? || e.GiveUp? || e.Crash? {
      OutcomeKeepsInv(w, e);
    } else if e.Anchor? {
      hide AsRecorded;
    } else {
      LoaderKeepsInv(w, e);
    }
  }

  lemma {:induction false} PlayKeepsInv(entries: seq<RecordedEntry>, es: seq<Event>)
    requires Play(entries, es).Some?
    ensures Inv(Play(entries, es).value) && Play(entries, es).value.round.entries == entries
  {
    if es != [] {
      hide Step, Inv;
      PlayKeepsInv(entries, es[..|es| - 1]);
      StepKeepsInv(Play(entries, es[..|es| - 1]).value, es[|es| - 1]);
    } else {
      assert Inv(Start(entries));
    }
  }

  /** However many senders, resumers and settlers interleave and wherever they crash, the
      wallet is asked to send this round at most once, and then for exactly the recorded
      entries; and never, before or after, for a round settled by hand. */
  lemma AtMostOnePayment(entries: seq<RecordedEntry>, es: seq<Event>)
    requires Play(entries, es).Some?
    ensures var w := Play(entries, es).value;
            && |w.calls| <= 1
            && (w.calls != [] ==>
                  w.calls[0].recipients == Recipients(entries) && w.calls[0].totalZat == TotalZat(entries))
            && (w.round.settlement == Some(External) ==> w.calls == [] && w.round.dispatchState == Sent)
            && (w.round.dispatchState == Planned ==> w.calls == [])
  {
    PlayKeepsInv(entries, es);
  }

  // ---- what a status proves ------------------------------------------------

  ghost predicate Saw(w: World, op: string, status: Status) {
    (op, status) in w.observed
  }

  ghost predicate SawPaid(w: World, op: string, txid: string) {
    exists status :: Saw(w, op, status) && Paid(status) && status.txid == Some(txid)
  }

  ghost predicate SawLost(w: World, op: string) {
    exists status :: Saw(w, op, status) && Terminal(status) && !Paid(status)
  }

  ghost predicate Evidence(w: World, proc: Process) {
    && (HasOperation(proc) && !proc.GotOperation? ==> w.round.operationId == Some(proc.op))
    && (proc.Completing? || proc.ResumeCompleting? ==> SawPaid(w, proc.op, proc.txid))
    && (proc.Failing? || proc.ResumeFailing? ==> SawLost(w, proc.op))
  }

  ghost predicate Evidenced(w: World) {
    && (forall p :: p in w.procs ==> Evidence(w, w.procs[p]))
    && (w.round.settlement == Some(Wallet) ==>
          w.round.operationId.Some? && w.round.txid.Some?
          && SawPaid(w, w.round.operationId.value, w.round.txid.value))
  }

  /** More observations never take evidence away. */
  lemma EvidenceLasts(w: World, v: World, proc: Process)
    requires Evidence(w, proc) && w.observed <= v.observed && v.round.operationId == w.round.operationId
    ensures Evidence(v, proc)
  {
    assert forall op, status :: Saw(w, op, status) ==> Saw(v, op, status);
  }

  lemma PaidLasts(w: World, v: World, op: string, txid: string)
    requires SawPaid(w, op, txid) && w.observed <= v.observed
    ensures SawPaid(v, op, txid)
  {
    var status :| Saw(w, op, status) && Paid(status) && status.txid == Some(txid);
    assert Saw(v, op, status);
  }

  lemma StepObserves(w: World, e: Event)
    requires Enabled(w, e)
    ensures w.observed <= Step(w, e).observed
    ensures e.RecordOperation? || Step(w, e).round.operationId == w.round.operationId
    ensures e.Complete? || Step(w, e).round.settlement == w.round.settlement
         || (e.Settle? && w.round.dispatchState == Planned && Step(w, e).round.settlement == Some(External))
    ensures e.Complete? || e.Settle? || Step(w, e).round.txid == w.round.txid
  {
    hide PlanSend;
  }

  lemma PollShows(w: World, p: nat, status: Status)
    requires Enabled(w, Poll(p, status)) && Evidence(w, w.procs[p])
    ensures Evidence(Step(w, Poll(p, status)), Step(w, Poll(p, status)).procs[p])
  {
    var v := Step(w, Poll(p, status));
    assert v.observed[|w.observed|] == (w.procs[p].op, status);
    assert Saw(v, w.procs[p].op, status);
  }

  /** Recording the operation again, as its one holder, changes nothing for those who know it. */
  lemma RecordingIsKnown(w: World, p: nat, q: nat)
    requires Inv(w) && p in w.procs && w.procs[p].GotOperation? && q in w.procs && p != q
    requires Evidence(w, w.procs[q])
    ensures Evidence(Step(w, RecordOperation(p)), w.procs[q])
  {
    assert Knows(w.procs[p], w.round, w.calls, w.issued) && Knows(w.procs[q], w.round, w.calls, w.issued);
    var v := Step(w, RecordOperation(p));
    assert forall op, status :: Saw(w, op, status) ==> Saw(v, op, status);
  }

  lemma OthersKeepEvidence(w: World, e: Event, q: nat)
    requires Inv(w) && Evidenced(w) && Enabled(w, e) && q in w.procs
    requires e.Anchor? || e.p != q
    ensures Evidence(Step(w, e), w.procs[q])
  {
    hide Step, Inv, Evidence;
    StepObserves(w, e);
    if e.RecordOperation? {
      StepIsEnabled(w, e);
      RecordingIsKnown(w, e.p, q);
    } else {
      EvidenceLasts(w, Step(w, e), w.procs[q]);
    }
  }

  lemma StepIsEnabled(w: World, e: Event)
    requires Enabled(w, e) && e.RecordOperation?
    ensures e.p in w.procs && w.procs[e.p].GotOperation?
  {
  }

  lemma OwnEvidence(w: World, e: Event)
    requires Inv(w) && Evidenced(w) && Enabled(w, e) && !e.Anchor?
    ensures Evidence(Step(w, e), Step(w, e).procs[e.p])
  {
    if e.Poll? {
      PollShows(w, e.p, e.status);
    }
  }

  lemma RoundEvidence(w: World, e: Event)
    requires Inv(w) && Evidenced(w) && Enabled(w, e)
    ensures var r := Step(w, e).round;
            r.settlement == Some(Wallet) ==>
              r.operationId.Some? && r.txid.Some? && SawPaid(Step(w, e), r.operationId.value, r.txid.value)
  {
    hide PlanSend, AfterAnchor, SawPaid, SawLost;
    StepObserves(w, e);
    var r, v := w.round, Step(w, e);
    if r.settlement == Some(Wallet) && !e.Complete? {
      PaidLasts(w, v, r.operationId.value, r.txid.value);
      if e.RecordOperation? {
        assert Knows(w.procs[e.p], w.round, w.calls, w.issued);
      }
      if e.Settle? {
        assert Shared(w);
      }
    } else if e.Complete? {
      assert Evidence(w, w.procs[e.p]);
      PaidLasts(w, v, w.procs[e.p].op, w.procs[e.p].txid);
    }
  }

  lemma StepKeepsEvidence(w: World, e: Event)
    requires Inv(w) && Evidenced(w) && Enabled(w, e)
    ensures Evidenced(Step(w, e))
  {
    var v := Step(w, e);
    forall q | q in v.procs ensures Evidence(v, v.procs[q]) {
      if e.Anchor? || e.p != q {
        OthersKeepEvidence(w, e, q);
      } else {
        OwnEvidence(w, e);
      }
    }
    RoundEvidence(w, e);
    hide Evidence, SawPaid, AfterBegin, AfterComplete, AfterSettle, AfterAnchor, PlanSend;
  }

  lemma {:induction false} PlayKeepsEvidence(entries: seq<RecordedEntry>, es: seq<Event>)
    requires Play(entries, es).Some?
    ensures Evidenced(Play(entries, es).value)
  {
    if es != [] {
      hide Step, Inv, Evidenced;
      PlayKeepsInv(entries, es[..|es| - 1]);
      PlayKeepsEvidence(entries, es[..|es| - 1]);
      StepKeepsEvidence(Play(entries, es[..|es| - 1]).value, es[|es| - 1]);
    }
  }

  /** A round this process settled was paid: some process read a successful, broadcast
      operation with this txid, under the one id the wallet ever issued for the round. */
  lemma WalletSettledMeansPaid(entries: seq<RecordedEntry>, es: seq<Event>)
    requires Play(entries, es).Some? && Play(entries, es).value.round.settlement == Some(Wallet)
    ensures var w := Play(entries, es).value;
            && w.round.txid.Some? && w.round.operationId.Some?
            && w.issued == [w.round.operationId.value]
            && SawPaid(w, w.round.operationId.value, w.round.txid.value)
  {
    PlayKeepsInv(entries, es);
    PlayKeepsEvidence(entries, es);
  }

  // ---- sent is final -------------------------------------------------------

  /** The wallet does not change its mind: every final status it reports for an operation is the same. */
  ghost predicate StableOutcomes(observed: seq<(string, Status)>) {
    forall i, j | 0 <= i < |observed| && 0 <= j < |observed| && observed[i].0 == observed[j].0
                  && Terminal(observed[i].1) && Terminal(observed[j].1) :: observed[i].1 == observed[j].1
  }

  lemma StableAgree(w: World, op: string, a: Status, b: Status)
    requires StableOutcomes(w.observed) && Saw(w, op, a) && Saw(w, op, b) && Terminal(a) && Terminal(b)
    ensures a == b
  {
    var i :| 0 <= i < |w.observed| && w.observed[i] == (op, a);
    var j :| 0 <= j < |w.observed| && w.observed[j] == (op, b);
  }

  /** No process is left that could undo or redo a settled round. */
  lemma NoFailureAfterPaid(w: World, p: nat)
    requires Inv(w) && Evidenced(w) && StableOutcomes(w.observed) && p in w.procs
    requires w.round.dispatchState == Sent && w.round.settlement.Some?
    ensures !w.procs[p].CallThrew? && !w.procs[p].Failing? && !w.procs[p].ResumeFailing?
    ensures w.procs[p].Completing? || w.procs[p].ResumeCompleting? ==>
      w.round.settlement == Some(Wallet) && w.round.txid == Some(w.procs[p].txid)
  {
    var proc := w.procs[p];
    assert Knows(proc, w.round, w.calls, w.issued) && Evidence(w, proc);
    assert Unclaimed(w.round) ==> w.issued == [];
    if w.round.settlement == Some(Wallet) {
      var op := w.round.operationId.value;
      var paid :| Saw(w, op, paid) && Paid(paid) && paid.txid == w.round.txid;
      if proc.Failing? || proc.ResumeFailing? {
        var lost :| Saw(w, proc.op, lost) && Terminal(lost) && !Paid(lost);
        StableAgree(w, op, paid, lost);
        assert false;
      } else if proc.Completing? || proc.ResumeCompleting? {
        var seen :| Saw(w, proc.op, seen) && Paid(seen) && seen.txid == Some(proc.txid);
        StableAgree(w, op, paid, seen);
      }
    } else {
      assert w.round.settlement.value.External?;
    }
  }

  predicate Settled(r: Round) {
    r.dispatchState == Sent && r.settlement.Some?
  }

  lemma SettledStays(w: World, e: Event)
    requires Inv(w) && Evidenced(w) && StableOutcomes(w.observed) && Enabled(w, e)
    requires Settled(w.round)
    ensures var r := Step(w, e).round;
            Settled(r) && r.txid == w.round.txid && r.settlement == w.round.settlement
  {
    hide PlanSend, Evidenced, StableOutcomes;
    if e.Complete? || e.Fail? {
      NoFailureAfterPaid(w, e.p);
    }
  }

  /** A sent round always says by which route. */
  lemma {:induction false} SentSaysHow(entries: seq<RecordedEntry>, es: seq<Event>)
    requires Play(entries, es).Some?
    ensures Play(entries, es).value.round.dispatchState == Sent ==> Settled(Play(entries, es).value.round)
  {
    if es != [] {
      hide PlanSend;
      SentSaysHow(entries, es[..|es| - 1]);
    }
  }

  lemma StableBefore(w: World, e: Event)
    requires Enabled(w, e) && StableOutcomes(Step(w, e).observed)
    ensures StableOutcomes(w.observed)
  {
    StepObserves(w, e);
    hide Step;
    assert forall i :: 0 <= i < |w.observed| ==> w.observed[i] == Step(w, e).observed[i];
  }

  /** Once a round is sent it stays sent, by the same route and with the same txid, provided
      the wallet's final statuses do not contradict each other. */
  lemma {:induction false} SentIsFinal(entries: seq<RecordedEntry>, es: seq<Event>, n: nat)
    requires n <= |es| && Play(entries, es).Some? && StableOutcomes(Play(entries, es).value.observed)
    ensures Play(entries, es[..n]).Some?
    ensures var r, now := Play(entries, es[..n]).value.round, Play(entries, es).value.round;
            r.dispatchState == Sent ==>
              now.dispatchState == Sent && now.txid == r.txid && now.settlement == r.settlement
  {
    if n == |es| {
      assert es[..n] == es;
    } else {
      var init := es[..|es| - 1];
      var w, e := Play(entries, init).value, es[|es| - 1];
      assert init[..n] == es[..n];
      StableBefore(w, e);
      SentIsFinal(entries, init, n);
      hide Step, Inv, Evidenced, StableOutcomes;
      PlayKeepsInv(entries, init);
      PlayKeepsEvidence(entries, init);
      SentSaysHow(entries, init);
      if w.round.dispatchState == Sent {
        SettledStays(w, e);
      }
    }
  }

  /** The first anchor is the only one: it was written on a sent round and stays. */
  lemma {:induction false} AnchorIsFinal(entries: seq<RecordedEntry>, es: seq<Event>, n: nat)
    requires n <= |es| && Play(entries, es).Some?
    ensures Play(entries, es[..n]).Some?
    ensures var before, now := Play(entries, es[..n]).value.round, Play(entries, es).value.round;
            && (before.anchorSignature.Some? ==> now.anchorSignature == before.anchorSignature)
            && (before.anchorSignature.None? && now.anchorSignature.Some? ==>
                  exists i :: n <= i < |es| && es[i] == Anchor(now.anchorSignature.value)
                              && Play(entries, es[..i]).Some?
                              && Play(entries, es[..i]).value.round.dispatchState == Sent)
  {
    if n == |es| {
      assert es[..n] == es;
    } else {
      var m := |es| - 1;
      assert es[..m][..n] == es[..n];
      AnchorIsFinal(entries, es[..m], n);
      hide PlanSend, Play;
      StepAnchors(Play(entries, es[..m]).value, es[m]);
      PlayLast(entries, es);
      if Play(entries, es[..m]).value.round.anchorSignature.Some?
         && Play(entries, es[..n]).value.round.anchorSignature.None? {
        var i :| n <= i < m && es[..m][i] == Anchor(Play(entries, es).value.round.anchorSignature.value)
                 && Play(entries, es[..m][..i]).Some?
                 && Play(entries, es[..m][..i]).value.round.dispatchState == Sent;
        assert es[..m][..i] == es[..i] && es[..m][i] == es[i];
      }
    }
  }

  lemma PlayLast(entries: seq<RecordedEntry>, es: seq<Event>)
    requires es != [] && Play(entries, es).Some?
    ensures var before := Play(entries, es[..|es| - 1]);
            before.Some? && Enabled(before.value, es[|es| - 1])
            && Play(entries, es).value == Step(before.value, es[|es| - 1])
  {
  }

  lemma StepAnchors(w: World, e: Event)
    requires Enabled(w, e)
    ensures var r := Step(w, e).round;
            && (w.round.anchorSignature.Some? ==> r.anchorSignature == w.round.anchorSignature)
            && (r.anchorSignature != w.round.anchorSignature ==>
                  w.round.dispatchState == Sent && r.anchorSignature.Some? && e == Anchor(r.anchorSignature.value))
  {
    hide PlanSend;
  }

  lemma Extend(entries: seq<RecordedEntry>, es: seq<Event>, e: Event)
    requires Play(entries, es).Some? && Enabled(Play(entries, es).value, e)
    ensures Play(entries, es + [e]) == Some(Step(Play(entries, es).value, e))
  {
    assert (es + [e])[..|es + [e]| - 1] == es;
  }

  /** A sender holds the round's operation while a resume of it is under way. */
  lemma SenderAndResumer(entries: seq<RecordedEntry>, op: string) returns (es: seq<Event>)
    requires Recipients(entries) != []
    ensures Play(entries, es).Some?
    ensures var w := Play(entries, es).value;
            w.procs == map[0 := Polling(op), 1 := Resuming(op)] && w.round.dispatchState == Sending
  {
    hide Recipients, TotalZat;
    var plan := SendPlan("treasury", Recipients(entries), TotalZat(entries));
    var round := Start(entries).round;
    Extend(entries, [], LoadForSend(0, "treasury"));
    es := [] + [LoadForSend(0, "treasury")];
    assert Play(entries, es) == Some(World(round, map[0 := Planning(plan)], [], [], []));
    Extend(entries, es, Begin(0));
    es := es + [Begin(0)];
    var claimed: map<nat, Process> := map[0 := Planning(plan)];
    assert claimed[0 := Claimed(plan)] == map[0 := Claimed(plan)];
    assert Play(entries, es) == Some(World(AfterBegin(round, "treasury"), map[0 := Claimed(plan)], [], [], []));
    Extend(entries, es, SendManyReturns(0, op));
    es := es + [SendManyReturns(0, op)];
    Extend(entries, es, RecordOperation(0));
    es := es + [RecordOperation(0)];
    Extend(entries, es, LoadForResume(1));
    es := es + [LoadForResume(1)];
  }

  /** The proviso is needed: a wallet that reports an operation paid and later reports it
      failed takes a sent round back to failed, through a resume that was already under way. */
  lemma UnstableOutcomeUndoesSent(entries: seq<RecordedEntry>) returns (es: seq<Event>, n: nat)
    requires Recipients(entries) != []
    ensures n <= |es| && Play(entries, es[..n]).Some? && Play(entries, es).Some?
    ensures Play(entries, es[..n]).value.round.dispatchState == Sent
    ensures Play(entries, es).value.round.dispatchState == Failed
  {
    hide Recipients, TotalZat, Play;
    es := SenderAndResumer(entries, "op");
    var paid, lost := Poll(0, Status(Success, Some("txid"), true)), Poll(1, Status(OperationFailed, None, false));
    Extend(entries, es, paid);
    Extend(entries, es + [paid], Complete(0));
    var sent := es + [paid] + [Complete(0)];
    Extend(entries, sent, lost);
    Extend(entries, sent + [lost], Fail(1));
    es, n := sent + [lost] + [Fail(1)], |sent|;
    assert es[..n] == sent;
  }

  // ---- exactly when a sent round can be undone -----------------------------------------

  /** The process is still reading statuses, or has read that the operation was lost. */
  predicate CouldFail(proc: Process) {
    proc.Polling? || proc.Resuming? || proc.Failing? || proc.ResumeFailing?
  }

  ghost predicate SomeCouldFail(w: World) {
    exists p :: p in w.procs && CouldFail(w.procs[p])
  }

  /** Nobody holds an operation the row already names. */
  ghost predicate Unwritten(w: World) {
    forall p :: p in w.procs && w.procs[p].GotOperation? ==> w.round.operationId.None?
  }

  lemma StepKeepsUnwritten(w: World, e: Event)
    requires Inv(w) && Unwritten(w) && Enabled(w, e)
    ensures Unwritten(Step(w, e))
  {
    hide PlanSend, AsRecorded;
    if e.SendManyReturns? {
      assert Knows(w.procs[e.p], w.round, w.calls, w.issued);
    }
    var v := Step(w, e);
    forall q | q in v.procs && v.procs[q].GotOperation?
      ensures v.round.operationId.None?
    {
      if e.RecordOperation? {
        HolderIsAlone(w, e.p);
      }
    }
  }

  lemma {:induction false} PlayKeepsUnwritten(entries: seq<RecordedEntry>, es: seq<Event>)
    requires Play(entries, es).Some?
    ensures Unwritten(Play(entries, es).value)
  {
    if es != [] {
      hide Step, Inv, Unwritten;
      PlayKeepsInv(entries, es[..|es| - 1]);
      PlayKeepsUnwritten(entries, es[..|es| - 1]);
      StepKeepsUnwritten(Play(entries, es[..|es| - 1]).value, es[|es| - 1]);
    } else {
      assert Unwritten(Start(entries));
    }
  }

  /** On a settled round nobody is about to call the wallet, has just called it, or was refused by it. */
  lemma NoneBeforeRecording(w: World, p: nat)
    requires Inv(w) && Evidenced(w) && Unwritten(w) && Settled(w.round) && p in w.procs
    ensures !w.procs[p].Claimed? && !w.procs[p].GotOperation? && !w.procs[p].CallThrew?
  {
    hide AsRecorded, Evidence, SawPaid, OneHolder;
    assert Knows(w.procs[p], w.round, w.calls, w.issued);
    if w.round.settlement != Some(Wallet) {
      assert w.round.settlement.value.External?;
    }
  }

  lemma SafeStaysSent(w: World, e: Event)
    requires Inv(w) && Evidenced(w) && Unwritten(w) && Enabled(w, e)
    requires Settled(w.round) && !SomeCouldFail(w)
    ensures Settled(Step(w, e).round) && !SomeCouldFail(Step(w, e))
  {
    hide Inv, Evidenced, Unwritten, PlanSend;
    if !e.Anchor? && e.p in w.procs {
      NoneBeforeRecording(w, e.p);
    }
  }

  lemma {:induction false} SafeForGood(entries: seq<RecordedEntry>, before: seq<Event>, es: seq<Event>)
    requires Play(entries, before).Some? && Play(entries, before + es).Some?
    requires Play(entries, before).value.round.dispatchState == Sent && !SomeCouldFail(Play(entries, before).value)
    ensures Settled(Play(entries, before + es).value.round) && !SomeCouldFail(Play(entries, before + es).value)
    decreases |es|
  {
    if es == [] {
      assert before + es == before;
      SentSaysHow(entries, before);
    } else {
      var init := es[..|es| - 1];
      assert (before + es)[..|before + es| - 1] == before + init;
      PlayLast(entries, before + es);
      SafeForGood(entries, before, init);
      PlayKeepsInv(entries, before + init);
      PlayKeepsEvidence(entries, before + init);
      PlayKeepsUnwritten(entries, before + init);
      SafeStaysSent(Play(entries, before + init).value, es[|es| - 1]);
      hide Play, Inv, Evidenced, Unwritten, SomeCouldFail, Settled;
    }
  }

  ghost predicate Undoes(entries: seq<RecordedEntry>, before: seq<Event>, es: seq<Event>) {
    var after := Play(entries, before + es);
    after.Some? && after.value.round.dispatchState != Sent
  }

  /** One look that finds the operation lost, if it has not looked yet, and the row is failed. */
  lemma OneCanUndo(entries: seq<RecordedEntry>, before: seq<Event>, p: nat) returns (es: seq<Event>)
    requires Play(entries, before).Some?
    requires var w := Play(entries, before).value; p in w.procs && CouldFail(w.procs[p])
    ensures Undoes(entries, before, es)
  {
    hide Play;
    var w, lost := Play(entries, before).value, Poll(p, Status(OperationFailed, None, false));
    if w.procs[p].Polling? || w.procs[p].Resuming? {
      Extend(entries, before, lost);
      Extend(entries, before + [lost], Fail(p));
      es := [lost, Fail(p)];
      assert before + es == before + [lost] + [Fail(p)];
    } else {
      Extend(entries, before, Fail(p));
      es := [Fail(p)];
    }
  }

  /** With no proviso on the wallet: a sent round can still be undone if and only if some process is
      still reading statuses of its operation or has read that it was lost. Once none is, nothing that
      happens later undoes it. */
  lemma UndoneIff(entries: seq<RecordedEntry>, before: seq<Event>)
    requires Play(entries, before).Some? && Play(entries, before).value.round.dispatchState == Sent
    ensures (exists es :: Undoes(entries, before, es)) <==> SomeCouldFail(Play(entries, before).value)
  {
    hide Play, CouldFail;
    var w := Play(entries, before).value;
    if SomeCouldFail(w) {
      var p :| p in w.procs && CouldFail(w.procs[p]);
      var es := OneCanUndo(entries, before, p);
    } else {
      forall es | Undoes(entries, before, es)
        ensures false
      {
        SafeForGood(entries, before, es);
      }
    }
  }

  // ---- failed is final too ------------------------------------------------------------------

  /** Why a round is failed: the wallet was asked, and gave no operation or one that was lost. */
  ghost predicate FailedForAReason(w: World) {
    && (w.round.dispatchState == Failed ==> w.calls != [] && (w.issued == [] || SawLost(w, w.issued[0])))
    && forall p :: p in w.procs && w.procs[p].CallThrew? ==> w.calls != []
  }

  lemma LostLasts(w: World, v: World, op: string)
    requires SawLost(w, op) && w.observed <= v.observed
    ensures SawLost(v, op)
  {
    var status :| Saw(w, op, status) && Terminal(status) && !Paid(status);
    assert Saw(v, op, status);
  }

  lemma StepLogs(w: World, e: Event)
    requires Enabled(w, e)
    ensures w.calls <= Step(w, e).calls && w.issued <= Step(w, e).issued
    ensures Step(w, e).issued == w.issued || e.SendManyReturns?
    ensures Step(w, e).round.dispatchState == Failed ==> w.round.dispatchState == Failed || e.Fail?
  {
    hide PlanSend;
  }

  lemma StepFailsForAReason(w: World, e: Event)
    requires Inv(w) && Evidenced(w) && FailedForAReason(w) && Enabled(w, e)
    ensures FailedForAReason(Step(w, e))
  {
    hide SawLost, SawPaid, PlanSend, OneHolder, AsRecorded, SendSees, ResumeSees;
    StepObserves(w, e);
    StepLogs(w, e);
    ThrewWasCalled(w, e);
    var v := Step(w, e);
    if v.round.dispatchState == Failed {
      if e.Fail? {
        assert Knows(w.procs[e.p], w.round, w.calls, w.issued) && Evidence(w, w.procs[e.p]);
      }
      if w.issued != [] {
        LostLasts(w, v, w.issued[0]);
      }
    }
  }

  lemma ThrewWasCalled(w: World, e: Event)
    requires FailedForAReason(w) && Enabled(w, e)
    ensures var v := Step(w, e); forall p :: p in v.procs && v.procs[p].CallThrew? ==> v.calls != []
  {
    hide PlanSend;
  }

  lemma {:induction false} PlayFailsForAReason(entries: seq<RecordedEntry>, es: seq<Event>)
    requires Play(entries, es).Some?
    ensures FailedForAReason(Play(entries, es).value)
  {
    if es != [] {
      hide Step, Inv, Evidenced, FailedForAReason;
      PlayKeepsInv(entries, es[..|es| - 1]);
      PlayKeepsEvidence(entries, es[..|es| - 1]);
      PlayFailsForAReason(entries, es[..|es| - 1]);
      StepFailsForAReason(Play(entries, es[..|es| - 1]).value, es[|es| - 1]);
    }
  }

  lemma FailedStays(w: World, e: Event)
    requires Inv(w) && Evidenced(w) && FailedForAReason(w) && StableOutcomes(w.observed) && Enabled(w, e)
    requires w.round.dispatchState == Failed
    ensures Step(w, e).round.dispatchState == Failed
  {
    hide PlanSend, StableOutcomes, OneHolder, AsRecorded;
    if e.Complete? {
      var proc := w.procs[e.p];
      assert Knows(proc, w.round, w.calls, w.issued) && Evidence(w, proc);
      var paid :| Saw(w, proc.op, paid) && Paid(paid) && paid.txid == Some(proc.txid);
      var lost :| Saw(w, proc.op, lost) && Terminal(lost) && !Paid(lost);
      StableAgree(w, proc.op, paid, lost);
      assert false;
    }
  }

  /** Once a round is failed it stays failed, provided the wallet's final statuses do not contradict each
      other: nothing begins it again, settles it or completes it. */
  lemma {:induction false} FailedIsFinal(entries: seq<RecordedEntry>, es: seq<Event>, n: nat)
    requires n <= |es| && Play(entries, es).Some? && StableOutcomes(Play(entries, es).value.observed)
    ensures Play(entries, es[..n]).Some?
    ensures Play(entries, es[..n]).value.round.dispatchState == Failed ==>
      Play(entries, es).value.round.dispatchState == Failed
  {
    if n == |es| {
      assert es[..n] == es;
    } else {
      var init := es[..|es| - 1];
      var w, e := Play(entries, init).value, es[|es| - 1];
      assert init[..n] == es[..n];
      StableBefore(w, e);
      FailedIsFinal(entries, init, n);
      hide Step, Inv, Evidenced, StableOutcomes, FailedForAReason;
      PlayKeepsInv(entries, init);
      PlayKeepsEvidence(entries, init);
      PlayFailsForAReason(entries, init);
      if w.round.dispatchState == Failed {
        FailedStays(w, e);
      }
    }
  }
}
