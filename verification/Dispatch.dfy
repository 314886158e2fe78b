/** Paying a recorded round: the row's guarded updates, the plan of a send, and the
    steps of the processes that send, resume and settle it. */
module Dispatch {
  import opened Wrappers
  import opened Money
  import Decimal

  datatype DispatchState = Planned | Sending | Sent | Failed

  datatype Settlement = Wallet | External

  datatype RecordedEntry = RecordedEntry(
    accountId: string, payoutAddress: string, amountZat: int, carriedOutZat: int)

  datatype Round = Round(
    dispatchState: DispatchState,
    operationId: Option<string>,
    txid: Option<string>,
    fromAddress: Option<string>,
    settlement: Option<Settlement>,
    anchorSignature: Option<string>,
    entries: seq<RecordedEntry>)

  // ---- the statements on the row -------------------------------------------

  function AfterBegin(r: Round, fromAddress: string): Round {
    if r.dispatchState == Planned
    then r.(dispatchState := Sending, fromAddress := Some(fromAddress)) else r
  }

  function AfterOperation(r: Round, operationId: string): Round {
    r.(operationId := Some(operationId))
  }

  function AfterComplete(r: Round, txid: string): Round {
    r.(dispatchState := Sent, txid := Some(txid), settlement := Some(Wallet))
  }

  function AfterSettle(r: Round, txid: string): Round {
    if r.dispatchState == Planned
    then r.(dispatchState := Sent, settlement := Some(External), txid := Some(txid)) else r
  }

  function AfterAnchor(r: Round, signature: string): Round {
    if r.dispatchState == Sent && r.anchorSignature.None?
    then r.(anchorSignature := Some(signature)) else r
  }

  function AfterFail(r: Round): Round {
    r.(dispatchState := Failed)
  }

  /** The round's row. Each method is one statement, so each is atomic. */
  class Row {
    var round: Round

    constructor (entries: seq<RecordedEntry>)
      ensures round == Round(Planned, None, None, None, None, None, entries)
    {
      round := Round(Planned, None, None, None, None, None, entries);
    }

    method Begin(fromAddress: string) returns (won: bool)
      modifies this
      ensures round == AfterBegin(old(round), fromAddress)
      ensures won == (old(round).dispatchState == Planned)
    {
      won := round.dispatchState == Planned;
      if won {
        round := round.(dispatchState := Sending, fromAddress := Some(fromAddress));
      }
    }

    method RecordOperation(operationId: string)
      modifies this
      ensures round == AfterOperation(old(round), operationId)
    {
      round := round.(operationId := Some(operationId));
    }

    method Complete(txid: string)
      modifies this
      ensures round == AfterComplete(old(round), txid)
    {
      round := round.(dispatchState := Sent, txid := Some(txid), settlement := Some(Wallet));
    }

    method SettleExternally(txid: string) returns (settled: bool)
      modifies this
      ensures round == AfterSettle(old(round), txid)
      ensures settled == (old(round).dispatchState == Planned)
    {
      settled := round.dispatchState == Planned;
      if settled {
        round := round.(dispatchState := Sent, settlement := Some(External), txid := Some(txid));
      }
    }

    method RecordAnchor(signature: string) returns (recorded: bool)
      modifies this
      ensures round == AfterAnchor(old(round), signature)
      ensures recorded == (old(round).dispatchState == Sent && old(round).anchorSignature.None?)
    {
      recorded := round.dispatchState == Sent && round.anchorSignature.None?;
      if recorded {
        round := round.(anchorSignature := Some(signature));
      }
    }

    method Fail()
      modifies this
      ensures round == AfterFail(old(round))
    {
      round := round.(dispatchState := Failed);
    }
  }

  // ---- the plan of a send --------------------------------------------------

  datatype Recipient = Recipient(address: string, amount: string)

  datatype SendPlan = SendPlan(fromAddress: string, recipients: seq<Recipient>, totalZat: int)

  datatype Refusal = NotPlanned | PaysNobody

  /** The entries with something to pay, amounts as decimal text. */
  function Recipients(entries: seq<RecordedEntry>): seq<Recipient> {
    if entries == [] then []
    else if entries[0].amountZat > 0
    then [Recipient(entries[0].payoutAddress, FormatZec(entries[0].amountZat))] + Recipients(entries[1..])
    else Recipients(entries[1..])
  }

  function TotalZat(entries: seq<RecordedEntry>): int {
    if entries == [] then 0
    else entries[0].amountZat + TotalZat(entries[1..])
  }

  function PlanSend(r: Round, fromAddress: string): Result<SendPlan, Refusal> {
    if r.dispatchState != Planned then Err(NotPlanned)
    else if Recipients(r.entries) == [] then Err(PaysNobody)
    else Ok(SendPlan(fromAddress, Recipients(r.entries), TotalZat(r.entries)))
  }

  datatype Payment = Payment(address: string, zat: int)

  /** What the wallet reads from a list of recipients: nothing, if it refuses any amount. */
  function ReadBack(recipients: seq<Recipient>): Option<seq<Payment>> {
    if recipients == [] then Some([])
    else
      var first, rest := ParseZec(recipients[0].amount), ReadBack(recipients[1..]);
      if first.Err? || rest.None? then None
      else Some([Payment(recipients[0].address, first.value)] + rest.value)
  }

  function Owed(entries: seq<RecordedEntry>): seq<Payment> {
    if entries == [] then []
    else if entries[0].amountZat > 0
    then [Payment(entries[0].payoutAddress, entries[0].amountZat)] + Owed(entries[1..])
    else Owed(entries[1..])
  }

  function Sum(payments: seq<Payment>): int {
    if payments == [] then 0 else payments[0].zat + Sum(payments[1..])
  }

  ghost predicate Payable(entries: seq<RecordedEntry>) {
    forall i :: 0 <= i < |entries| ==> 0 <= entries[i].amountZat <= Decimal.MAX_SAFE
  }

  /** What is sent is what was recorded: read back by the wallet, the recipients are exactly
      the entries with something to pay, in order, to the zatoshi, and add up to the total shown. */
  lemma {:induction false} SendIsWhatWasRecorded(entries: seq<RecordedEntry>)
    requires Payable(entries)
    ensures ReadBack(Recipients(entries)) == Some(Owed(entries))
    ensures Sum(Owed(entries)) == TotalZat(entries)
  {
    hide FormatZec, ParseZec;
    if entries != [] {
      SendIsWhatWasRecorded(entries[1..]);
      FormatIsReadBack(entries[0].amountZat);
      if entries[0].amountZat > 0 {
        assert Recipients(entries)[1..] == Recipients(entries[1..]);
        assert Owed(entries)[1..] == Owed(entries[1..]);
      }
    }
  }

  lemma {:induction false} NobodyToPayIff(entries: seq<RecordedEntry>)
    ensures Recipients(entries) == [] <==> forall i :: 0 <= i < |entries| ==> entries[i].amountZat <= 0
  {
    hide FormatZec;
    if entries != [] {
      NobodyToPayIff(entries[1..]);
      assert forall i :: 0 < i < |entries| ==> entries[i] == entries[1..][i - 1];
    }
  }

  /** A send is planned exactly for a round still planned that pays somebody. */
  lemma SendIsPlannedIff(r: Round, fromAddress: string)
    ensures PlanSend(r, fromAddress).Ok? <==>
      r.dispatchState == Planned && exists i :: 0 <= i < |r.entries| && r.entries[i].amountZat > 0
    ensures PlanSend(r, fromAddress).Err? ==>
      (PlanSend(r, fromAddress).error == NotPlanned <==> r.dispatchState != Planned)
  {
    NobodyToPayIff(r.entries);
    hide Recipients, TotalZat;
  }

  // ---- processes and wallet ------------------------------------------------

  datatype Phase = Queued | Executing | Success | OperationFailed | Cancelled

  datatype Status = Status(phase: Phase, txid: Option<string>, broadcast: bool)

  /** Money left: the only status on which a round is marked sent. */
  predicate Paid(status: Status) {
    status.phase == Success && status.txid.Some? && status.broadcast
  }

  predicate Terminal(status: Status) {
    (status.phase == Success && status.txid.Some?)
    || status.phase == OperationFailed || status.phase == Cancelled
  }

  /** Where a process stands between two awaited calls. */
  datatype Process =
    | Planning(plan: SendPlan)
    | Claimed(plan: SendPlan)
    | CallThrew
    | GotOperation(op: string)
    | Polling(op: string)
    | Completing(op: string, txid: string)
    | Failing(op: string)
    | Resuming(op: string)
    | ResumeCompleting(op: string, txid: string)
    | ResumeFailing(op: string)
    | Settling(txid: string)
    | Over

  /** `calls` logs every `z_sendmany`, answered or not; `issued` the operation ids it
      returned; `observed` every status a process read. */
  datatype World = World(
    round: Round,
    procs: map<nat, Process>,
    calls: seq<SendPlan>,
    issued: seq<string>,
    observed: seq<(string, Status)>)

  function Start(entries: seq<RecordedEntry>): World {
    World(Round(Planned, None, None, None, None, None, entries), map[], [], [], [])
  }

  datatype Event =
    | LoadForSend(p: nat, fromAddress: string)
    | Begin(p: nat)
    | SendManyReturns(p: nat, op: string)
    | SendManyThrows(p: nat)
    | RecordOperation(p: nat)
    | Poll(p: nat, status: Status)
    | GiveUp(p: nat)
    | Complete(p: nat)
    | Fail(p: nat)
    | LoadForResume(p: nat)
    | LoadForSettle(p: nat, txid: string)
    | Settle(p: nat)
    | Anchor(signature: string)
    | Crash(p: nat)

  predicate Enabled(w: World, e: Event) {
    match e
    case LoadForSend(p, _) => p !in w.procs
    case LoadForResume(p) => p !in w.procs
    case LoadForSettle(p, _) => p !in w.procs
    case Begin(p) => p in w.procs && w.procs[p].Planning?
    case SendManyReturns(p, _) => p in w.procs && w.procs[p].Claimed?
    case SendManyThrows(p) => p in w.procs && w.procs[p].Claimed?
    case RecordOperation(p) => p in w.procs && w.procs[p].GotOperation?
    case Poll(p, _) => p in w.procs && (w.procs[p].Polling? || w.procs[p].Resuming?)
    case GiveUp(p) => p in w.procs && w.procs[p].Polling?
    case Complete(p) => p in w.procs && (w.procs[p].Completing? || w.procs[p].ResumeCompleting?)
    case Fail(p) => p in w.procs && (w.procs[p].CallThrew? || w.procs[p].Failing? || w.procs[p].ResumeFailing?)
    case Settle(p) => p in w.procs && w.procs[p].Settling?
    case Anchor(_) => true
    case Crash(p) => p in w.procs
  }

  function Goes(w: World, p: nat, to: Process): World {
    w.(procs := w.procs[p := to])
  }

  /** What a sender does with a status. A success that was not broadcast is a failure. */
  function SendSees(op: string, status: Status): Process {
    if status.phase == Success && status.txid.Some? then
      if status.broadcast then Completing(op, status.txid.value) else Failing(op)
    else if status.phase == OperationFailed || status.phase == Cancelled then Failing(op)
    else Polling(op)
  }

  /** What a resume does with a status: it looks once, and leaves the rest alone. */
  function ResumeSees(op: string, status: Status): Process {
    if status.phase == Success && status.txid.Some? && status.broadcast
    then ResumeCompleting(op, status.txid.value)
    else if status.phase == OperationFailed || status.phase == Cancelled then ResumeFailing(op)
    else Over
  }

  function Step(w: World, e: Event): World
    requires Enabled(w, e)
  {
    match e
    case LoadForSend(p, fromAddress) =>
      var plan := PlanSend(w.round, fromAddress);
      Goes(w, p, if plan.Ok? then Planning(plan.value) else Over)
    case Begin(p) =>
      var plan := w.procs[p].plan;
      Goes(w, p, if w.round.dispatchState == Planned then Claimed(plan) else Over)
      .(round := AfterBegin(w.round, plan.fromAddress))
    case SendManyReturns(p, op) =>
      Goes(w, p, GotOperation(op)).(calls := w.calls + [w.procs[p].plan], issued := w.issued + [op])
    case SendManyThrows(p) => Goes(w, p, CallThrew).(calls := w.calls + [w.procs[p].plan])
    case RecordOperation(p) =>
      Goes(w, p, Polling(w.procs[p].op)).(round := AfterOperation(w.round, w.procs[p].op))
    case Poll(p, status) =>
      var op := w.procs[p].op;
      Goes(w, p, if w.procs[p].Polling? then SendSees(op, status) else ResumeSees(op, status))
      .(observed := w.observed + [(op, status)])
    case GiveUp(p) => Goes(w, p, Over)
    case Complete(p) => Goes(w, p, Over).(round := AfterComplete(w.round, w.procs[p].txid))
    case Fail(p) => Goes(w, p, Over).(round := AfterFail(w.round))
    case LoadForResume(p) =>
      Goes(w, p, if w.round.dispatchState == Sending && w.round.operationId.Some?
                 then Resuming(w.round.operationId.value) else Over)
    case LoadForSettle(p, txid) =>
      Goes(w, p, if w.round.dispatchState == Planned then Settling(txid) else Over)
    case Settle(p) => Goes(w, p, Over).(round := AfterSettle(w.round, w.procs[p].txid))
    case Anchor(signature) => w.(round := AfterAnchor(w.round, signature))
    case Crash(p) => Goes(w, p, Over)
  }

  /** An interleaving of any processes, each able to crash between any two steps. */
  function Play(entries: seq<RecordedEntry>, es: seq<Event>): Option<World> {
    if es == [] then Some(Start(entries))
    else
      var before := Play(entries, es[..|es| - 1]);
      if before.Some? && Enabled(before.value, es[|es| - 1])
      then Some(Step(before.value, es[|es| - 1])) else None
  }
}
