/** What becomes of the amounts a ledger records once its rounds are dispatched: a recorded amount is a
    decision, and only a round that is sent carries it out. */
module Disbursement {
  import opened Wrappers
  import opened Ledger
  import opened LedgerProperties
  import D = Dispatch
  import DP = DispatchProperties

  /** The entries of a round as the dispatch reads them. */
  function Rows(entries: seq<PlannedEntry>): (rows: seq<D.RecordedEntry>)
    ensures |rows| == |entries|
    ensures forall i :: 0 <= i < |entries| ==>
      rows[i] == D.RecordedEntry(entries[i].accountId, entries[i].payoutAddress, entries[i].amountZat,
                                 entries[i].carriedOutZat)
  {
    if entries == [] then []
    else
      var e := entries[0];
      [D.RecordedEntry(e.accountId, e.payoutAddress, e.amountZat, e.carriedOutZat)] + Rows(entries[1..])
  }

  type DispatchRun = seq<D.Event>

  /** Each round on record has been through a run of its own dispatch. */
  ghost predicate Dispatched(rounds: seq<PlannedRound>, runs: seq<DispatchRun>) {
    |runs| == |rounds| && forall i :: 0 <= i < |rounds| ==> D.Play(Rows(rounds[i].entries), runs[i]).Some?
  }

  predicate IsIn(r: PlannedRound, run: DispatchRun, state: D.DispatchState) {
    var world := D.Play(Rows(r.entries), run);
    world.Some? && world.value.round.dispatchState == state
  }

  function AmountIn(r: PlannedRound, id: string): int {
    var own := EntryOf(r.entries, id);
    if own.Some? then own.value.amountZat else 0
  }

  /** The account's share of the round, less its fee. */
  function NetIn(r: PlannedRound, id: string): int {
    var own := EntryOf(r.entries, id);
    if own.Some? then own.value.grossZat - own.value.feeZat else 0
  }

  function Net(rounds: seq<PlannedRound>, id: string): int {
    if rounds == [] then 0 else Net(rounds[..|rounds| - 1], id) + NetIn(rounds[|rounds| - 1], id)
  }

  /** The amounts recorded for the account in the rounds whose dispatch has come to this state. */
  function Amounts(rounds: seq<PlannedRound>, runs: seq<DispatchRun>, id: string, state: D.DispatchState): int
    requires |runs| == |rounds|
  {
    if rounds == [] then 0
    else
      var n := |rounds| - 1;
      Amounts(rounds[..n], runs[..n], id, state)
      + (if IsIn(rounds[n], runs[n], state) then AmountIn(rounds[n], id) else 0)
  }

  lemma OneRoundCounts(r: PlannedRound, id: string)
    requires Balanced(r)
    ensures NetIn(r, id) == AmountIn(r, id) + CarryIn(r.entries, id)
    ensures AmountIn(r, id) >= 0
  {
    hide SumGross, SumFees, SumPaid, SumOut, SumIn;
    CarryInIsOneEntry(r.entries, id);
    if EntryOf(r.entries, id).Some? {
      assert EntryBalances(EntryOf(r.entries, id).value);
    }
  }

  /** Whatever was planned on whatever, and however far each dispatch has got: what an account earned,
      net of fees, is what it was sent, what failed, what is still to be sent, and what it is owed. */
  lemma {:induction false} EarnedIsAccountedFor(rounds: seq<PlannedRound>, runs: seq<DispatchRun>, id: string)
    requires AllBalanced(rounds) && Dispatched(rounds, runs)
    ensures Net(rounds, id)
         == Amounts(rounds, runs, id, D.Sent) + Amounts(rounds, runs, id, D.Failed)
          + Amounts(rounds, runs, id, D.Planned) + Amounts(rounds, runs, id, D.Sending) + Carry(rounds, id)
  {
    hide Balanced, NetIn, AmountIn, CarryIn;
    if rounds != [] {
      var n := |rounds| - 1;
      EarnedIsAccountedFor(rounds[..n], runs[..n], id);
      assert Balanced(rounds[n]);
      OneRoundCounts(rounds[n], id);
      InOneState(rounds[n], runs[n]);
    }
  }

  lemma InOneState(r: PlannedRound, run: DispatchRun)
    requires D.Play(Rows(r.entries), run).Some?
    ensures exists state :: IsIn(r, run, state) && forall other :: IsIn(r, run, other) ==> other == state
  {
    assert IsIn(r, run, D.Play(Rows(r.entries), run).value.round.dispatchState);
  }

  // ---- what a later time leaves as it is -------------------------------------------------

  /** More rounds have been recorded and the dispatch of each earlier one has gone on. */
  ghost predicate Later(rounds: seq<PlannedRound>, runs: seq<DispatchRun>,
                        after: seq<PlannedRound>, on: seq<DispatchRun>) {
    && rounds <= after && |runs| == |rounds| && |on| == |after|
    && forall i :: 0 <= i < |rounds| ==> runs[i] <= on[i]
  }

  /** The wallet contradicted itself about none of them. */
  ghost predicate AllStable(rounds: seq<PlannedRound>, runs: seq<DispatchRun>)
    requires Dispatched(rounds, runs)
  {
    forall i :: 0 <= i < |rounds| ==> DP.StableOutcomes(D.Play(Rows(rounds[i].entries), runs[i]).value.observed)
  }

  lemma EndedForGood(r: PlannedRound, run: DispatchRun, on: DispatchRun, state: D.DispatchState)
    requires run <= on && (state == D.Sent || state == D.Failed) && IsIn(r, run, state)
    requires D.Play(Rows(r.entries), on).Some?
    requires DP.StableOutcomes(D.Play(Rows(r.entries), on).value.observed)
    ensures IsIn(r, on, state)
  {
    assert on[..|run|] == run;
    if state == D.Sent {
      DP.SentIsFinal(Rows(r.entries), on, |run|);
    } else {
      DP.FailedIsFinal(Rows(r.entries), on, |run|);
    }
  }

  lemma {:induction false} AmountsGrow(
    rounds: seq<PlannedRound>, runs: seq<DispatchRun>, after: seq<PlannedRound>, on: seq<DispatchRun>,
    id: string, state: D.DispatchState)
    requires AllBalanced(after) && rounds <= after && |runs| == |rounds| && |on| == |after|
    requires forall i :: 0 <= i < |rounds| && IsIn(rounds[i], runs[i], state) ==> IsIn(after[i], on[i], state)
    ensures Amounts(rounds, runs, id, state) <= Amounts(after, on, id, state)
    decreases |after|
  {
    hide Balanced, AmountIn, IsIn;
    if after != [] {
      var n := |after| - 1;
      assert Balanced(after[n]);
      OneRoundCounts(after[n], id);
      if |rounds| == |after| {
        AmountsGrow(rounds[..n], runs[..n], after[..n], on[..n], id, state);
      } else {
        AmountsGrow(rounds, runs, after[..n], on[..n], id, state);
      }
    }
  }

  /** What an account was sent it keeps, and what failed is never sent, carried or paid again: whatever is
      recorded and dispatched later, each such round stays as it is, and both sums only grow. */
  lemma SentAndFailedStay(
    rounds: seq<PlannedRound>, runs: seq<DispatchRun>, after: seq<PlannedRound>, on: seq<DispatchRun>,
    id: string, state: D.DispatchState)
    requires AllBalanced(after) && Dispatched(after, on) && AllStable(after, on)
    requires Later(rounds, runs, after, on) && (state == D.Sent || state == D.Failed)
    ensures forall i :: 0 <= i < |rounds| && IsIn(rounds[i], runs[i], state) ==> IsIn(after[i], on[i], state)
    ensures Amounts(rounds, runs, id, state) <= Amounts(after, on, id, state)
  {
    hide Balanced, Amounts, IsIn, DP.StableOutcomes;
    forall i | 0 <= i < |rounds| && IsIn(rounds[i], runs[i], state)
      ensures IsIn(after[i], on[i], state)
    {
      EndedForGood(rounds[i], runs[i], on[i], state);
    }
    AmountsGrow(rounds, runs, after, on, id, state);
  }

  /** Once every round has ended, an account has been sent all it earned but what it is still owed if and
      only if no round that paid it something failed. */
  lemma AllSentIffNoneFailed(rounds: seq<PlannedRound>, runs: seq<DispatchRun>, id: string)
    requires AllBalanced(rounds) && Dispatched(rounds, runs)
    requires forall i :: 0 <= i < |rounds| ==> IsIn(rounds[i], runs[i], D.Sent) || IsIn(rounds[i], runs[i], D.Failed)
    ensures Amounts(rounds, runs, id, D.Sent) == Net(rounds, id) - Carry(rounds, id)
       <==> forall i :: 0 <= i < |rounds| && IsIn(rounds[i], runs[i], D.Failed) ==> AmountIn(rounds[i], id) == 0
  {
    hide Balanced, AmountIn, IsIn, Net, Carry;
    EarnedIsAccountedFor(rounds, runs, id);
    NothingIn(rounds, runs, id, D.Planned);
    NothingIn(rounds, runs, id, D.Sending);
    ZeroIffAllZero(rounds, runs, id, D.Failed);
  }

  lemma {:induction false} NothingIn(
    rounds: seq<PlannedRound>, runs: seq<DispatchRun>, id: string, state: D.DispatchState)
    requires Dispatched(rounds, runs) && state != D.Sent && state != D.Failed
    requires forall i :: 0 <= i < |rounds| ==> IsIn(rounds[i], runs[i], D.Sent) || IsIn(rounds[i], runs[i], D.Failed)
    ensures Amounts(rounds, runs, id, state) == 0
  {
    if rounds != [] {
      var n := |rounds| - 1;
      NothingIn(rounds[..n], runs[..n], id, state);
      assert IsIn(rounds[n], runs[n], D.Sent) || IsIn(rounds[n], runs[n], D.Failed);
    }
  }

  lemma {:induction false} ZeroIffAllZero(
    rounds: seq<PlannedRound>, runs: seq<DispatchRun>, id: string, state: D.DispatchState)
    requires AllBalanced(rounds) && |runs| == |rounds|
    ensures Amounts(rounds, runs, id, state) >= 0
    ensures Amounts(rounds, runs, id, state) == 0
       <==> forall i :: 0 <= i < |rounds| && IsIn(rounds[i], runs[i], state) ==> AmountIn(rounds[i], id) == 0
  {
    hide Balanced, AmountIn, IsIn;
    if rounds != [] {
      var n := |rounds| - 1;
      ZeroIffAllZero(rounds[..n], runs[..n], id, state);
      assert Balanced(rounds[n]);
      OneRoundCounts(rounds[n], id);
      assert forall i :: 0 <= i < n ==> rounds[..n][i] == rounds[i] && runs[..n][i] == runs[i];
    }
  }

  /** Any round that pays somebody can fail for good at the first try: the wallet refuses the request. */
  lemma AnyRoundCanFail(r: PlannedRound) returns (run: DispatchRun)
    requires D.Recipients(Rows(r.entries)) != []
    ensures IsIn(r, run, D.Failed) && DP.StableOutcomes(D.Play(Rows(r.entries), run).value.observed)
  {
    hide D.Recipients, D.TotalZat;
    var rows := Rows(r.entries);
    var load, begin, refused, fail := D.LoadForSend(0, "treasury"), D.Begin(0), D.SendManyThrows(0), D.Fail(0);
    assert D.Play(rows, []) == Some(D.Start(rows));
    DP.Extend(rows, [], load);
    DP.Extend(rows, [] + [load], begin);
    DP.Extend(rows, [] + [load] + [begin], refused);
    DP.Extend(rows, [] + [load] + [begin] + [refused], fail);
    run := [] + [load] + [begin] + [refused] + [fail];
  }

  // ---- what sent means --------------------------------------------------------------------

  lemma {:induction false} OwedHas(entries: seq<D.RecordedEntry>, e: D.RecordedEntry)
    requires e in entries && e.amountZat > 0
    ensures D.Payment(e.payoutAddress, e.amountZat) in D.Owed(entries)
  {
    if entries[0] != e {
      OwedHas(entries[1..], e);
    }
  }

  lemma WalletWasAsked(rows: seq<D.RecordedEntry>, run: DispatchRun)
    requires D.Play(rows, run).Some? && D.Play(rows, run).value.round.settlement == Some(D.Wallet)
    ensures var w := D.Play(rows, run).value; |w.calls| == 1 && w.calls[0].recipients == D.Recipients(rows)
  {
    hide D.Play, DP.SawPaid, DP.Knows, DP.OneHolder;
    DP.WalletSettledMeansPaid(rows, run);
    DP.PlayKeepsInv(rows, run);
    DP.AtMostOnePayment(rows, run);
  }

  /** A sent round was settled by hand, or the wallet was asked once, and what it read from that request
      pays each recorded amount to the address recorded with it. */
  lemma SentMeansAsked(r: PlannedRound, run: DispatchRun, e: PlannedEntry)
    requires IsIn(r, run, D.Sent) && e in r.entries && e.amountZat > 0 && D.Payable(Rows(r.entries))
    ensures var w := D.Play(Rows(r.entries), run).value;
            || w.round.settlement == Some(D.External)
            || (&& |w.calls| == 1
                && var payments := D.ReadBack(w.calls[0].recipients);
                   payments.Some? && D.Payment(e.payoutAddress, e.amountZat) in payments.value)
  {
    hide D.Play, D.ReadBack, D.Recipients, D.TotalZat, D.Owed, D.Payable, DP.SawPaid;
    var rows := Rows(r.entries);
    DP.SentSaysHow(rows, run);
    if D.Play(rows, run).value.round.settlement == Some(D.Wallet) {
      WalletWasAsked(rows, run);
      D.SendIsWhatWasRecorded(rows);
      var i: nat :| i < |r.entries| && r.entries[i] == e;
      OwedHas(rows, rows[i]);
    } else {
      assert D.Play(rows, run).value.round.settlement.value.External?;
    }
  }
}
