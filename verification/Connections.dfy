/** One miner's socket and the sessions it is given: one, unless the chunk in which the first ends goes on. */
module Connections {
  import opened Wrappers
  import opened OrderedMap
  import opened Shares
  import opened Stratum
  import S = Session
  import SessionFate
  import SP = SessionProperties

  /** A line taken out of a chunk; None if it does not decode. The rest is what handling it may ask. */
  datatype Line = Line(message: Option<Message>, nowMs: int, resolved: ParsedLogin)

  /** Every session this socket was given, in order; `held` if the last is the one in the table of sessions
      by connection, and `closed` once the disconnect was reported, which happens once. */
  datatype State = State(closed: bool, held: bool, sessions: seq<S.State>)

  const OPENED := State(false, false, [])

  /** The disconnect: the session held, if any, is dropped from the table and ended. */
  function AfterFinish(c: State): State {
    if c.closed then c
    else if !c.held || c.sessions == [] then c.(closed := true)
    else
      var n := |c.sessions| - 1;
      State(true, false, c.sessions[n := S.AfterEnd(c.sessions[n])])
  }

  /** One step of a session: if it ends there, it closes the miner's side. */
  function AfterSession(o: S.Options, c: State, i: nat, e: SP.Event): State
    requires i < |c.sessions|
  {
    var t := SP.Step(o, c.sessions[i], e);
    var after := c.(sessions := c.sessions[i := t]);
    if t.ended && !c.sessions[i].ended then AfterFinish(after) else after
  }

  /** The session held, or a new one. */
  function SessionFor(c: State): State {
    if c.held && c.sessions != [] then c else c.(held := true, sessions := c.sessions + [S.INITIAL])
  }

  function AfterLine(o: S.Options, c: State, line: Line): State {
    if line.message.None? then c
    else
      var d := SessionFor(c);
      AfterSession(o, d, |d.sessions| - 1, SP.FromMiner(line.message.value, line.nowMs, line.resolved))
  }

  /** The loop over a chunk goes on to its end, whatever became of the socket meanwhile. */
  function AfterLines(o: S.Options, c: State, lines: seq<Line>): State {
    if lines == [] then c else AfterLine(o, AfterLines(o, c, lines[..|lines| - 1]), lines[|lines| - 1])
  }

  /** The connection as the sources run it, its sessions taken as their states. */
  class Connection {
    const options: S.Options
    var closed: bool
    var held: bool
    var sessions: seq<S.State>

    ghost function Model(): State
      reads this
    {
      State(closed, held, sessions)
    }

    constructor (options: S.Options)
      ensures this.options == options && Model() == OPENED
    {
      this.options, closed, held, sessions := options, false, false, [];
    }

    method Finish()
      modifies this
      ensures Model() == AfterFinish(old(Model()))
    {
      if closed {
        return;
      }
      closed := true;
      if held && sessions != [] {
        held := false;
        sessions := sessions[|sessions| - 1 := S.AfterEnd(sessions[|sessions| - 1])];
      }
    }

    method OnMessage(message: Message, nowMs: int, resolved: ParsedLogin)
      modifies this
      ensures Model() == AfterLine(options, old(Model()), Line(Some(message), nowMs, resolved))
    {
      if !held || sessions == [] {
        held, sessions := true, sessions + [S.INITIAL];
      }
      var n := |sessions| - 1;
      var before := sessions[n];
      sessions := sessions[n := SP.Step(options, before, SP.FromMiner(message, nowMs, resolved))];
      if sessions[n].ended && !before.ended {
        Finish();
      }
    }

    method OnData(lines: seq<Line>)
      modifies this
      ensures Model() == AfterLines(options, old(Model()), lines)
    {
      hide AfterLine;
      for i := 0 to |lines|
        invariant Model() == AfterLines(options, old(Model()), lines[..i])
      {
        assert lines[..i + 1][..i] == lines[..i];
        if lines[i].message.Some? {
          OnMessage(lines[i].message.value, lines[i].nowMs, lines[i].resolved);
          assert lines[i] == Line(Some(lines[i].message.value), lines[i].nowMs, lines[i].resolved);
        } else {
          NotDecoded(options, Model(), lines[i]);
        }
      }
      assert lines[..|lines|] == lines;
    }
  }

  lemma NotDecoded(o: S.Options, c: State, line: Line)
    requires line.message.None?
    ensures AfterLine(o, c, line) == c
  {}

  // ---- runs ---------------------------------------------------------------------

  /** A chunk read, something from the upstream side of a session, and any other end of the socket: idle,
      too long a line, an error, the peer gone. */
  datatype Event =
    | Chunk(lines: seq<Line>)
    | Upstream(i: nat, e: SP.Event)
    | Disconnect

  /** A closed socket is destroyed and reads nothing more. */
  predicate Enabled(c: State, e: Event) {
    match e
    case Chunk(_) => !c.closed
    case Upstream(i, u) => i < |c.sessions| && !u.FromMiner?
    case Disconnect => true
  }

  function After(o: S.Options, c: State, e: Event): State
    requires Enabled(c, e)
  {
    match e
    case Chunk(lines) => AfterLines(o, c, lines)
    case Upstream(i, u) => AfterSession(o, c, i, u)
    case Disconnect => AfterFinish(c)
  }

  function Play(o: S.Options, run: seq<Event>): Option<State> {
    if run == [] then Some(OPENED)
    else
      var before := Play(o, run[..|run| - 1]);
      if before.Some? && Enabled(before.value, run[|run| - 1])
      then Some(After(o, before.value, run[|run| - 1])) else None
  }

  // ---- how many sessions a socket is given -------------------------------------------

  /** Open, the socket has at most one session, held and going on. Closed, its first has ended; a second is
      held for good. */
  predicate Inv(c: State) {
    if !c.closed then
      |c.sessions| <= 1 && (c.held <==> |c.sessions| == 1) && (c.held ==> !c.sessions[0].ended)
    else
      |c.sessions| <= 2 && (c.held <==> |c.sessions| == 2) && (|c.sessions| > 0 ==> c.sessions[0].ended)
  }

  lemma SessionKeepsInv(o: S.Options, c: State, i: nat, e: SP.Event)
    requires Inv(c) && i < |c.sessions|
    ensures Inv(AfterSession(o, c, i, e)) && |AfterSession(o, c, i, e).sessions| == |c.sessions|
    ensures c.closed ==> AfterSession(o, c, i, e).closed
  {
    hide SP.Step;
    if c.sessions[i].ended {
      SessionFate.StaysEnded(o, c.sessions[i], e);
    }
  }

  lemma LineKeepsInv(o: S.Options, c: State, line: Line)
    requires Inv(c) && (c.closed ==> c.sessions != [])
    ensures var d := AfterLine(o, c, line);
            && Inv(d) && (c.closed ==> d.closed) && (d.closed ==> d.sessions != [])
            && (|d.sessions| == 2 <==> |c.sessions| == 2 || (c.closed && line.message.Some?))
  {
    hide SP.Step;
    if line.message.Some? {
      var d := SessionFor(c);
      SessionKeepsInv(o, d, |d.sessions| - 1, SP.FromMiner(line.message.value, line.nowMs, line.resolved));
    }
  }

  /** A line that decodes is left in the chunk when the socket has been closed by one before it. */
  ghost predicate LineLeft(o: S.Options, c: State, lines: seq<Line>) {
    exists i :: 0 <= i < |lines| && lines[i].message.Some? && AfterLines(o, c, lines[..i]).closed
  }

  lemma {:induction false} LinesKeepInv(o: S.Options, c: State, lines: seq<Line>)
    requires Inv(c) && !c.closed
    ensures var d := AfterLines(o, c, lines); Inv(d) && (d.closed ==> d.sessions != [])
    ensures |AfterLines(o, c, lines).sessions| == 2 <==> LineLeft(o, c, lines)
  {
    hide AfterLine;
    if lines != [] {
      var n := |lines| - 1;
      LinesKeepInv(o, c, lines[..n]);
      LineKeepsInv(o, AfterLines(o, c, lines[..n]), lines[n]);
      LeftBefore(o, c, lines);
    }
  }

  lemma LeftBefore(o: S.Options, c: State, lines: seq<Line>)
    requires lines != []
    ensures var n := |lines| - 1;
            LineLeft(o, c, lines) <==>
              LineLeft(o, c, lines[..n]) || (lines[n].message.Some? && AfterLines(o, c, lines[..n]).closed)
  {
    hide AfterLines;
    var n := |lines| - 1;
    forall i | 0 <= i < n
      ensures lines[..n][..i] == lines[..i] && lines[..n][i] == lines[i]
    {
    }
  }

  /** Some chunk of the run left a line after the socket was closed in it. */
  ghost predicate SomeLineLeft(o: S.Options, run: seq<Event>) {
    exists k :: 0 <= k < |run| && LeftAt(o, run, k)
  }

  ghost predicate LeftAt(o: S.Options, run: seq<Event>, k: nat)
    requires k < |run|
  {
    run[k].Chunk? && Play(o, run[..k]).Some? && LineLeft(o, Play(o, run[..k]).value, run[k].lines)
  }

  lemma PlayLast(o: S.Options, run: seq<Event>)
    requires run != [] && Play(o, run).Some?
    ensures var before := Play(o, run[..|run| - 1]);
            before.Some? && Enabled(before.value, run[|run| - 1])
            && Play(o, run).value == After(o, before.value, run[|run| - 1])
  {}

  lemma StepCounts(o: S.Options, c: State, e: Event)
    requires Inv(c) && Enabled(c, e)
    ensures Inv(After(o, c, e))
    ensures |After(o, c, e).sessions| == 2 <==> |c.sessions| == 2 || (e.Chunk? && LineLeft(o, c, e.lines))
  {
    hide AfterSession, AfterLines, LineLeft;
    match e {
      case Chunk(lines) => LinesKeepInv(o, c, lines);
      case Upstream(i, u) => SessionKeepsInv(o, c, i, u);
      case Disconnect =>
    }
  }

  /** Over any life of a socket: it is given a second session, and never a third, if and only if some chunk
      goes on with a line that decodes after the line that ended the first. */
  lemma {:induction false} SecondSessionIff(o: S.Options, run: seq<Event>)
    requires Play(o, run).Some?
    ensures Inv(Play(o, run).value) && |Play(o, run).value.sessions| <= 2
    ensures |Play(o, run).value.sessions| == 2 <==> SomeLineLeft(o, run)
  {
    hide After, LeftAt, Enabled;
    if run != [] {
      var n := |run| - 1;
      PlayLast(o, run);
      SecondSessionIff(o, run[..n]);
      StepCounts(o, Play(o, run[..n]).value, run[n]);
      SomeBefore(o, run);
      LastLeft(o, run);
    }
  }

  lemma LastLeft(o: S.Options, run: seq<Event>)
    requires run != [] && Play(o, run).Some?
    ensures var n := |run| - 1;
            LeftAt(o, run, n) <==> run[n].Chunk? && LineLeft(o, Play(o, run[..n]).value, run[n].lines)
  {}

  lemma SomeBefore(o: S.Options, run: seq<Event>)
    requires run != []
    ensures SomeLineLeft(o, run) <==> SomeLineLeft(o, run[..|run| - 1]) || LeftAt(o, run, |run| - 1)
  {
    hide Play, LineLeft;
    var n := |run| - 1;
    forall k | 0 <= k < n
      ensures LeftAt(o, run[..n], k) <==> LeftAt(o, run, k)
    {
      assert run[..n][..k] == run[..k];
    }
  }

  // ---- whose work a socket carries ---------------------------------------------------

  /** The session has come about by some events of its own. */
  ghost predicate IsRun(o: S.Options, s: S.State) {
    exists es :: SP.Run(o, es) == s
  }

  ghost predicate AllRuns(o: S.Options, c: State) {
    forall i :: 0 <= i < |c.sessions| ==> IsRun(o, c.sessions[i])
  }

  lemma OneMoreStep(o: S.Options, s: S.State, e: SP.Event)
    requires IsRun(o, s)
    ensures IsRun(o, SP.Step(o, s, e))
  {
    hide SP.Step;
    var es :| SP.Run(o, es) == s;
    assert (es + [e])[..|es|] == es;
    assert SP.Run(o, es + [e]) == SP.Step(o, s, e);
  }

  lemma FreshIsRun(o: S.Options)
    ensures IsRun(o, S.INITIAL)
  {
    assert SP.Run(o, []) == S.INITIAL;
  }

  lemma FinishKeepsRuns(o: S.Options, c: State)
    requires AllRuns(o, c)
    ensures AllRuns(o, AfterFinish(c))
  {
    hide IsRun;
    if c.sessions != [] {
      OneMoreStep(o, c.sessions[|c.sessions| - 1], SP.Hangup);
    }
  }

  lemma SessionKeepsRuns(o: S.Options, c: State, i: nat, e: SP.Event)
    requires AllRuns(o, c) && i < |c.sessions|
    ensures AllRuns(o, AfterSession(o, c, i, e))
  {
    hide IsRun, SP.Step, AfterFinish;
    OneMoreStep(o, c.sessions[i], e);
    FinishKeepsRuns(o, c.(sessions := c.sessions[i := SP.Step(o, c.sessions[i], e)]));
  }

  lemma {:induction false} LinesKeepRuns(o: S.Options, c: State, lines: seq<Line>)
    requires AllRuns(o, c)
    ensures AllRuns(o, AfterLines(o, c, lines))
  {
    hide IsRun, AfterSession;
    if lines != [] {
      var n := |lines| - 1;
      var before, line := AfterLines(o, c, lines[..n]), lines[n];
      LinesKeepRuns(o, c, lines[..n]);
      if line.message.Some? {
        FreshIsRun(o);
        var d := SessionFor(before);
        SessionKeepsRuns(o, d, |d.sessions| - 1, SP.FromMiner(line.message.value, line.nowMs, line.resolved));
      }
    }
  }

  /** Whatever is proved of every run of a session holds of each session a socket is given. */
  lemma {:induction false} EverySessionIsARun(o: S.Options, run: seq<Event>)
    requires Play(o, run).Some?
    ensures AllRuns(o, Play(o, run).value)
  {
    hide IsRun, AfterSession, AfterLines, AfterFinish;
    if run != [] {
      var n := |run| - 1;
      PlayLast(o, run);
      EverySessionIsARun(o, run[..n]);
      var c := Play(o, run[..n]).value;
      match run[n] {
        case Chunk(lines) => LinesKeepRuns(o, c, lines);
        case Upstream(i, u) => SessionKeepsRuns(o, c, i, u);
        case Disconnect => FinishKeepsRuns(o, c);
      }
    }
  }

  /** Everything this socket had credited, session by session. */
  ghost predicate Credited(c: State, credit: S.Credit) {
    exists i :: 0 <= i < |c.sessions| && credit in c.sessions[i].credits
  }

  /** A session credits one worker, the one it was named. */
  lemma OneWorkerASession(o: S.Options, s: S.State, credit: S.Credit)
    requires IsRun(o, s) && credit in s.credits
    ensures s.identity == Some(credit.work.identity)
  {
    var es :| SP.Run(o, es) == s;
    SP.EveryCreditIsEarned(o, es, credit);
  }

  /** One socket is one worker's as long as no chunk goes on after the line that ended its session: then
      whatever was credited over it, over its whole life, is one identity's. */
  lemma OneWorkerUnlessLeft(o: S.Options, run: seq<Event>, a: S.Credit, b: S.Credit)
    requires Play(o, run).Some? && !SomeLineLeft(o, run)
    requires Credited(Play(o, run).value, a) && Credited(Play(o, run).value, b)
    ensures a.work.identity == b.work.identity
  {
    hide Play, SomeLineLeft, IsRun;
    var c := Play(o, run).value;
    SecondSessionIff(o, run);
    EverySessionIsARun(o, run);
    var i :| 0 <= i < |c.sessions| && a in c.sessions[i].credits;
    var j :| 0 <= j < |c.sessions| && b in c.sessions[j].credits;
    OneWorkerASession(o, c.sessions[i], a);
    OneWorkerASession(o, c.sessions[j], b);
  }

  // ---- the second session ----------------------------------------------------------------

  /** Nothing that happens to the socket ends its second session, or touches it at all: only what comes
      from that session's own upstream does. */
  lemma OnlyItsUpstreamEndsTheSecond(o: S.Options, run: seq<Event>, e: Event)
    requires Play(o, run).Some? && |Play(o, run).value.sessions| == 2 && Enabled(Play(o, run).value, e)
    requires !(e.Upstream? && e.i == 1)
    ensures var c := Play(o, run).value; |After(o, c, e).sessions| == 2 && After(o, c, e).sessions[1] == c.sessions[1]
  {
    hide Play, SomeLineLeft, SP.Step;
    SecondSessionIff(o, run);
    var c := Play(o, run).value;
    if e.Upstream? {
      SessionFate.StaysEnded(o, c.sessions[e.i], e.e);
    }
  }

  const LIMITS := S.Options("pool", "x", 8, 60_000, 8)
  const ONE := WorkerIdentity("one", "rig", "one.rig")
  const OTHER := WorkerIdentity("other", "rig", "other.rig")

  function Login(identity: WorkerIdentity): Line {
    Line(Some(Request(TextId("0"), Authorize, [JText(identity.login), JText("")])), 0, Known(identity))
  }

  const SUBMITTED := Line(Some(Request(TextId("1"), Submit, [JText(""), JText("job")])), 1_000, Refused(""))

  /** One chunk: a login and a submit, another worker's login, and the same and a submit again. */
  const MIXED := [Login(ONE), SUBMITTED, Login(OTHER), Login(OTHER), SUBMITTED]

  const ACCEPTED := SP.FromUpstream(Response(TextId("1"), JBool(true), None))

  function WorkFor(identity: WorkerIdentity): S.Work {
    S.Work(identity, Some("job"), 1.0, 1)
  }

  predicate Holds(s: S.State, identity: WorkerIdentity) {
    s.pending == [Entry("1", S.PendingSubmit(WorkFor(identity), 1_000))]
  }

  predicate Named(s: S.State, identity: WorkerIdentity) {
    !s.ended && !s.upstreamReady && |s.queued| <= 1
    && s.identity == Some(identity) && s.difficulty == 1.0 && s.pending == []
  }

  lemma LoginNames(identity: WorkerIdentity)
    ensures Named(SP.Step(LIMITS, S.INITIAL, SP.FromMiner(Login(identity).message.value, 0, Known(identity))), identity)
  {}

  lemma OtherLoginEnds(s: S.State)
    requires !s.ended && s.identity == Some(ONE)
    ensures SP.Step(LIMITS, s, SP.FromMiner(Login(OTHER).message.value, 0, Known(OTHER))) == S.AfterEnd(s)
  {}

  lemma SubmitHolds(s: S.State, identity: WorkerIdentity)
    requires Named(s, identity)
    ensures var t := SP.Step(LIMITS, s, SP.FromMiner(SUBMITTED.message.value, 1_000, Refused("")));
            Holds(t, identity) && t.identity == s.identity
  {
    SessionFate.MessageBooks(LIMITS, s, SP.FromMiner(SUBMITTED.message.value, 1_000, Refused("")));
    SP.StepNames(LIMITS, s, SP.FromMiner(SUBMITTED.message.value, 1_000, Refused("")));
    hide SP.Step;
    assert S.AfterExpiry(LIMITS, s, 1_000).pending == [];
  }

  lemma SubmitEndsNothing(s: S.State, identity: WorkerIdentity)
    requires Named(s, identity)
    ensures !SP.Step(LIMITS, s, SP.FromMiner(SUBMITTED.message.value, 1_000, Refused(""))).ended
  {}

  lemma AnswerCredits(s: S.State, identity: WorkerIdentity)
    requires Holds(s, identity)
    ensures S.Credit("1", WorkFor(identity), Accepted) in SP.Step(LIMITS, s, ACCEPTED).credits
    ensures SP.Step(LIMITS, s, ACCEPTED).ended == s.ended
  {}

  lemma FiveLines(lines: seq<Line>)
    requires |lines| == 5
    ensures AfterLines(LIMITS, OPENED, lines)
         == AfterLine(LIMITS, AfterLine(LIMITS, AfterLine(LIMITS, AfterLine(LIMITS, AfterLine(
              LIMITS, OPENED, lines[0]), lines[1]), lines[2]), lines[3]), lines[4])
  {
    hide AfterLine;
    assert lines[..4][..3] == lines[..3] && lines[..3][..2] == lines[..2] && lines[..2][..1] == lines[..1];
    assert lines[..1][..0] == [] && AfterLines(LIMITS, OPENED, lines[..1][..0]) == OPENED;
    assert AfterLines(LIMITS, OPENED, lines[..1]) == AfterLine(LIMITS, OPENED, lines[0]);
    assert AfterLines(LIMITS, OPENED, lines[..2])
        == AfterLine(LIMITS, AfterLines(LIMITS, OPENED, lines[..1]), lines[1]);
    assert AfterLines(LIMITS, OPENED, lines[..3])
        == AfterLine(LIMITS, AfterLines(LIMITS, OPENED, lines[..2]), lines[2]);
    assert AfterLines(LIMITS, OPENED, lines[..4])
        == AfterLine(LIMITS, AfterLines(LIMITS, OPENED, lines[..3]), lines[3]);
  }

  /** After that chunk the socket is closed, the first session ended with its submit pending, the second
      going on with its own. */
  lemma MixedChunk() returns (a: S.State, b: S.State)
    ensures AfterLines(LIMITS, OPENED, MIXED) == State(true, true, [a, b])
    ensures Holds(a, ONE) && a.ended && Holds(b, OTHER) && !b.ended
  {
    hide SP.Step, Named, Holds;
    FiveLines(MIXED);
    LoginNames(ONE);
    LoginNames(OTHER);
    var one := SP.Step(LIMITS, S.INITIAL, SP.FromMiner(MIXED[0].message.value, 0, Known(ONE)));
    SubmitHolds(one, ONE);
    SubmitEndsNothing(one, ONE);
    NamedIsNamed(one, ONE);
    var held := SP.Step(LIMITS, one, SP.FromMiner(SUBMITTED.message.value, 1_000, Refused("")));
    OtherLoginEnds(held);
    a := S.AfterEnd(held);
    EndKeeps(held, ONE);
    var other := SP.Step(LIMITS, S.INITIAL, SP.FromMiner(MIXED[3].message.value, 0, Known(OTHER)));
    SubmitHolds(other, OTHER);
    SubmitEndsNothing(other, OTHER);
    NamedIsNamed(other, OTHER);
    b := SP.Step(LIMITS, other, SP.FromMiner(SUBMITTED.message.value, 1_000, Refused("")));
    var c := AfterLine(LIMITS, OPENED, MIXED[0]);
    assert c == State(false, true, [one]);
    c := AfterLine(LIMITS, c, MIXED[1]);
    assert c == State(false, true, [held]);
    c := AfterLine(LIMITS, c, MIXED[2]);
    assert c == State(true, false, [a]);
    c := AfterLine(LIMITS, c, MIXED[3]);
    assert c == State(true, true, [a, other]);
    c := AfterLine(LIMITS, c, MIXED[4]);
    assert c == State(true, true, [a, b]);
  }

  lemma NamedIsNamed(s: S.State, identity: WorkerIdentity)
    requires Named(s, identity)
    ensures !s.ended && s.identity == Some(identity)
  {}

  lemma EndKeeps(s: S.State, identity: WorkerIdentity)
    requires Holds(s, identity)
    ensures Holds(S.AfterEnd(s), identity) && S.AfterEnd(s).ended && S.AfterEnd(S.AfterEnd(s)) == S.AfterEnd(s)
  {}

  /** So two workers are credited over one socket: the first by an answer after its session ended, the second
      in a session that no end of the socket will reach. */
  lemma TwoWorkersOneSocket() returns (run: seq<Event>)
    ensures Play(LIMITS, run).Some? && SomeLineLeft(LIMITS, run)
    ensures Credited(Play(LIMITS, run).value, S.Credit("1", WorkFor(ONE), Accepted))
    ensures Credited(Play(LIMITS, run).value, S.Credit("1", WorkFor(OTHER), Accepted))
    ensures var left := Play(LIMITS, run + [Disconnect]);
            left.Some? && |left.value.sessions| == 2 && !left.value.sessions[1].ended
  {
    hide SP.Step, Holds, SomeLineLeft;
    var a, b := MixedChunk();
    AnswerCredits(a, ONE);
    AnswerCredits(b, OTHER);
    var x, y := SP.Step(LIMITS, a, ACCEPTED), SP.Step(LIMITS, b, ACCEPTED);
    assert [a, b][0 := x] == [x, b] && [x, b][1 := y] == [x, y];
    hide AfterLines, Play;
    NothingPlayed();
    PlayMore([], Chunk(MIXED));
    run := [] + [Chunk(MIXED)];
    PlayMore(run, Upstream(0, ACCEPTED));
    run := run + [Upstream(0, ACCEPTED)];
    PlayMore(run, Upstream(1, ACCEPTED));
    run := run + [Upstream(1, ACCEPTED)];
    assert Play(LIMITS, run) == Some(State(true, true, [x, y]));
    assert [x, y][0] == x && [x, y][1] == y;
    PlayMore(run, Disconnect);
    SecondSessionIff(LIMITS, run);
  }

  lemma NothingPlayed()
    ensures Play(LIMITS, []) == Some(OPENED)
  {}

  lemma PlayMore(run: seq<Event>, e: Event)
    requires Play(LIMITS, run).Some? && Enabled(Play(LIMITS, run).value, e)
    ensures Play(LIMITS, run + [e]) == Some(After(LIMITS, Play(LIMITS, run).value, e))
  {
    hide After;
    assert (run + [e])[..|run|] == run;
  }
}
