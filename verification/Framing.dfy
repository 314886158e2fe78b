/** Cutting a character stream into lines, as both socket readers do. */
module Framing {
  const NEWLINE := '\n'
  const MAX_LINE := 64 * 1024

  /** How the ceiling counts: the proxy's reader in UTF-8 bytes, the tap's in UTF-16 units. */
  datatype Measure = Utf8Bytes | Utf16Units

  function Width(measure: Measure, c: char): nat {
    match measure
    case Utf8Bytes =>
      if c as int < 0x80 then 1 else if c as int < 0x800 then 2 else if c as int < 0x10000 then 3 else 4
    case Utf16Units => if c as int < 0x10000 then 1 else 2
  }

  function Size(measure: Measure, text: string): nat {
    if text == "" then 0 else Size(measure, text[..|text| - 1]) + Width(measure, text[|text| - 1])
  }

  /** `indexOf("\n")`: the first newline, or none. */
  function Newline(text: string): (at: int)
    ensures -1 <= at < |text|
    ensures at >= 0 ==> text[at] == NEWLINE && NEWLINE !in text[..at]
    ensures at < 0 ==> NEWLINE !in text
  {
    if text == "" then -1
    else if text[0] == NEWLINE then 0
    else
      var rest := Newline(text[1..]);
      assert rest >= 0 ==> text[..rest + 1] == [text[0]] + text[1..][..rest];
      assert text == [text[0]] + text[1..];
      if rest < 0 then -1 else rest + 1
  }

  // ---- what a stream means, independently of how it is read ------------------

  /** The complete lines of a text, one character at a time from the left. */
  function Lines(text: string): seq<string> {
    if text == "" then []
    else if text[|text| - 1] == NEWLINE
    then Lines(text[..|text| - 1]) + [Tail(text[..|text| - 1])]
    else Lines(text[..|text| - 1])
  }

  /** What follows the last newline. */
  function Tail(text: string): string {
    if text == "" || text[|text| - 1] == NEWLINE then ""
    else Tail(text[..|text| - 1]) + [text[|text| - 1]]
  }

  function Joined(chunks: seq<string>): string {
    if chunks == [] then "" else Joined(chunks[..|chunks| - 1]) + chunks[|chunks| - 1]
  }

  /** The lines and the tail are the text, newlines put back: nothing lost, nothing invented. */
  function Unsplit(lines: seq<string>): string {
    if lines == [] then "" else Unsplit(lines[..|lines| - 1]) + lines[|lines| - 1] + [NEWLINE]
  }

  lemma {:induction false} LinesAreTheText(text: string)
    ensures Unsplit(Lines(text)) + Tail(text) == text
  {
    if text != "" {
      var head, c := text[..|text| - 1], text[|text| - 1];
      LinesAreTheText(head);
      var lines, tail := Lines(head), Tail(head);
      if c == NEWLINE {
        UnsplitSnoc(lines, tail);
        assert Unsplit(lines) + tail + [c] + "" == head + [c];
      } else {
        assert Unsplit(lines) + (tail + [c]) == (Unsplit(lines) + tail) + [c];
      }
      assert text == head + [c];
    }
  }

  lemma UnsplitSnoc(lines: seq<string>, line: string)
    ensures Unsplit(lines + [line]) == Unsplit(lines) + line + [NEWLINE]
  {
    assert (lines + [line])[..|lines|] == lines;
  }

  lemma {:induction false} LinesHoldNoNewline(text: string)
    ensures NEWLINE !in Tail(text)
    ensures forall i :: 0 <= i < |Lines(text)| ==> NEWLINE !in Lines(text)[i]
  {
    if text != "" {
      LinesHoldNoNewline(text[..|text| - 1]);
    }
  }

  // ---- the readers ---------------------------------------------------------

  datatype State = State(pending: string, overflowed: bool, delivered: seq<string>)

  /** One pass of the inner loop: every complete line is taken off the front. */
  function Taken(s: State): State
    decreases |s.pending|
  {
    var at := Newline(s.pending);
    if at < 0 then s
    else Taken(s.(pending := s.pending[at + 1..], delivered := s.delivered + [s.pending[..at]]))
  }

  function AfterChunk(measure: Measure, s: State, chunk: string): State {
    if s.overflowed then s
    else
      var t := Taken(s.(pending := s.pending + chunk));
      if Size(measure, t.pending) > MAX_LINE then t.(overflowed := true, pending := "") else t
  }

  function AfterChunks(measure: Measure, chunks: seq<string>): State {
    if chunks == [] then State("", false, [])
    else AfterChunk(measure, AfterChunks(measure, chunks[..|chunks| - 1]), chunks[|chunks| - 1])
  }

  class LineReader {
    const measure: Measure
    var pending: string
    var overflowed: bool
    var delivered: seq<string>

    ghost function Model(): State
      reads this
    {
      State(pending, overflowed, delivered)
    }

    constructor (measure: Measure)
      ensures this.measure == measure && Model() == State("", false, [])
    {
      this.measure := measure;
      pending, overflowed, delivered := "", false, [];
    }

    method OnData(chunk: string)
      modifies this
      ensures Model() == AfterChunk(measure, old(Model()), chunk)
    {
      if overflowed {
        return;
      }
      pending := pending + chunk;
      ghost var start := Model();
      var newline := Newline(pending);
      while newline != -1
        invariant newline == Newline(pending) && !overflowed
        invariant Taken(Model()) == Taken(start)
        decreases |pending|
      {
        delivered := delivered + [pending[..newline]];
        pending := pending[newline + 1..];
        newline := Newline(pending);
      }
      if Size(measure, pending) > MAX_LINE {
        overflowed := true;
        pending := "";
      }
    }
  }

  // ---- chunking does not matter --------------------------------------------

  lemma {:induction false} LinesOfConcat(a: string, b: string)
    requires NEWLINE !in b
    ensures Lines(a + b) == Lines(a) && Tail(a + b) == Tail(a) + b
  {
    if b == "" {
      assert a + b == a;
    } else {
      LinesOfConcat(a, b[..|b| - 1]);
      assert (a + b)[..|a + b| - 1] == a + b[..|b| - 1];
    }
  }

  /** Splitting after some text goes on from its tail. */
  lemma {:induction false} LinesGoOn(a: string, b: string)
    ensures Lines(a + b) == Lines(a) + Lines(Tail(a) + b)
    ensures Tail(a + b) == Tail(Tail(a) + b)
  {
    if b == "" {
      assert a + b == a && Tail(a) + b == Tail(a);
      LinesHoldNoNewline(a);
      NoLine(Tail(a));
    } else {
      LinesGoOn(a, b[..|b| - 1]);
      assert (a + b)[..|a + b| - 1] == a + b[..|b| - 1];
      assert (Tail(a) + b)[..|Tail(a) + b| - 1] == Tail(a) + b[..|b| - 1];
    }
  }

  /** The line before the first newline is the text's first line. */
  lemma FirstLine(line: string, rest: string)
    requires NEWLINE !in line
    ensures Lines(line + [NEWLINE] + rest) == [line] + Lines(rest)
    ensures Tail(line + [NEWLINE] + rest) == Tail(rest)
  {
    LinesOfConcat("", line);
    assert "" + line == line;
    var first := line + [NEWLINE];
    assert first[..|first| - 1] == line;
    LinesGoOn(first, rest);
    assert "" + rest == rest;
  }

  lemma {:induction false} TakenSplits(s: State)
    ensures Taken(s).delivered == s.delivered + Lines(s.pending)
    ensures Taken(s).pending == Tail(s.pending) && Taken(s).overflowed == s.overflowed
    decreases |s.pending|
  {
    hide Lines, Tail, Newline;
    var at := Newline(s.pending);
    if at < 0 {
      NoLine(s.pending);
      assert s.delivered + [] == s.delivered;
    } else {
      var line, rest := s.pending[..at], s.pending[at + 1..];
      assert s.pending == line + [NEWLINE] + rest;
      FirstLine(line, rest);
      TakenSplits(s.(pending := rest, delivered := s.delivered + [line]));
      assert s.delivered + [line] + Lines(rest) == s.delivered + ([line] + Lines(rest));
    }
  }

  lemma NoLine(text: string)
    requires NEWLINE !in text
    ensures Lines(text) == [] && Tail(text) == text
  {
    LinesOfConcat("", text);
    assert "" + text == text;
  }

  /** Every chunk boundary leaves a remainder within the ceiling. */
  predicate Fits(measure: Measure, chunks: seq<string>) {
    chunks == [] ||
    (Fits(measure, chunks[..|chunks| - 1]) && Size(measure, Tail(Joined(chunks))) <= MAX_LINE)
  }

  /** Until it overflows, a reader has delivered exactly the complete lines of all it was
      given, however it was cut up; and it overflows exactly when some chunk boundary left
      too long a remainder. What was delivered is always a prefix of the stream's lines,
      and what is held back is free of newlines and within the ceiling. */
  lemma {:induction false} ChunkingDoesNotMatter(measure: Measure, chunks: seq<string>)
    ensures var s, text := AfterChunks(measure, chunks), Joined(chunks);
            && s.overflowed == !Fits(measure, chunks)
            && (!s.overflowed ==> s.delivered == Lines(text) && s.pending == Tail(text))
            && s.delivered <= Lines(text)
            && NEWLINE !in s.pending && Size(measure, s.pending) <= MAX_LINE
  {
    if chunks != [] {
      var n := |chunks| - 1;
      var s, chunk := AfterChunks(measure, chunks[..n]), chunks[n];
      ChunkingDoesNotMatter(measure, chunks[..n]);
      LinesGoOn(Joined(chunks[..n]), chunk);
      TakenSplits(s.(pending := s.pending + chunk));
      LinesHoldNoNewline(Joined(chunks));
      hide Lines, Tail, Taken;
    }
  }

  // ---- a stream whose lines fit never overflows ------------------------------

  ghost predicate LinesFit(measure: Measure, text: string) {
    && (forall i :: 0 <= i < |Lines(text)| ==> Size(measure, Lines(text)[i]) <= MAX_LINE)
    && Size(measure, Tail(text)) <= MAX_LINE
  }

  lemma {:induction false} SizeGrows(measure: Measure, a: string, b: string)
    ensures Size(measure, a) <= Size(measure, a + b)
  {
    if b == "" {
      assert a + b == a;
    } else {
      SizeGrows(measure, a, b[..|b| - 1]);
      assert (a + b)[..|a + b| - 1] == a + b[..|b| - 1];
    }
  }

  /** What follows the tail, up to the next newline, completes it to a line. */
  lemma NextLine(a: string, b: string)
    requires Newline(b) >= 0
    ensures Lines(a) + [Tail(a) + b[..Newline(b)]] <= Lines(a + b)
  {
    hide Lines, Tail;
    var line, rest := b[..Newline(b)], b[Newline(b) + 1..];
    LinesHoldNoNewline(a);
    LinesGoOn(a, b);
    FirstLine(Tail(a) + line, rest);
    assert Tail(a) + line + [NEWLINE] + rest == Tail(a) + b;
  }

  /** The tail at any point of a stream is the start of a line, or of the stream's tail. */
  lemma {:induction false} PrefixTailFits(measure: Measure, a: string, b: string)
    requires LinesFit(measure, a + b)
    ensures Size(measure, Tail(a)) <= MAX_LINE
    decreases |b|
  {
    var at := Newline(b);
    if at < 0 {
      LinesOfConcat(a, b);
      SizeGrows(measure, Tail(a), b);
    } else {
      NextLine(a, b);
      assert Lines(a + b)[|Lines(a)|] == Tail(a) + b[..at];
      SizeGrows(measure, Tail(a), b[..at]);
    }
  }

  lemma {:induction false} EveryBoundaryFits(measure: Measure, chunks: seq<string>, rest: string)
    requires LinesFit(measure, Joined(chunks) + rest)
    ensures Fits(measure, chunks)
  {
    if chunks != [] {
      var n := |chunks| - 1;
      assert Joined(chunks[..n]) + (chunks[n] + rest) == Joined(chunks) + rest;
      EveryBoundaryFits(measure, chunks[..n], chunks[n] + rest);
      PrefixTailFits(measure, Joined(chunks), rest);
    }
  }

  /** If every line and the tail fit the ceiling, no chunking of the stream overflows, so
      any chunking delivers exactly its lines. */
  lemma FittingStreamIsDelivered(measure: Measure, chunks: seq<string>)
    requires LinesFit(measure, Joined(chunks))
    ensures AfterChunks(measure, chunks) == State(Tail(Joined(chunks)), false, Lines(Joined(chunks)))
  {
    ChunkingDoesNotMatter(measure, chunks);
    assert Joined(chunks) + "" == Joined(chunks);
    EveryBoundaryFits(measure, chunks, "");
  }
}
