/**
 The process-log writer of pkg/engine/processlog/writer.go: an incremental line splitter fed in
 arbitrary chunks, with a per-window limit on what is logged.

 The batch side knows nothing of buffers: it cuts a whole stream at its breaks, which are the
 newlines and the places where an overlong piece was flushed.
 */
module LineWriters {
  type Byte = x: nat | x < 256

  const NEWLINE: Byte := 10
  const CARRIAGE_RETURN: Byte := 13
  const MAX_BUFFERED := 8192

  /** A byte of the input, or the point where an overlong piece was flushed. */
  datatype Mark = B(byte: Byte) | Flush

  predicate IsBreak(m: Mark) {
    m == B(NEWLINE) || m == Flush
  }

  function Plain(bytes: seq<Byte>): seq<Mark> {
    seq(|bytes|, i requires 0 <= i < |bytes| => B(bytes[i]))
  }

  /** bytes.TrimRight(line, "\r") */
  function TrimCR(s: seq<Byte>): seq<Byte> {
    if s != [] && s[|s| - 1] == CARRIAGE_RETURN then TrimCR(s[..|s| - 1]) else s
  }

  // ---------------------------------------------------------------- the batch splitter

  ghost predicate FirstBreakAt(stream: seq<Mark>, i: nat) {
    i <= |stream| && (forall j :: 0 <= j < i ==> !IsBreak(stream[j])) && (i < |stream| ==> IsBreak(stream[i]))
  }

  lemma {:induction false} FirstBreakExists(stream: seq<Mark>)
    ensures exists i: nat :: FirstBreakAt(stream, i)
  {
    if stream == [] || IsBreak(stream[0]) {
      assert FirstBreakAt(stream, 0);
    } else {
      FirstBreakExists(stream[1..]);
      var i: nat :| FirstBreakAt(stream[1..], i);
      assert FirstBreakAt(stream, i + 1);
    }
  }

  /** The index of the first break, or the length when there is none. */
  ghost function FirstBreak(stream: seq<Mark>): (i: nat)
    ensures FirstBreakAt(stream, i)
  {
    FirstBreakExists(stream);
    var i: nat :| FirstBreakAt(stream, i);
    i
  }

  function BytesOf(piece: seq<Mark>): seq<Byte>
    requires forall i :: 0 <= i < |piece| ==> !IsBreak(piece[i])
  {
    seq<Byte>(|piece|, i requires 0 <= i < |piece| && !IsBreak(piece[i]) => piece[i].byte)
  }

  /** A piece before a newline loses its carriage returns; a flushed piece is taken as it is. */
  function LineOf(piece: seq<Byte>, end: Mark): seq<Byte> {
    if end == Flush then piece else TrimCR(piece)
  }

  function OneLine(line: seq<Byte>): seq<seq<Byte>> {
    if line == [] then [] else [line]
  }

  /** The non-empty lines of a whole stream, cut at its breaks. */
  ghost function BatchLines(stream: seq<Mark>): seq<seq<Byte>>
    decreases |stream|
  {
    var i := FirstBreak(stream);
    if i == |stream| then [] else
      OneLine(LineOf(BytesOf(stream[..i]), stream[i])) + BatchLines(stream[i + 1..])
  }

  /** What follows the last break. */
  ghost function Tail(stream: seq<Mark>): (t: seq<Byte>)
    decreases |stream|
  {
    var i := FirstBreak(stream);
    if i == |stream| then BytesOf(stream) else Tail(stream[i + 1..])
  }

  lemma FirstBreakIs(stream: seq<Mark>, i: nat)
    requires FirstBreakAt(stream, i)
    ensures FirstBreak(stream) == i
  {
  }

  /** Cutting can stop and resume anywhere: the rest starts from the unfinished tail. */
  lemma {:induction false} CutAnywhere(s: seq<Mark>, t: seq<Mark>)
    ensures BatchLines(s + t) == BatchLines(s) + BatchLines(Plain(Tail(s)) + t)
    ensures Tail(s + t) == Tail(Plain(Tail(s)) + t)
    decreases |s|
  {
    var i := FirstBreak(s);
    if i == |s| {
      UnbrokenTail(s);
    } else {
      CutOff(s, t);
      CutOff(s, []);
      CutAnywhere(s[i + 1..], t);
      assert s + [] == s && s[i + 1..] + [] == s[i + 1..];
      Regroup(OneLine(LineOf(BytesOf(s[..i]), s[i])), BatchLines(s[i + 1..]), BatchLines(Plain(Tail(s)) + t));
    }
  }

  lemma Regroup(a: seq<seq<Byte>>, b: seq<seq<Byte>>, c: seq<seq<Byte>>)
    ensures (a + b) + c == a + (b + c)
  {
  }

  lemma UnbrokenTail(s: seq<Mark>)
    requires FirstBreak(s) == |s|
    ensures BatchLines(s) == [] && Plain(Tail(s)) == s
  {
  }

  lemma CutOff(s: seq<Mark>, t: seq<Mark>)
    requires FirstBreak(s) < |s|
    ensures var i := FirstBreak(s);
            && BatchLines(s + t) == OneLine(LineOf(BytesOf(s[..i]), s[i])) + BatchLines(s[i + 1..] + t)
            && Tail(s + t) == Tail(s[i + 1..] + t)
  {
    var i := FirstBreak(s);
    FirstBreakIs(s + t, i);
    assert (s + t)[..i] == s[..i] && (s + t)[i + 1..] == s[i + 1..] + t;
  }

  lemma {:induction false} TailHasNoBreak(s: seq<Mark>)
    ensures FirstBreak(Plain(Tail(s))) == |Tail(s)|
    ensures BatchLines(Plain(Tail(s))) == [] && Tail(Plain(Tail(s))) == Tail(s)
    decreases |s|
  {
    var i := FirstBreak(s);
    if i == |s| {
      assert Plain(Tail(s)) == s;
    } else {
      TailHasNoBreak(s[i + 1..]);
    }
  }

  lemma FlushEndsTail(s: seq<Mark>)
    ensures BatchLines(s + [Flush]) == BatchLines(s) + OneLine(Tail(s)) && Tail(s + [Flush]) == []
  {
    var p := Plain(Tail(s));
    CutAnywhere(s, [Flush]);
    TailHasNoBreak(s);
    FirstBreakIs(p + [Flush], |p|);
    assert (p + [Flush])[..|p|] == p && (p + [Flush])[|p| + 1..] == [];
    assert BytesOf(p) == Tail(s);
    assert BatchLines([]) == [];
  }

  // ---------------------------------------------------------------- one Write's splitting

  /** The lines one Write passes on, and the buffer it leaves. */
  ghost function Split(buffer: seq<Byte>, p: seq<Byte>): (seq<seq<Byte>>, seq<Byte>) {
    var stream := Plain(buffer + p);
    var rest := Tail(stream);
    if |rest| > MAX_BUFFERED then (BatchLines(stream) + OneLine(rest), []) else (BatchLines(stream), rest)
  }

  ghost function Buffer(chunks: seq<seq<Byte>>): seq<Byte> {
    if chunks == [] then [] else Split(Buffer(chunks[..|chunks| - 1]), chunks[|chunks| - 1]).1
  }

  ghost function Lines(chunks: seq<seq<Byte>>): seq<seq<Byte>> {
    if chunks == [] then [] else
      var past, p := chunks[..|chunks| - 1], chunks[|chunks| - 1];
      Lines(past) + Split(Buffer(past), p).0
  }

  /** The whole input, with a virtual break after each Write that leaves an overlong piece. */
  ghost function Marked(chunks: seq<seq<Byte>>): seq<Mark> {
    if chunks == [] then [] else
      var m := Marked(chunks[..|chunks| - 1]) + Plain(chunks[|chunks| - 1]);
      if |Tail(m)| > 8192 then m + [Flush] else m
  }

  lemma PlainConcat(a: seq<Byte>, b: seq<Byte>)
    ensures Plain(a + b) == Plain(a) + Plain(b)
  {
  }

  /**
   Streaming equals batch: for any chunking the lines passed on are the lines of the whole marked
   input, the buffer is its unfinished tail, and a Write never leaves more than the maximum.
   */
  lemma {:induction false} StreamingEqualsBatch(chunks: seq<seq<Byte>>)
    ensures Lines(chunks) == BatchLines(Marked(chunks))
    ensures Buffer(chunks) == Tail(Marked(chunks))
    ensures |Buffer(chunks)| <= 8192
  {
    if chunks != [] {
      var past, p := chunks[..|chunks| - 1], chunks[|chunks| - 1];
      StreamingEqualsBatch(past);
      CutAnywhere(Marked(past), Plain(p));
      PlainConcat(Buffer(past), p);
      FlushEndsTail(Marked(past) + Plain(p));
      hide BatchLines, Tail, OneLine;
      Regroup(BatchLines(Marked(past)), BatchLines(Plain(Buffer(past) + p)), OneLine(Tail(Plain(Buffer(past) + p))));
    }
  }

  function Concat(chunks: seq<seq<Byte>>): seq<Byte> {
    if chunks == [] then [] else Concat(chunks[..|chunks| - 1]) + chunks[|chunks| - 1]
  }

  /** After each Write the unterminated end of the input so far is not overlong. */
  ghost predicate NoOverflow(chunks: seq<seq<Byte>>) {
    chunks == [] ||
    (NoOverflow(chunks[..|chunks| - 1]) && |Tail(Plain(Concat(chunks)))| <= 8192)
  }

  /** No virtual break is needed if and only if no Write overflows. */
  lemma {:induction false} UnmarkedIffNoOverflow(chunks: seq<seq<Byte>>)
    ensures Marked(chunks) == Plain(Concat(chunks)) <==> NoOverflow(chunks)
    ensures NoOverflow(chunks) <==> Flush !in Marked(chunks)
  {
    if chunks != [] {
      var past, p := chunks[..|chunks| - 1], chunks[|chunks| - 1];
      UnmarkedIffNoOverflow(past);
      PlainConcat(Concat(past), p);
      hide Tail;
      assert Flush !in Plain(p) && Flush !in Plain(Concat(chunks));
    }
  }

  /** Where no Write overflows, the chunking does not matter. */
  lemma {:induction false} ChunkingDoesNotMatter(a: seq<seq<Byte>>, b: seq<seq<Byte>>)
    requires Concat(a) == Concat(b) && NoOverflow(a) && NoOverflow(b)
    ensures Lines(a) == Lines(b) == BatchLines(Plain(Concat(a)))
    ensures Buffer(a) == Buffer(b) == Tail(Plain(Concat(a)))
  {
    UnmarkedIffNoOverflow(a);
    UnmarkedIffNoOverflow(b);
    StreamingEqualsBatch(a);
    StreamingEqualsBatch(b);
  }

  /** No unterminated piece of the input, however it is cut off, is overlong. */
  ghost predicate ShortLines(input: seq<Byte>) {
    forall i :: 0 <= i <= |input| ==> |Tail(Plain(input[..i]))| <= 8192
  }

  /** Such an input overflows in no chunking. */
  lemma {:induction false} ShortLinesNeverOverflow(chunks: seq<seq<Byte>>)
    requires ShortLines(Concat(chunks))
    ensures NoOverflow(chunks)
  {
    if chunks != [] {
      var past, input := chunks[..|chunks| - 1], Concat(chunks);
      assert input[..|Concat(past)|] == Concat(past) && input[..|input|] == input;
      assert ShortLines(Concat(past)) by {
        assert forall i :: 0 <= i <= |Concat(past)| ==> Concat(past)[..i] == input[..i];
      }
      ShortLinesNeverOverflow(past);
    }
  }

  /** Nor does an input whose Writes all end with a newline, however long its lines. */
  lemma {:induction false} TerminatedWritesNeverOverflow(chunks: seq<seq<Byte>>)
    requires forall i :: 0 <= i < |chunks| ==> chunks[i] != [] && chunks[i][|chunks[i]| - 1] == NEWLINE
    ensures NoOverflow(chunks)
  {
    if chunks != [] {
      TerminatedWritesNeverOverflow(chunks[..|chunks| - 1]);
      var input := Concat(chunks);
      assert input == input[..|input| - 1] + [NEWLINE];
      PlainConcat(input[..|input| - 1], [NEWLINE]);
      NewlineEndsTail(Plain(input[..|input| - 1]));
      assert Plain([NEWLINE]) == [B(NEWLINE)];
    }
  }

  lemma NewlineEndsTail(s: seq<Mark>)
    ensures Tail(s + [B(NEWLINE)]) == []
  {
    var p := Plain(Tail(s));
    CutAnywhere(s, [B(NEWLINE)]);
    TailHasNoBreak(s);
    FirstBreakIs(p + [B(NEWLINE)], |p|);
    assert (p + [B(NEWLINE)])[|p| + 1..] == [];
  }

  // ---------------------------------------------------------------- the windowed limit

  /** What reaches the logger. */
  datatype LogEntry = Line(at: int, text: seq<Byte>) | SuppressionStarted(at: int) | Summary(at: int, count: nat)

  /** `ticks` counts clock readings; reading number i of the clock is clock(i). */
  datatype Writer = Writer(
    maxLines: nat, duration: int, buffer: seq<Byte>, windowStart: int,
    emitted: nat, suppressed: nat, log: seq<LogEntry>, ticks: nat)

  type Clock = nat -> int

  function Rotate(w: Writer, clock: Clock): Writer {
    var now, read := clock(w.ticks), w.(ticks := w.ticks + 1);
    if now - w.windowStart < w.duration then read else
      var log := if w.suppressed > 0 then w.log + [Summary(now, w.suppressed)] else w.log;
      read.(log := log, windowStart := now, emitted := 0, suppressed := 0)
  }

  function EmitLine(w: Writer, line: seq<Byte>, clock: Clock): Writer {
    if line == [] then w else LogOrSuppress(Rotate(w, clock), line, clock(w.ticks))
  }

  function LogOrSuppress(r: Writer, line: seq<Byte>, now: int): Writer {
    if r.emitted < r.maxLines then r.(emitted := r.emitted + 1, log := r.log + [Line(now, line)])
    else r.(suppressed := r.suppressed + 1,
            log := if r.suppressed == 0 then r.log + [SuppressionStarted(now)] else r.log)
  }

  function EmitAll(w: Writer, lines: seq<seq<Byte>>, clock: Clock): Writer {
    if lines == [] then w else EmitLine(EmitAll(w, lines[..|lines| - 1], clock), lines[|lines| - 1], clock)
  }

  /** Before the splitting: the window is checked and the chunk appended. */
  function Filled(w: Writer, p: seq<Byte>, clock: Clock): Writer {
    Rotate(w, clock).(buffer := w.buffer + p)
  }

  ghost function WriteChunk(w: Writer, p: seq<Byte>, clock: Clock): Writer {
    var (lines, rest) := Split(w.buffer, p);
    EmitAll(Filled(w, p, clock), lines, clock).(buffer := rest)
  }

  function NewWriter(maxLines: int, duration: int, clock: Clock): Writer {
    Writer(if maxLines <= 0 then 200 else maxLines, if duration <= 0 then 60_000_000_000 else duration,
           [], clock(0), 0, 0, [], 1)
  }

  ghost function WriteAll(w: Writer, chunks: seq<seq<Byte>>, clock: Clock): Writer {
    if chunks == [] then w else
      WriteChunk(WriteAll(w, chunks[..|chunks| - 1], clock), chunks[|chunks| - 1], clock)
  }

  class LineWriter {
    const maxLinesPerWindow: nat
    const windowDuration: int
    const clock: Clock
    var buffer: seq<Byte>
    var windowStart: int
    var linesEmitted: nat
    var linesSuppressed: nat
    var log: seq<LogEntry>
    var ticks: nat

    ghost function View(): Writer
      reads this
    {
      Writer(maxLinesPerWindow, windowDuration, buffer, windowStart, linesEmitted, linesSuppressed, log, ticks)
    }

    constructor (maxLinesPerWindow: int, windowDuration: int, clock: Clock)
      ensures View() == NewWriter(maxLinesPerWindow, windowDuration, clock) && this.clock == clock
    {
      this.maxLinesPerWindow := if maxLinesPerWindow <= 0 then 200 else maxLinesPerWindow;
      this.windowDuration := if windowDuration <= 0 then 60_000_000_000 else windowDuration;
      this.clock := clock;
      windowStart, ticks := clock(0), 1;
      buffer, log, linesEmitted, linesSuppressed := [], [], 0, 0;
    }

    method RotateWindowIfNeeded() returns (now: int)
      modifies this
      ensures View() == Rotate(old(View()), clock) && now == clock(old(ticks))
    {
      now := clock(ticks);
      ticks := ticks + 1;
      if now - windowStart < windowDuration {
        return;
      }
      if linesSuppressed > 0 {
        log := log + [Summary(now, linesSuppressed)];
      }
      windowStart := now;
      linesEmitted := 0;
      linesSuppressed := 0;
    }

    method Emit(line: seq<Byte>)
      modifies this
      ensures View() == EmitLine(old(View()), line, clock)
    {
      if line == [] {
        return;
      }
      var now := RotateWindowIfNeeded();
      if linesEmitted < maxLinesPerWindow {
        linesEmitted := linesEmitted + 1;
        log := log + [Line(now, line)];
        return;
      }
      linesSuppressed := linesSuppressed + 1;
      if linesSuppressed == 1 {
        log := log + [SuppressionStarted(now)];
      }
    }

    method Write(p: seq<Byte>) returns (n: nat)
      modifies this
      ensures View() == WriteChunk(old(View()), p, clock) && n == |p|
    {
      var _ := RotateWindowIfNeeded();
      buffer := buffer + p;
      ghost var lines := BatchLines(Plain(buffer));
      ghost var filled := View();
      DrainedIsBatch(filled, clock);
      EmitCompleteLines();
      if |buffer| > MAX_BUFFERED {
        EmitOne(filled, lines, buffer, clock, buffer);
        Emit(buffer);
        buffer := [];
      }
      return |p|;
    }

    /** The loop of Write: emits every terminated line and keeps the rest. */
    method EmitCompleteLines()
      modifies this
      ensures View() == Drained(old(View()), clock)
    {
      while true
        invariant Drained(View(), clock) == Drained(old(View()), clock)
        decreases |buffer|
      {
        var lineEnd := IndexByte(buffer);
        if lineEnd == |buffer| {
          break;
        }
        var line := TrimCR(buffer[..lineEnd]);
        Emit(line);
        buffer := buffer[lineEnd + 1..];
      }
    }
  }

  /** Emits the buffer's terminated lines one by one. */
  ghost function Drained(w: Writer, clock: Clock): Writer
    decreases |w.buffer|
  {
    var i := FirstBreak(Plain(w.buffer));
    if i == |w.buffer| then w else
      Drained(EmitLine(w, TrimCR(w.buffer[..i]), clock).(buffer := w.buffer[i + 1..]), clock)
  }

  lemma {:induction false} EmitFirst(w: Writer, line: seq<Byte>, lines: seq<seq<Byte>>, clock: Clock)
    ensures EmitAll(w, OneLine(line) + lines, clock) == EmitAll(EmitLine(w, line, clock), lines, clock)
  {
    if lines == [] {
      EmitOne(w, [], line, clock, w.buffer);
      assert OneLine(line) + lines == [] + OneLine(line);
    } else {
      EmitFirst(w, line, lines[..|lines| - 1], clock);
      var all := OneLine(line) + lines;
      assert all[..|all| - 1] == OneLine(line) + lines[..|lines| - 1];
    }
  }

  lemma {:induction false} EmitAllIgnoresBuffer(
    w: Writer, lines: seq<seq<Byte>>, clock: Clock, a: seq<Byte>, b: seq<Byte>)
    ensures EmitAll(w.(buffer := a), lines, clock).(buffer := b) == EmitAll(w, lines, clock).(buffer := b)
  {
    if lines != [] {
      EmitAllIgnoresBuffer(w, lines[..|lines| - 1], clock, a, EmitAll(w, lines[..|lines| - 1], clock).buffer);
      EmitAllIgnoresBuffer(w, lines[..|lines| - 1], clock, a, b);
    }
  }

  /** Draining emits the batch lines of the buffer and leaves its tail. */
  lemma {:induction false} DrainedIsBatch(w: Writer, clock: Clock)
    ensures var stream := Plain(w.buffer);
            Drained(w, clock) == EmitAll(w, BatchLines(stream), clock).(buffer := Tail(stream))
    decreases |w.buffer|
  {
    var i := FirstBreak(Plain(w.buffer));
    if i == |w.buffer| {
      CutNothing(w.buffer);
    } else {
      CutLine(w.buffer);
      var line, rest := TrimCR(w.buffer[..i]), w.buffer[i + 1..];
      DrainedIsBatch(EmitLine(w, line, clock).(buffer := rest), clock);
      EmitThenRest(w, line, rest, BatchLines(Plain(rest)), Tail(Plain(rest)), clock);
    }
  }

  lemma EmitThenRest(w: Writer, line: seq<Byte>, rest: seq<Byte>, lines: seq<seq<Byte>>, tail: seq<Byte>, clock: Clock)
    ensures EmitAll(EmitLine(w, line, clock).(buffer := rest), lines, clock).(buffer := tail) ==
            EmitAll(w, OneLine(line) + lines, clock).(buffer := tail)
  {
    EmitFirst(w, line, lines, clock);
    EmitAllIgnoresBuffer(EmitLine(w, line, clock), lines, clock, rest, tail);
  }

  /** bytes.IndexByte(buffer, '\n'), with the length for "none". */
  method IndexByte(buffer: seq<Byte>) returns (i: nat)
    ensures i == FirstBreak(Plain(buffer))
  {
    i := 0;
    while i < |buffer| && buffer[i] != NEWLINE
      invariant i <= |buffer| && forall j :: 0 <= j < i ==> !IsBreak(Plain(buffer)[j])
    {
      i := i + 1;
    }
    FirstBreakIs(Plain(buffer), i);
  }

  lemma CutNothing(buffer: seq<Byte>)
    requires FirstBreak(Plain(buffer)) == |buffer|
    ensures BatchLines(Plain(buffer)) == [] && Tail(Plain(buffer)) == buffer
  {
  }

  lemma CutLine(buffer: seq<Byte>)
    requires FirstBreak(Plain(buffer)) < |buffer|
    ensures var i := FirstBreak(Plain(buffer));
            var rest := Plain(buffer[i + 1..]);
            && BatchLines(Plain(buffer)) == OneLine(TrimCR(buffer[..i])) + BatchLines(rest)
            && Tail(Plain(buffer)) == Tail(rest)
  {
    var i := FirstBreak(Plain(buffer));
    assert Plain(buffer)[i + 1..] == Plain(buffer[i + 1..]);
    assert BytesOf(Plain(buffer)[..i]) == buffer[..i];
  }

  lemma EmitOne(w: Writer, lines: seq<seq<Byte>>, line: seq<Byte>, clock: Clock, buffer: seq<Byte>)
    ensures EmitAll(w, lines + OneLine(line), clock).(buffer := buffer) ==
            EmitLine(EmitAll(w, lines, clock).(buffer := buffer), line, clock)
  {
    if line == [] {
      assert lines + OneLine(line) == lines;
    } else {
      var all := lines + OneLine(line);
      assert all[..|all| - 1] == lines;
    }
  }

  // ---------------------------------------------------------------- conservation and the window bound

  /** Lines logged with from <= at < until. */
  function LoggedBetween(log: seq<LogEntry>, from: int, until: int): nat {
    if log == [] then 0 else
      var e := log[|log| - 1];
      LoggedBetween(log[..|log| - 1], from, until) + if e.Line? && from <= e.at < until then 1 else 0
  }

  function Logged(log: seq<LogEntry>): nat {
    if log == [] then 0 else Logged(log[..|log| - 1]) + if log[|log| - 1].Line? then 1 else 0
  }

  /** Suppressed lines already reported in a summary. */
  function Reported(log: seq<LogEntry>): nat {
    if log == [] then 0 else
      Reported(log[..|log| - 1]) + if log[|log| - 1].Summary? then log[|log| - 1].count else 0
  }

  function Accounted(w: Writer): nat {
    Logged(w.log) + Reported(w.log) + w.suppressed
  }

  lemma OneMoreLogged(log: seq<LogEntry>, e: LogEntry, from: int, until: int)
    ensures LoggedBetween(log + [e], from, until) ==
            LoggedBetween(log, from, until) + if e.Line? && from <= e.at < until then 1 else 0
  {
  }

  lemma OneMoreEntry(log: seq<LogEntry>, e: LogEntry)
    ensures Logged(log + [e]) == Logged(log) + if e.Line? then 1 else 0
    ensures Reported(log + [e]) == Reported(log) + if e.Summary? then e.count else 0
  {
  }

  lemma RotateAccounts(w: Writer, clock: Clock)
    ensures Accounted(Rotate(w, clock)) == Accounted(w)
  {
  }

  lemma EmitAccounts(w: Writer, line: seq<Byte>, clock: Clock)
    ensures Accounted(EmitLine(w, line, clock)) == Accounted(w) + if line == [] then 0 else 1
  {
    if line != [] {
      RotateAccounts(w, clock);
      var r, now := Rotate(w, clock), clock(w.ticks);
      OneMoreEntry(r.log, Line(now, line));
      OneMoreEntry(r.log, SuppressionStarted(now));
    }
  }

  lemma {:induction false} EmitAllAccounts(w: Writer, lines: seq<seq<Byte>>, clock: Clock)
    requires forall i :: 0 <= i < |lines| ==> lines[i] != []
    ensures Accounted(EmitAll(w, lines, clock)) == Accounted(w) + |lines|
  {
    if lines != [] {
      EmitAllAccounts(w, lines[..|lines| - 1], clock);
      EmitAccounts(EmitAll(w, lines[..|lines| - 1], clock), lines[|lines| - 1], clock);
    }
  }

  lemma {:induction false} BatchLinesNonEmpty(stream: seq<Mark>)
    ensures forall i :: 0 <= i < |BatchLines(stream)| ==> BatchLines(stream)[i] != []
    decreases |stream|
  {
    var i := FirstBreak(stream);
    if i < |stream| {
      BatchLinesNonEmpty(stream[i + 1..]);
    }
  }

  /** Every non-empty line is logged, reported as suppressed, or waiting to be reported: none is lost. */
  lemma {:induction false} EveryLineAccountedFor(chunks: seq<seq<Byte>>, maxLines: int, duration: int, clock: Clock)
    ensures var w := WriteAll(NewWriter(maxLines, duration, clock), chunks, clock);
            w.buffer == Buffer(chunks) && Accounted(w) == |BatchLines(Marked(chunks))|
  {
    StreamingEqualsBatch(chunks);
    if chunks != [] {
      var past, p := chunks[..|chunks| - 1], chunks[|chunks| - 1];
      EveryLineAccountedFor(past, maxLines, duration, clock);
      StreamingEqualsBatch(past);
      var w := WriteAll(NewWriter(maxLines, duration, clock), past, clock);
      BatchLinesNonEmpty(Plain(w.buffer + p));
      RotateAccounts(w, clock);
      EmitAllAccounts(Filled(w, p, clock), Split(w.buffer, p).0, clock);
    }
  }

  /** The texts logged, in order. */
  function Texts(log: seq<LogEntry>): seq<seq<Byte>> {
    if log == [] then [] else
      Texts(log[..|log| - 1]) + if log[|log| - 1].Line? then [log[|log| - 1].text] else []
  }

  /** The first sequence is the second with some elements left out. */
  predicate Subsequence(a: seq<seq<Byte>>, b: seq<seq<Byte>>)
    decreases |b|
  {
    a == [] ||
    (b != [] && (Subsequence(a, b[..|b| - 1]) ||
                 (a[|a| - 1] == b[|b| - 1] && Subsequence(a[..|a| - 1], b[..|b| - 1]))))
  }

  lemma OneMoreOffered(a: seq<seq<Byte>>, b: seq<seq<Byte>>, x: seq<Byte>)
    requires Subsequence(a, b)
    ensures Subsequence(a, b + [x]) && Subsequence(a + [x], b + [x])
  {
  }

  lemma RotateKeepsTexts(w: Writer, clock: Clock)
    ensures Texts(Rotate(w, clock).log) == Texts(w.log)
  {
  }

  lemma TextsOfOneMore(log: seq<LogEntry>, e: LogEntry)
    ensures Texts(log + [e]) == if e.Line? then Texts(log) + [e.text] else Texts(log)
  {
    assert (log + [e])[..|log|] == log;
  }

  lemma EmitTexts(w: Writer, line: seq<Byte>, clock: Clock)
    ensures var texts := Texts(EmitLine(w, line, clock).log);
            texts == Texts(w.log) || texts == Texts(w.log) + [line]
  {
    RotateKeepsTexts(w, clock);
    var r, now := Rotate(w, clock), clock(w.ticks);
    TextsOfOneMore(r.log, Line(now, line));
    TextsOfOneMore(r.log, SuppressionStarted(now));
    hide Texts, Rotate;
  }

  lemma EmitOffers(w: Writer, offered: seq<seq<Byte>>, line: seq<Byte>, clock: Clock)
    requires Subsequence(Texts(w.log), offered)
    ensures Subsequence(Texts(EmitLine(w, line, clock).log), offered + [line])
  {
    EmitTexts(w, line, clock);
    OneMoreOffered(Texts(w.log), offered, line);
  }

  lemma {:induction false} EmitAllOffers(w: Writer, offered: seq<seq<Byte>>, lines: seq<seq<Byte>>, clock: Clock)
    requires Subsequence(Texts(w.log), offered)
    ensures Subsequence(Texts(EmitAll(w, lines, clock).log), offered + lines)
  {
    if lines == [] {
      assert offered + lines == offered;
    } else {
      var init, line := lines[..|lines| - 1], lines[|lines| - 1];
      EmitAllOffers(w, offered, init, clock);
      EmitOffers(EmitAll(w, init, clock), offered + init, line, clock);
      assert offered + lines == (offered + init) + [line];
    }
  }

  /** What is logged are lines of the batch splitter, unchanged and in order. */
  lemma {:induction false} LoggedTextsAreBatchLines(chunks: seq<seq<Byte>>, maxLines: int, duration: int, clock: Clock)
    ensures var w := WriteAll(NewWriter(maxLines, duration, clock), chunks, clock);
            Subsequence(Texts(w.log), BatchLines(Marked(chunks)))
  {
    StreamingEqualsBatch(chunks);
    if chunks != [] {
      var past, p := chunks[..|chunks| - 1], chunks[|chunks| - 1];
      LoggedTextsAreBatchLines(past, maxLines, duration, clock);
      EveryLineAccountedFor(past, maxLines, duration, clock);
      StreamingEqualsBatch(past);
      var w := WriteAll(NewWriter(maxLines, duration, clock), past, clock);
      RotateKeepsTexts(w, clock);
      EmitAllOffers(Filled(w, p, clock), Lines(past), Split(w.buffer, p).0, clock);
    }
  }

  ghost predicate Forward(clock: Clock) {
    forall i, j :: 0 <= i <= j ==> clock(i) <= clock(j)
  }

  /**
   Windows start at least a duration apart, so the windows before the current one put at most
   maxLines into the interval, and the current one at most what it has emitted.
   */
  ghost predicate Bounded(w: Writer, clock: Clock, from: int) {
    && 0 < w.duration && 0 < w.ticks && w.windowStart <= clock(w.ticks - 1)
    && w.emitted <= w.maxLines
    && InInterval(w, LoggedBetween(w.log, from, from + w.duration), clock(w.ticks - 1), from)
  }

  ghost predicate InInterval(w: Writer, n: int, latest: int, from: int) {
    && (latest < from ==> n == 0)
    && (w.windowStart < from ==> n <= w.emitted)
    && (w.windowStart < from + w.duration ==> n <= w.maxLines + w.emitted)
    && n <= 2 * w.maxLines
  }

  lemma RotateBounded(w: Writer, clock: Clock, from: int)
    requires Forward(clock) && Bounded(w, clock, from)
    ensures Bounded(Rotate(w, clock), clock, from)
  {
    OneMoreLogged(w.log, Summary(clock(w.ticks), w.suppressed), from, from + w.duration);
    assert clock(w.ticks - 1) <= clock(w.ticks);
  }

  lemma {:induction false} EmitBounded(w: Writer, line: seq<Byte>, clock: Clock, from: int)
    requires Forward(clock) && Bounded(w, clock, from)
    ensures Bounded(EmitLine(w, line, clock), clock, from)
  {
    if line != [] {
      RotateBounded(w, clock, from);
      LogBounded(Rotate(w, clock), line, clock, from);
    }
  }

  lemma LogBounded(r: Writer, line: seq<Byte>, clock: Clock, from: int)
    requires Bounded(r, clock, from)
    ensures Bounded(LogOrSuppress(r, line, clock(r.ticks - 1)), clock, from)
  {
  }

  lemma {:induction false} EmitAllBounded(w: Writer, lines: seq<seq<Byte>>, clock: Clock, from: int)
    requires Forward(clock) && Bounded(w, clock, from)
    ensures Bounded(EmitAll(w, lines, clock), clock, from)
  {
    if lines != [] {
      EmitAllBounded(w, lines[..|lines| - 1], clock, from);
      EmitBounded(EmitAll(w, lines[..|lines| - 1], clock), lines[|lines| - 1], clock, from);
    }
  }

  lemma {:induction false} WriteAllBounded(w: Writer, chunks: seq<seq<Byte>>, clock: Clock, from: int)
    requires Forward(clock) && Bounded(w, clock, from)
    ensures Bounded(WriteAll(w, chunks, clock), clock, from)
  {
    if chunks != [] {
      var past := chunks[..|chunks| - 1];
      WriteAllBounded(w, past, clock, from);
      WriteChunkBounded(WriteAll(w, past, clock), chunks[|chunks| - 1], clock, from);
    }
  }

  lemma FilledBounded(w: Writer, p: seq<Byte>, clock: Clock, from: int)
    requires Forward(clock) && Bounded(w, clock, from)
    ensures Bounded(Filled(w, p, clock), clock, from)
  {
  }

  lemma WriteChunkBounded(w: Writer, p: seq<Byte>, clock: Clock, from: int)
    requires Forward(clock) && Bounded(w, clock, from)
    ensures Bounded(WriteChunk(w, p, clock), clock, from)
  {
    hide Split, EmitAll, Bounded, Filled;
    var (lines, rest) := Split(w.buffer, p);
    FilledBounded(w, p, clock, from);
    EmitAllBounded(Filled(w, p, clock), lines, clock, from);
    BoundedIgnoresBuffer(EmitAll(Filled(w, p, clock), lines, clock), rest, clock, from);
  }

  lemma BoundedIgnoresBuffer(w: Writer, buffer: seq<Byte>, clock: Clock, from: int)
    requires Bounded(w, clock, from)
    ensures Bounded(w.(buffer := buffer), clock, from)
  {
  }

  /** With a forward clock, any half-open interval of one window length sees at most two windows' lines. */
  lemma AtMostTwoWindowsOfLines(chunks: seq<seq<Byte>>, maxLines: int, duration: int, clock: Clock, from: int)
    requires Forward(clock)
    ensures var limit := if maxLines <= 0 then 200 else maxLines;
            var window := if duration <= 0 then 60_000_000_000 else duration;
            LoggedBetween(WriteAll(NewWriter(maxLines, duration, clock), chunks, clock).log, from, from + window)
            <= 2 * limit
  {
    var w := NewWriter(maxLines, duration, clock);
    WriteAllBounded(w, chunks, clock, from);
    SameLimits(w, chunks, clock);
  }

  lemma {:induction false} EmitAllSameLimits(w: Writer, lines: seq<seq<Byte>>, clock: Clock)
    ensures EmitAll(w, lines, clock).maxLines == w.maxLines && EmitAll(w, lines, clock).duration == w.duration
  {
    if lines != [] {
      EmitAllSameLimits(w, lines[..|lines| - 1], clock);
    }
  }

  lemma {:induction false} SameLimits(w: Writer, chunks: seq<seq<Byte>>, clock: Clock)
    ensures WriteAll(w, chunks, clock).maxLines == w.maxLines && WriteAll(w, chunks, clock).duration == w.duration
  {
    if chunks != [] {
      var past, p := chunks[..|chunks| - 1], chunks[|chunks| - 1];
      SameLimits(w, past, clock);
      var before := WriteAll(w, past, clock);
      EmitAllSameLimits(Filled(before, p, clock), Split(before.buffer, p).0, clock);
    }
  }

  // ---------------------------------------------------------------- what a window logs, exactly

  /** Lines logged at or after a time. */
  function LoggedFrom(log: seq<LogEntry>, start: int): nat {
    if log == [] then 0 else
      var e := log[|log| - 1];
      LoggedFrom(log[..|log| - 1], start) + if e.Line? && start <= e.at then 1 else 0
  }

  /** Announcements of suppression at or after a time. */
  function AnnouncedFrom(log: seq<LogEntry>, start: int): nat {
    if log == [] then 0 else
      var e := log[|log| - 1];
      AnnouncedFrom(log[..|log| - 1], start) + if e.SuppressionStarted? && start <= e.at then 1 else 0
  }

  lemma OneMoreSince(log: seq<LogEntry>, e: LogEntry, start: int)
    ensures LoggedFrom(log + [e], start) == LoggedFrom(log, start) + if e.Line? && start <= e.at then 1 else 0
    ensures AnnouncedFrom(log + [e], start) ==
            AnnouncedFrom(log, start) + if e.SuppressionStarted? && start <= e.at then 1 else 0
  {
    assert (log + [e])[..|log|] == log;
  }

  lemma {:induction false} NothingSince(log: seq<LogEntry>, start: int)
    requires forall i :: 0 <= i < |log| ==> log[i].at < start
    ensures LoggedFrom(log, start) == AnnouncedFrom(log, start) == 0
  {
    if log != [] {
      NothingSince(log[..|log| - 1], start);
    }
  }

  /**
   The current window began less than a duration ago. The log holds exactly `emitted` of its lines, at
   most the limit, and exactly the limit once lines are suppressed, which has then been announced once.
   */
  ghost predicate WindowExact(w: Writer, clock: Clock) {
    && 0 < w.duration && 0 < w.maxLines && 0 < w.ticks && clock(w.ticks - 1) - w.windowStart < w.duration
    && (forall i :: 0 <= i < |w.log| ==> w.log[i].at <= clock(w.ticks - 1)) && w.windowStart <= clock(w.ticks - 1)
    && LoggedFrom(w.log, w.windowStart) == w.emitted <= w.maxLines
    && (w.suppressed > 0 ==> w.emitted == w.maxLines)
    && AnnouncedFrom(w.log, w.windowStart) == if w.suppressed > 0 then 1 else 0
  }

  /** When the window of a line read at this time began. */
  function WindowOf(w: Writer, now: int): int {
    if now - w.windowStart < w.duration then w.windowStart else now
  }

  lemma RotateExact(w: Writer, clock: Clock)
    requires Forward(clock) && WindowExact(w, clock)
    ensures var r := Rotate(w, clock);
            WindowExact(r, clock) && r.windowStart == WindowOf(w, clock(w.ticks)) && r.ticks == w.ticks + 1
            && LoggedFrom(r.log, r.windowStart) == LoggedFrom(w.log, r.windowStart) && Texts(r.log) == Texts(w.log)
  {
    var now := clock(w.ticks);
    assert clock(w.ticks - 1) <= now;
    RotateKeepsTexts(w, clock);
    if now - w.windowStart >= w.duration {
      NothingSince(w.log, now);
      OneMoreSince(w.log, Summary(now, w.suppressed), now);
    }
  }

  /** A non-empty line is logged if and only if its window has logged fewer lines than the limit. */
  lemma LineLoggedIffWindowHasRoom(w: Writer, line: seq<Byte>, clock: Clock)
    requires Forward(clock) && WindowExact(w, clock) && line != []
    ensures var now, w' := clock(w.ticks), EmitLine(w, line, clock);
            && WindowExact(w', clock)
            && Texts(w'.log) == Texts(w.log) +
               if LoggedFrom(w.log, WindowOf(w, now)) < w.maxLines then [line] else []
  {
    RotateExact(w, clock);
    var r, now := Rotate(w, clock), clock(w.ticks);
    OneMoreSince(r.log, Line(now, line), r.windowStart);
    OneMoreSince(r.log, SuppressionStarted(now), r.windowStart);
    assert (r.log + [Line(now, line)])[..|r.log|] == r.log;
    assert (r.log + [SuppressionStarted(now)])[..|r.log|] == r.log;
  }

  lemma {:induction false} EmitAllExact(w: Writer, lines: seq<seq<Byte>>, clock: Clock)
    requires Forward(clock) && WindowExact(w, clock)
    ensures WindowExact(EmitAll(w, lines, clock), clock)
  {
    if lines != [] {
      EmitAllExact(w, lines[..|lines| - 1], clock);
      var before, line := EmitAll(w, lines[..|lines| - 1], clock), lines[|lines| - 1];
      if line != [] {
        LineLoggedIffWindowHasRoom(before, line, clock);
      }
    }
  }

  lemma WriteChunkExact(w: Writer, p: seq<Byte>, clock: Clock)
    requires Forward(clock) && WindowExact(w, clock)
    ensures WindowExact(WriteChunk(w, p, clock), clock)
  {
    hide Split, EmitAll, Rotate;
    RotateExact(w, clock);
    EmitAllExact(Filled(w, p, clock), Split(w.buffer, p).0, clock);
  }

  /** With a forward clock the current window's log is exact after every run. */
  lemma {:induction false} WindowsAreExact(chunks: seq<seq<Byte>>, maxLines: int, duration: int, clock: Clock)
    requires Forward(clock)
    ensures var w := WriteAll(NewWriter(maxLines, duration, clock), chunks, clock);
            && WindowExact(w, clock)
            && w.maxLines == (if maxLines <= 0 then 200 else maxLines)
            && w.duration == (if duration <= 0 then 60_000_000_000 else duration)
  {
    SameLimits(NewWriter(maxLines, duration, clock), chunks, clock);
    if chunks != [] {
      var past := chunks[..|chunks| - 1];
      WindowsAreExact(past, maxLines, duration, clock);
      hide WriteChunk, WindowExact;
      WriteChunkExact(WriteAll(NewWriter(maxLines, duration, clock), past, clock), chunks[|chunks| - 1], clock);
    }
  }

  // ---------------------------------------------------------------- nothing is suppressed below the limit

  lemma {:induction false} EmitAllLogsAll(w: Writer, lines: seq<seq<Byte>>, clock: Clock)
    requires w.suppressed == 0 && w.emitted + |lines| <= w.maxLines
    requires forall i :: 0 <= i < |lines| ==> lines[i] != []
    ensures var w' := EmitAll(w, lines, clock);
            && Texts(w'.log) == Texts(w.log) + lines && w'.suppressed == 0 && w'.emitted <= w.emitted + |lines|
            && w'.maxLines == w.maxLines
  {
    hide EmitLine, Texts;
    if lines == [] {
      assert Texts(w.log) + lines == Texts(w.log);
    } else {
      var init, line := lines[..|lines| - 1], lines[|lines| - 1];
      EmitAllLogsAll(w, init, clock);
      var b := EmitAll(w, init, clock);
      EmitLogsOne(b, line, clock);
      assert EmitAll(w, lines, clock) == EmitLine(b, line, clock);
      OneMoreAppended(Texts(w.log), init, line);
      assert lines == init + [line];
    }
  }

  lemma OneMoreAppended(a: seq<seq<Byte>>, b: seq<seq<Byte>>, line: seq<Byte>)
    ensures a + b + [line] == a + (b + [line])
  {
  }

  lemma EmitLogsOne(w: Writer, line: seq<Byte>, clock: Clock)
    requires w.suppressed == 0 && w.emitted < w.maxLines && line != []
    ensures var w' := EmitLine(w, line, clock);
            && Texts(w'.log) == Texts(w.log) + [line] && w'.suppressed == 0 && w'.emitted <= w.emitted + 1
            && w'.maxLines == w.maxLines
  {
    RotateKeepsTexts(w, clock);
    var r, e := Rotate(w, clock), Line(clock(w.ticks), line);
    assert (r.log + [e])[..|r.log|] == r.log;
  }

  /** A stream of at most the limit's lines is logged line by line, and nothing of it is suppressed. */
  lemma {:induction false} FewLinesAreAllLogged(chunks: seq<seq<Byte>>, maxLines: int, duration: int, clock: Clock)
    requires |BatchLines(Marked(chunks))| <= if maxLines <= 0 then 200 else maxLines
    ensures var w := WriteAll(NewWriter(maxLines, duration, clock), chunks, clock);
            && Texts(w.log) == BatchLines(Marked(chunks)) && w.suppressed == 0
            && w.emitted <= |BatchLines(Marked(chunks))|
  {
    StreamingEqualsBatch(chunks);
    SameLimits(NewWriter(maxLines, duration, clock), chunks, clock);
    if chunks != [] {
      var past, p := chunks[..|chunks| - 1], chunks[|chunks| - 1];
      StreamingEqualsBatch(past);
      FewLinesAreAllLogged(past, maxLines, duration, clock);
      SameLimits(NewWriter(maxLines, duration, clock), past, clock);
      EveryLineAccountedFor(past, maxLines, duration, clock);
      var w := WriteAll(NewWriter(maxLines, duration, clock), past, clock);
      SplitLinesNonEmpty(w.buffer, p);
      RotateKeepsTexts(w, clock);
      hide Split, EmitAll, BatchLines, Marked;
      EmitAllLogsAll(Filled(w, p, clock), Split(w.buffer, p).0, clock);
    }
  }

  lemma SplitLinesNonEmpty(buffer: seq<Byte>, p: seq<Byte>)
    ensures forall i :: 0 <= i < |Split(buffer, p).0| ==> Split(buffer, p).0[i] != []
  {
    BatchLinesNonEmpty(Plain(buffer + p));
  }

  /** A Write whose window is over starts a new one, in which up to the limit's lines are all logged. */
  lemma {:induction false} NewWindowLogsAgain(
    chunks: seq<seq<Byte>>, p: seq<Byte>, maxLines: int, duration: int, clock: Clock)
    requires var w := WriteAll(NewWriter(maxLines, duration, clock), chunks, clock);
             clock(w.ticks) >= w.windowStart + (if duration <= 0 then 60_000_000_000 else duration)
    requires |Lines(chunks + [p])| <= |Lines(chunks)| + if maxLines <= 0 then 200 else maxLines
    ensures |Lines(chunks)| <= |Lines(chunks + [p])|
    ensures var w0 := NewWriter(maxLines, duration, clock);
            Texts(WriteAll(w0, chunks + [p], clock).log) ==
            Texts(WriteAll(w0, chunks, clock).log) + Lines(chunks + [p])[|Lines(chunks)|..]
  {
    var w0 := NewWriter(maxLines, duration, clock);
    var w := WriteAll(w0, chunks, clock);
    var (lines, rest) := Split(w.buffer, p);
    assert (chunks + [p])[..|chunks|] == chunks;
    SameLimits(w0, chunks, clock);
    EveryLineAccountedFor(chunks, maxLines, duration, clock);
    assert Lines(chunks + [p]) == Lines(chunks) + lines;
    SplitLinesNonEmpty(w.buffer, p);
    RotateKeepsTexts(w, clock);
    hide Split, EmitAll, Texts, Lines;
    EmitAllLogsAll(Filled(w, p, clock), lines, clock);
  }

  lemma {:induction false} LogOnlyGrows(w: Writer, lines: seq<seq<Byte>>, clock: Clock)
    ensures w.log <= EmitAll(w, lines, clock).log
  {
    if lines != [] {
      LogOnlyGrows(w, lines[..|lines| - 1], clock);
    }
  }

  /** A Write whose window is over first reports what the window suppressed, even if it completes no line. */
  lemma {:induction false} WriteReportsSuppressed(
    chunks: seq<seq<Byte>>, p: seq<Byte>, maxLines: int, duration: int, clock: Clock)
    requires var w := WriteAll(NewWriter(maxLines, duration, clock), chunks, clock);
             w.suppressed > 0 && clock(w.ticks) >= w.windowStart + (if duration <= 0 then 60_000_000_000 else duration)
    ensures var w0 := NewWriter(maxLines, duration, clock);
            var w := WriteAll(w0, chunks, clock);
            w.log + [Summary(clock(w.ticks), w.suppressed)] <= WriteAll(w0, chunks + [p], clock).log
  {
    var w0 := NewWriter(maxLines, duration, clock);
    var w := WriteAll(w0, chunks, clock);
    assert (chunks + [p])[..|chunks|] == chunks;
    SameLimits(w0, chunks, clock);
    hide Split, EmitAll;
    LogOnlyGrows(Filled(w, p, clock), Split(w.buffer, p).0, clock);
  }

  // ---------------------------------------------------------------- lines as they are written

  /** Carriage returns at the end, and only those, are trimmed. */
  lemma {:induction false} TrimCRIs(s: seq<Byte>, n: nat)
    requires s == [] || s[|s| - 1] != 13
    ensures TrimCR(s + seq(n, _ => 13)) == s
  {
    var crs := seq(n, _ => 13 as Byte);
    if n == 0 {
      assert s + crs == s;
    } else {
      var all := s + crs;
      assert all[..|all| - 1] == s + seq(n - 1, _ => 13);
      TrimCRIs(s, n - 1);
    }
  }

  /** Lines of any bytes but newlines, each ended by any number of carriage returns and a newline. */
  function Written(lines: seq<seq<Byte>>, trail: nat): seq<Byte> {
    if lines == [] then [] else lines[0] + seq(trail, _ => 13) + [10] + Written(lines[1..], trail)
  }

  /** Splitting gives back the lines that were written, in order. */
  lemma {:induction false} SplittingUndoesWriting(lines: seq<seq<Byte>>, trail: nat)
    requires forall i :: 0 <= i < |lines| ==> lines[i] != [] && 10 !in lines[i] && lines[i][|lines[i]| - 1] != 13
    ensures BatchLines(Plain(Written(lines, trail))) == lines && Tail(Plain(Written(lines, trail))) == []
  {
    if lines == [] {
      assert FirstBreakAt(Plain([]), 0);
    } else {
      var line, rest := lines[0] + seq(trail, _ => 13 as Byte), Written(lines[1..], trail);
      SplittingUndoesWriting(lines[1..], trail);
      assert forall i :: 0 <= i < |line| ==> line[i] != 10;
      FirstLineOff(line, rest);
      TrimCRIs(lines[0], trail);
      hide BatchLines, Tail, TrimCR;
      assert Written(lines, trail) == line + [10] + rest;
      assert lines == [lines[0]] + lines[1..];
    }
  }

  lemma FirstLineOff(line: seq<Byte>, rest: seq<Byte>)
    requires 10 !in line
    ensures BatchLines(Plain(line + [10] + rest)) == OneLine(TrimCR(line)) + BatchLines(Plain(rest))
    ensures Tail(Plain(line + [10] + rest)) == Tail(Plain(rest))
  {
    var buffer := line + [10] + rest;
    FirstBreakIs(Plain(buffer), |line|);
    CutLine(buffer);
    assert buffer[..|line|] == line && buffer[|line| + 1..] == rest;
  }
}
