/**
 Where the output of every child goes, over any run of the parallel runner: `Hear` reads the lines of one entry off
 the events alone, and the runner's buffers and log are shown to hold exactly those lines.
 */
module RunnerOutput {
  import opened Wrappers
  import opened RunnerLines
  import opened RunnerModel
  import opened RunnerSafety

  // ---------- what an entry said ----------

  /** The lines an entry has completed so far, in arrival order, and the unfinished line of each stream. */
  datatype Heard = Heard(arrived: seq<Line>, stdoutCarry: string, stderrCarry: string)

  function HeardCarry(h: Heard, stream: Stream): string {
    if stream.Stdout? then h.stdoutCarry else h.stderrCarry
  }

  function HearLines(h: Heard, stream: Stream, lines: seq<string>, carry: string): Heard {
    var g := h.(arrived := h.arrived + Tagged(stream, lines));
    if stream.Stdout? then g.(stdoutCarry := carry) else g.(stderrCarry := carry)
  }

  /** One event, as entry `i` hears it; the other entries, exits and signals say nothing. */
  function HearEvent(h: Heard, e: Event, i: nat): Heard {
    match e
    case Data(j, stream, chunk) =>
      if j != i then h
      else
        var split := SplitLines(HeardCarry(h, stream), chunk);
        HearLines(h, stream, split.lines, split.carry)
    case StreamEnd(j, stream) =>
      if j != i || HeardCarry(h, stream) == "" then h
      else HearLines(h, stream, [HeardCarry(h, stream) + "\n"], "")
    case _ => h
  }

  function Hear(events: seq<Event>, i: nat): Heard {
    if events == [] then Heard([], "", "")
    else HearEvent(Hear(events[..|events| - 1], i), events[|events| - 1], i)
  }

  /** Every event of the list could be delivered when it was: from an existing child, before the run resolved. */
  predicate Possible(env: Env, s: RunnerState, events: seq<Event>) {
    events == [] || (Possible(env, s, events[..|events| - 1])
                     && Enabled(env, Run(env, s, events[..|events| - 1]), events[|events| - 1]))
  }

  // ---------- the buffers hold it ----------

  /** The lines written through for entry `i`. */
  function Logged(log: seq<Write>, i: nat): seq<Line> {
    if log == [] then []
    else Logged(log[..|log| - 1], i) + if log[|log| - 1].entry == i then [log[|log| - 1].line] else []
  }

  lemma LoggedAppend(log: seq<Write>, w: Write, i: nat)
    ensures Logged(log + [w], i) == Logged(log, i) + if w.entry == i then [w.line] else []
  {
    assert (log + [w])[..|log|] == log;
  }

  lemma {:induction false} LoggedFlush(log: seq<Write>, k: nat, lines: seq<Line>, i: nat)
    ensures Logged(log + Writes(k, lines), i) == Logged(log, i) + if k == i then lines else []
  {
    if lines == [] {
      assert log + Writes(k, lines) == log;
    } else {
      var init, last := lines[..|lines| - 1], lines[|lines| - 1];
      LoggedFlush(log, k, init, i);
      WritesAppend(log, k, init, last);
      LoggedAppend(log + Writes(k, init), Write(k, last), i);
      assert init + [last] == lines;
    }
  }

  lemma WritesAppend(log: seq<Write>, k: nat, lines: seq<Line>, line: Line)
    ensures log + Writes(k, lines + [line]) == (log + Writes(k, lines)) + [Write(k, line)]
  {
  }

  /** What entry `i` has shown or is waiting to show. */
  function Output(s: RunnerState, i: nat): seq<Line>
    requires i < |s.entries|
  {
    Logged(s.log, i) + s.entries[i].outBuf
  }

  /** Entry `i` has written or holds exactly the lines `arrived`, each where it belongs and in arrival order. */
  predicate Holds(t: Tests, s: RunnerState, i: nat, arrived: seq<Line>) {
    i < |s.entries| && Output(s, i) == Shown(t, arrived)
    && s.entries[i].failureBuf == FailureLines(t, arrived) && s.entries[i].stderrErrBuf == ErrorLines(t, arrived)
    && (s.entries[i].stdoutInFailure <==> Failing(t, arrived))
  }

  predicate Accounted(t: Tests, s: RunnerState, i: nat, h: Heard) {
    Holds(t, s, i, h.arrived) && s.entries[i].stdoutCarry == h.stdoutCarry && s.entries[i].stderrCarry == h.stderrCarry
  }

  /** The output of entry `j` is the same in both states, the buffer and the log taken together. */
  predicate SameOutput(s: RunnerState, t: RunnerState, j: nat) {
    |t.entries| == |s.entries| && j < |s.entries| && Output(t, j) == Output(s, j)
    && t.entries[j].failureBuf == s.entries[j].failureBuf && t.entries[j].stderrErrBuf == s.entries[j].stderrErrBuf
    && t.entries[j].stdoutInFailure == s.entries[j].stdoutInFailure
    && t.entries[j].stdoutCarry == s.entries[j].stdoutCarry && t.entries[j].stderrCarry == s.entries[j].stderrCarry
  }

  lemma EmitOutput(s: RunnerState, i: nat, line: Line)
    requires i < |s.entries| && (i == s.activeIndex ==> s.entries[i].outBuf == [])
    ensures Output(Emit(s, i, line), i) == Output(s, i) + [line]
  {
    if i == s.activeIndex {
      LoggedAppend(s.log, Write(i, line), i);
      assert Logged(s.log, i) + [line] + [] == Logged(s.log, i) + [] + [line];
    } else {
      assert Logged(s.log, i) + (s.entries[i].outBuf + [line]) == Logged(s.log, i) + s.entries[i].outBuf + [line];
    }
  }

  /** A line of entry `i` joins what it has heard. */
  lemma HandleLineHolds(env: Env, s: RunnerState, i: nat, line: Line, arrived: seq<Line>)
    requires i < |s.entries| && Activated(s.entries, s.activeIndex) && Holds(env.tests, s, i, arrived)
    ensures Holds(env.tests, HandleLine(env, s, i, line), i, arrived + [line])
  {
    RouteAppend(env.tests, arrived, line);
    if line.stream.Stderr? && !env.tests.isWarning(line.text) {
    } else if line.stream.Stdout? && (s.entries[i].stdoutInFailure || env.tests.isFailureStart(line.text)) {
    } else {
      EmitOutput(s, i, line);
      EmitRoutes(s, i, line);
    }
  }

  /** Where one more line goes. */
  lemma RouteAppend(t: Tests, arrived: seq<Line>, line: Line)
    ensures var all := arrived + [line];
            var failing := Failing(t, arrived) || (line.stream.Stdout? && t.isFailureStart(line.text));
            (Failing(t, all) <==> failing)
            && Shown(t, all) == Shown(t, arrived)
                                + (if (if line.stream.Stdout? then !failing else t.isWarning(line.text)) then [line]
                                   else [])
            && FailureLines(t, all)
               == FailureLines(t, arrived) + (if line.stream.Stdout? && failing then [line.text] else [])
            && ErrorLines(t, all)
               == ErrorLines(t, arrived) + (if line.stream.Stderr? && !t.isWarning(line.text) then [line.text] else [])
  {
    FailingAppend(t, arrived, line);
    assert (arrived + [line])[..|arrived|] == arrived;
  }

  /** An update of one entry changes nothing for the others. */
  lemma SetOther(s: RunnerState, i: nat, e: EntryState, j: nat)
    requires i < |s.entries| && j < |s.entries| && i != j
    ensures SameOutput(s, SetEntry(s, i, e), j)
  {
  }

  lemma EmitOther(s: RunnerState, i: nat, line: Line, j: nat)
    requires i < |s.entries| && j < |s.entries| && i != j
    ensures SameOutput(s, Emit(s, i, line), j)
  {
    if i == s.activeIndex {
      LoggedAppend(s.log, Write(i, line), j);
      assert Logged(s.log, j) + [] == Logged(s.log, j);
    } else {
      SetOther(s, i, s.entries[i].(outBuf := s.entries[i].outBuf + [line]), j);
    }
  }

  lemma HandleLineOther(env: Env, s: RunnerState, i: nat, line: Line, j: nat)
    requires i < |s.entries| && j < |s.entries| && i != j
    ensures SameOutput(s, HandleLine(env, s, i, line), j)
  {
    var e := s.entries[i];
    if line.stream.Stderr? && !env.tests.isWarning(line.text) {
      SetOther(s, i, e.(stderrErrBuf := e.stderrErrBuf + [line.text]), j);
    } else if line.stream.Stdout? && (e.stdoutInFailure || env.tests.isFailureStart(line.text)) {
      SetOther(s, i, e.(stdoutInFailure := true, failureBuf := e.failureBuf + [line.text]), j);
    } else {
      EmitOther(s, i, line, j);
    }
  }

  lemma {:induction false} HandleLinesHolds(env: Env, s: RunnerState, i: nat, lines: seq<Line>, arrived: seq<Line>)
    requires Core(s) && i < s.idx && Holds(env.tests, s, i, arrived)
    ensures Holds(env.tests, HandleLines(env, s, i, lines), i, arrived + lines)
  {
    if lines == [] {
      assert arrived + lines == arrived;
    } else {
      var init, last := lines[..|lines| - 1], lines[|lines| - 1];
      var t := HandleLines(env, s, i, init);
      HandleLinesHolds(env, s, i, init, arrived);
      assert Activated(t.entries, t.activeIndex) by {
        HandleLinesKeeps(env, s, i, init);
      }
      HandleLineHolds(env, t, i, last, arrived + init);
      assert arrived + init + [last] == arrived + lines;
    }
  }

  lemma {:induction false} HandleLinesOther(env: Env, s: RunnerState, i: nat, lines: seq<Line>, j: nat)
    requires i < |s.entries| && j < |s.entries| && i != j
    ensures SameOutput(s, HandleLines(env, s, i, lines), j)
  {
    if lines != [] {
      var init, last := lines[..|lines| - 1], lines[|lines| - 1];
      var t := HandleLines(env, s, i, init);
      HandleLinesOther(env, s, i, init, j);
      HandleLineOther(env, t, i, last, j);
      SameTwice(s, t, HandleLines(env, s, i, lines), j);
    }
  }

  lemma ChunkAccounts(env: Env, s: RunnerState, i: nat, stream: Stream, chunk: string, h: Heard)
    requires Core(s) && i < s.idx && Accounted(env.tests, s, i, h)
    ensures var split := SplitLines(HeardCarry(h, stream), chunk);
            Accounted(env.tests, HandleChunk(env, s, i, stream, chunk), i,
                      HearLines(h, stream, split.lines, split.carry))
  {
    var split := SplitLines(HeardCarry(h, stream), chunk);
    var t := SetEntry(s, i, WithCarry(s.entries[i], stream, split.carry));
    SetOutputKeeps(s, i, t.entries[i]);
    SetCarryHolds(env.tests, s, i, stream, split.carry, h.arrived);
    HandleLinesHolds(env, t, i, Tagged(stream, split.lines), h.arrived);
    HandleLinesRoutes(env, t, i, Tagged(stream, split.lines));
  }

  lemma ChunkOther(env: Env, s: RunnerState, i: nat, stream: Stream, chunk: string, j: nat)
    requires i < |s.entries| && j < |s.entries| && i != j
    ensures SameOutput(s, HandleChunk(env, s, i, stream, chunk), j)
  {
    var split := SplitLines(Carry(s.entries[i], stream), chunk);
    var t := SetEntry(s, i, WithCarry(s.entries[i], stream, split.carry));
    SetOther(s, i, t.entries[i], j);
    HandleLinesOther(env, t, i, Tagged(stream, split.lines), j);
    SameTwice(s, t, HandleChunk(env, s, i, stream, chunk), j);
  }

  lemma CloseAccounts(env: Env, s: RunnerState, i: nat, stream: Stream, h: Heard)
    requires Core(s) && i < s.idx && Accounted(env.tests, s, i, h)
    ensures var carry := HeardCarry(h, stream);
            Accounted(env.tests, CloseCarry(env, s, i, stream), i,
                      if carry == "" then h else HearLines(h, stream, [carry + "\n"], ""))
  {
    var carry := HeardCarry(h, stream);
    if carry != "" {
      var line := Line(stream, carry + "\n");
      var t := HandleLine(env, s, i, line);
      HandleLineHolds(env, s, i, line, h.arrived);
      HandleLineRoutes(env, s, i, line);
      assert Tagged(stream, [carry + "\n"]) == [line];
      SetCarryHolds(env.tests, t, i, stream, "", h.arrived + [line]);
    }
  }

  lemma SetCarryHolds(t: Tests, s: RunnerState, i: nat, stream: Stream, carry: string, arrived: seq<Line>)
    requires Holds(t, s, i, arrived)
    ensures Holds(t, SetEntry(s, i, WithCarry(s.entries[i], stream, carry)), i, arrived)
  {
  }

  lemma CloseOther(env: Env, s: RunnerState, i: nat, stream: Stream, j: nat)
    requires Core(s) && i < s.idx && j < |s.entries| && i != j
    ensures SameOutput(s, CloseCarry(env, s, i, stream), j)
  {
    HandleLineOther(env, s, i, Line(stream, Carry(s.entries[i], stream) + "\n"), j);
  }

  /** Flushing moves lines from the buffer to the log. */
  lemma FlushOutput(s: RunnerState, j: nat)
    requires j < |s.entries|
    ensures SameOutput(s, FlushActive(s), j)
  {
    if s.activeIndex < |s.entries| {
      LoggedFlush(s.log, s.activeIndex, s.entries[s.activeIndex].outBuf, j);
    }
  }

  lemma {:induction false} AdvanceOutput(s: RunnerState, j: nat)
    requires Activated(s.entries, s.activeIndex) && j < |s.entries|
    ensures SameOutput(s, AdvanceActive(s), j)
    decreases |s.entries| - s.activeIndex
  {
    if s.activeIndex < |s.entries| && Finished(s.entries[s.activeIndex]) {
      var t := s.(activeIndex := s.activeIndex + 1);
      AdvanceOnce(s);
      FlushNextActivated(s);
      FlushOutput(t, j);
      AdvanceOutput(FlushActive(t), j);
    }
  }

  lemma SettlingOutput(env: Env, s: RunnerState, i: nat, e: EntryState, j: nat)
    requires Core(s) && i < s.idx && !s.entries[i].exited && j < |s.entries|
    requires e.started && e.exited && SameOutput(s, SetEntry(s, i, e), i) && e.outBuf == s.entries[i].outBuf
    ensures SameOutput(s, AfterSettling(env, Settle(s, i, e)), j)
  {
    var t := Settle(s, i, e);
    SettleKeeps(s, i, e);
    assert SameOutput(s, t, j);
    AfterSettlingOutput(env, t, j);
    SameTwice(s, t, AfterSettling(env, t), j);
  }

  lemma AfterSettlingOutput(env: Env, t: RunnerState, j: nat)
    requires Core(t) && j < |t.entries|
    ensures SameOutput(t, AfterSettling(env, t), j)
  {
    AfterSettlingFrames(env, t);
    var u := LaunchNext(env, t);
    LaunchOutput(env, t, u.(resolved := t.resolved), j);
    AdvanceOutput(u, j);
    SameTwice(t, u, AdvanceActive(u), j);
  }

  lemma SameTwice(s: RunnerState, t: RunnerState, u: RunnerState, j: nat)
    requires SameOutput(s, t, j) && SameOutput(t, u, j)
    ensures SameOutput(s, u, j)
  {
  }

  lemma LaunchOutput(env: Env, s: RunnerState, t: RunnerState, j: nat)
    requires StartedUpTo(s.entries, s.idx) && OnlyLaunched(env, s, t) && j < |s.entries|
    ensures SameOutput(s, t, j)
  {
  }

  lemma SameAccounts(t: Tests, s: RunnerState, u: RunnerState, j: nat, h: Heard)
    requires Accounted(t, s, j, h) && SameOutput(s, u, j)
    ensures Accounted(t, u, j, h)
  {
  }

  /** One event: entry `j` has heard it if it was its own, and nothing else changed for it. */
  lemma StepAccounts(env: Env, s: RunnerState, e: Event, j: nat, h: Heard)
    requires Invariant(s) && Enabled(env, s, e) && j < |s.entries| && Accounted(env.tests, s, j, h)
    ensures Accounted(env.tests, Step(env, s, e), j, HearEvent(h, e, j))
  {
    match e
    case Data(i, stream, chunk) => DataAccounts(env, s, i, stream, chunk, j, h);
    case StreamEnd(i, stream) => EndAccounts(env, s, i, stream, j, h);
    case ChildError(i) => ErrorAccounts(env, s, i, j, h);
    case ChildExit(i, code, signal) => ExitAccounts(env, s, i, code, signal, j, h);
    case Signal(sigint) => SignalAccounts(env.tests, s, sigint, j, h);
  }

  lemma DataAccounts(env: Env, s: RunnerState, i: nat, stream: Stream, chunk: string, j: nat, h: Heard)
    requires Core(s) && i < s.idx && j < |s.entries| && Accounted(env.tests, s, j, h)
    ensures var split := SplitLines(HeardCarry(h, stream), chunk);
            Accounted(env.tests, HandleChunk(env, s, i, stream, chunk), j,
                      if i != j then h else HearLines(h, stream, split.lines, split.carry))
  {
    if i == j {
      ChunkAccounts(env, s, i, stream, chunk, h);
    } else {
      ChunkOther(env, s, i, stream, chunk, j);
      SameAccounts(env.tests, s, HandleChunk(env, s, i, stream, chunk), j, h);
    }
  }

  lemma ErrorAccounts(env: Env, s: RunnerState, i: nat, j: nat, h: Heard)
    requires Core(s) && i < s.idx && j < |s.entries| && Accounted(env.tests, s, j, h)
    ensures Accounted(env.tests, OnError(env, s, i), j, h)
  {
    if !s.entries[i].exited {
      SettlingOutput(env, s, i, SpawnFailed(s.entries[i]), j);
      SameAccounts(env.tests, s, OnError(env, s, i), j, h);
    }
  }

  lemma ExitAccounts(env: Env, s: RunnerState, i: nat, code: Option<int>, signal: Option<string>, j: nat, h: Heard)
    requires Core(s) && i < s.idx && j < |s.entries| && Accounted(env.tests, s, j, h)
    ensures Accounted(env.tests, OnExit(env, s, i, code, signal), j, h)
  {
    if !s.entries[i].exited {
      SettlingOutput(env, s, i, s.entries[i].(exited := true, code := code, signal := signal), j);
      SameAccounts(env.tests, s, OnExit(env, s, i, code, signal), j, h);
    }
  }

  lemma SignalAccounts(t: Tests, s: RunnerState, sigint: bool, j: nat, h: Heard)
    requires j < |s.entries| && Accounted(t, s, j, h)
    ensures Accounted(t, OnSignal(s, sigint), j, h)
  {
  }

  lemma SetEndedOutput(s: RunnerState, i: nat, stream: Stream, j: nat)
    requires i < |s.entries| && j < |s.entries|
    ensures SameOutput(s, SetEntry(s, i, WithEnded(s.entries[i], stream)), j)
  {
  }

  lemma EndAccounts(env: Env, s: RunnerState, i: nat, stream: Stream, j: nat, h: Heard)
    requires Core(s) && i < s.idx && j < |s.entries| && Accounted(env.tests, s, j, h)
    ensures var carry := HeardCarry(h, stream);
            Accounted(env.tests, EndStream(env, s, i, stream), j,
                      if i != j || carry == "" then h else HearLines(h, stream, [carry + "\n"], ""))
  {
    var t := CloseCarry(env, s, i, stream);
    var g := if i != j || HeardCarry(h, stream) == "" then h
             else HearLines(h, stream, [HeardCarry(h, stream) + "\n"], "");
    EndFrames(env, s, i, stream);
    if i == j {
      CloseAccounts(env, s, i, stream, h);
    } else {
      CloseOther(env, s, i, stream, j);
      SameAccounts(env.tests, s, t, j, h);
    }
    var u := SetEntry(t, i, WithEnded(t.entries[i], stream));
    AdvanceOutput(u, j);
    SetEndedOutput(t, i, stream, j);
    SameAccounts(env.tests, t, u, j, g);
    SameAccounts(env.tests, u, AdvanceActive(u), j, g);
  }

  lemma BeginAccounts(env: Env, files: seq<string>, jobs: nat, j: nat)
    requires j < |files|
    ensures Accounted(env.tests, Begin(env, files, jobs), j, Heard([], "", ""))
  {
    var idle := Idle(files, jobs);
    BeginFrames(env, files, jobs);
    assert Accounted(env.tests, idle, j, Heard([], "", ""));
    var t := Begin(env, files, jobs).(resolved := false);
    LaunchOutput(env, idle, t, j);
    SameAccounts(env.tests, idle, t, j, Heard([], "", ""));
  }

  /**
   Every run: nothing an entry says is lost, duplicated or reordered. What it logged, followed by what waits in its
   buffer, is its shown lines in arrival order; its other lines are in the two error buffers.
   */
  lemma {:induction false} EveryRunAccounts(env: Env, files: seq<string>, jobs: nat, events: seq<Event>, j: nat)
    requires jobs > 0 && j < |files| && Possible(env, Begin(env, files, jobs), events)
    ensures Accounted(env.tests, Run(env, Begin(env, files, jobs), events), j, Hear(events, j))
  {
    if events == [] {
      BeginAccounts(env, files, jobs, j);
    } else {
      var init, e := events[..|events| - 1], events[|events| - 1];
      EveryRunAccounts(env, files, jobs, init, j);
      EveryRunKeepsInvariant(env, files, jobs, init);
      StepAccounts(env, Run(env, Begin(env, files, jobs), init), e, j, Hear(init, j));
    }
  }

  // ---------- routing ignores chunking ----------

  /** Everything entry `i` sent on a stream, in one piece. */
  function StreamText(events: seq<Event>, i: nat, stream: Stream): string {
    if events == [] then ""
    else
      var e := events[|events| - 1];
      StreamText(events[..|events| - 1], i, stream)
      + if e.Data? && e.entry == i && e.stream == stream then e.chunk else ""
  }

  predicate Closed(events: seq<Event>, i: nat, stream: Stream) {
    StreamEnd(i, stream) in events
  }

  /** Nothing follows the end of the stream. */
  predicate EndsOnce(events: seq<Event>, i: nat, stream: Stream) {
    events == []
    || (EndsOnce(events[..|events| - 1], i, stream)
        && var e := events[|events| - 1];
           Closed(events[..|events| - 1], i, stream) ==>
             !((e.Data? || e.StreamEnd?) && e.entry == i && e.stream == stream))
  }

  /** The lines of a whole text; a last line without a newline gets one once the stream is closed. */
  function TextLines(text: string, closed: bool): Split {
    var cut := SplitLines("", text);
    if closed && cut.carry != "" then Split(cut.lines + [cut.carry + "\n"], "") else cut
  }

  lemma {:induction false} OfTagged(stream: Stream, arrived: seq<Line>, from: Stream, texts: seq<string>)
    ensures Of(stream, arrived + Tagged(from, texts)) == Of(stream, arrived) + if from == stream then texts else []
  {
    if texts == [] {
      assert arrived + Tagged(from, texts) == arrived;
      assert Of(stream, arrived) + [] == Of(stream, arrived);
    } else {
      var init, last := texts[..|texts| - 1], texts[|texts| - 1];
      OfTagged(stream, arrived, from, init);
      OfAppend(stream, arrived + Tagged(from, init), Line(from, last));
      TaggedLast(arrived, from, init, last);
      LastText(Of(stream, arrived), init, last);
      assert init + [last] == texts;
    }
  }

  lemma TaggedLast(arrived: seq<Line>, from: Stream, init: seq<string>, last: string)
    ensures arrived + Tagged(from, init + [last]) == arrived + Tagged(from, init) + [Line(from, last)]
  {
    TaggedAppend(from, init, last);
  }

  lemma LastText(before: seq<string>, init: seq<string>, last: string)
    ensures before + init + [last] == before + (init + [last])
  {
  }

  /** What is heard on a stream depends on its text alone, however the text was cut into chunks. */
  lemma {:induction false} HearIsText(events: seq<Event>, i: nat, stream: Stream)
    requires EndsOnce(events, i, stream)
    ensures var h := Hear(events, i);
            Split(Of(stream, h.arrived), HeardCarry(h, stream))
            == TextLines(StreamText(events, i, stream), Closed(events, i, stream))
  {
    if events == [] {
      CarryIsOnePart("");
      assert "" + "" == "";
    } else {
      var init, e := events[..|events| - 1], events[|events| - 1];
      HearIsText(init, i, stream);
      assert events == init + [e];
      HearMore(init, e, i, stream);
    }
  }

  lemma HearMore(init: seq<Event>, e: Event, i: nat, stream: Stream)
    requires EndsOnce(init + [e], i, stream)
    requires var h := Hear(init, i);
             Split(Of(stream, h.arrived), HeardCarry(h, stream))
               == TextLines(StreamText(init, i, stream), Closed(init, i, stream))
    ensures var h := Hear(init + [e], i);
            Split(Of(stream, h.arrived), HeardCarry(h, stream))
            == TextLines(StreamText(init + [e], i, stream), Closed(init + [e], i, stream))
  {
    assert (init + [e])[..|init|] == init;
    var h := Hear(init, i);
    assert StreamText(init, i, stream) + "" == StreamText(init, i, stream);
    assert Closed(init + [e], i, stream) <==> Closed(init, i, stream) || e == StreamEnd(i, stream);
    match e
    case Data(j, from, chunk) =>
      if j == i {
        HearData(h, from, chunk, stream, StreamText(init, i, stream));
      }
    case StreamEnd(j, from) =>
      if j == i {
        HearEnd(h, from, stream, StreamText(init, i, stream));
      }
    case _ =>
  }

  /** The end of the same stream completes its last line; the end of the other stream leaves it alone. */
  lemma HearEnd(h: Heard, from: Stream, stream: Stream, text: string)
    ensures var carry := HeardCarry(h, from);
            var g := if carry == "" then h else HearLines(h, from, [carry + "\n"], "");
            if from != stream then
              Of(stream, g.arrived) == Of(stream, h.arrived) && HeardCarry(g, stream) == HeardCarry(h, stream)
            else Split(Of(stream, h.arrived), HeardCarry(h, stream)) == TextLines(text, false)
                 ==> Split(Of(stream, g.arrived), HeardCarry(g, stream)) == TextLines(text, true)
  {
    OfTagged(stream, h.arrived, from, [HeardCarry(h, from) + "\n"]);
    assert Of(stream, h.arrived) + [] == Of(stream, h.arrived);
  }

  /** A chunk on the same stream extends its lines; one on the other stream leaves them alone. */
  lemma HearData(h: Heard, from: Stream, chunk: string, stream: Stream, text: string)
    ensures var split := SplitLines(HeardCarry(h, from), chunk);
            var g := HearLines(h, from, split.lines, split.carry);
            if from != stream then
              Of(stream, g.arrived) == Of(stream, h.arrived) && HeardCarry(g, stream) == HeardCarry(h, stream)
            else Split(Of(stream, h.arrived), HeardCarry(h, stream)) == SplitLines("", text)
                 ==> Split(Of(stream, g.arrived), HeardCarry(g, stream)) == SplitLines("", text + chunk)
  {
    var split := SplitLines(HeardCarry(h, from), chunk);
    OfTagged(stream, h.arrived, from, split.lines);
    SplitInChunks(text, chunk);
    assert Of(stream, h.arrived) + [] == Of(stream, h.arrived);
  }

  /** The lines of a list that are not warnings. */
  function NotWarnings(t: Tests, texts: seq<string>): seq<string> {
    if texts == [] then []
    else
      var last := texts[|texts| - 1];
      NotWarnings(t, texts[..|texts| - 1]) + if t.isWarning(last) then [] else [last]
  }

  /** The lines of a list that are warnings. */
  function Warnings(t: Tests, texts: seq<string>): seq<string> {
    if texts == [] then []
    else
      var last := texts[|texts| - 1];
      Warnings(t, texts[..|texts| - 1]) + if t.isWarning(last) then [last] else []
  }

  lemma WarningsAppend(t: Tests, texts: seq<string>, text: string)
    ensures Warnings(t, texts + [text]) == Warnings(t, texts) + if t.isWarning(text) then [text] else []
  {
    assert (texts + [text])[..|texts|] == texts;
  }

  lemma {:induction false} WarningsByStream(t: Tests, arrived: seq<Line>)
    ensures Of(Stderr, Shown(t, arrived)) == Warnings(t, Of(Stderr, arrived))
  {
    if arrived != [] {
      var init, last := arrived[..|arrived| - 1], arrived[|arrived| - 1];
      var shown := Shown(t, init);
      WarningsByStream(t, init);
      assert init + [last] == arrived;
      RouteAppend(t, init, last);
      OfAppend(Stderr, init, last);
      OfAppend(Stderr, shown, last);
      if last.stream.Stderr? {
        WarningsAppend(t, Of(Stderr, init), last.text);
      }
      assert shown + [] == shown;
    }
  }

  lemma {:induction false} ErrorsByStream(t: Tests, arrived: seq<Line>)
    ensures ErrorLines(t, arrived) == NotWarnings(t, Of(Stderr, arrived))
  {
    if arrived != [] {
      var init, last := arrived[..|arrived| - 1], arrived[|arrived| - 1];
      ErrorsByStream(t, init);
      var before, after := Of(Stderr, init), Of(Stderr, arrived);
      if last.stream.Stderr? {
        assert after == before + [last.text] && after[..|after| - 1] == before;
      } else {
        assert after == before;
      }
    }
  }

  /** What entry `i` holds, from the lines of its two streams. */
  predicate Routed(t: Tests, s: RunnerState, i: nat, stdout: seq<string>, stderr: seq<string>) {
    var start := ReportStart(t, stdout);
    i < |s.entries| && start <= |stdout|
    && s.entries[i].failureBuf == stdout[start..] && Of(Stdout, Output(s, i)) == stdout[..start]
    && s.entries[i].stderrErrBuf == NotWarnings(t, stderr) && Of(Stderr, Output(s, i)) == Warnings(t, stderr)
  }

  lemma HeldIsRouted(t: Tests, s: RunnerState, i: nat, arrived: seq<Line>)
    requires Holds(t, s, i, arrived)
    ensures Routed(t, s, i, Of(Stdout, arrived), Of(Stderr, arrived))
  {
    RoutingByStream(t, arrived);
    ErrorsByStream(t, arrived);
    WarningsByStream(t, arrived);
  }

  /** The lines of everything an entry sent on a stream. */
  function LinesOf(events: seq<Event>, i: nat, stream: Stream): seq<string> {
    TextLines(StreamText(events, i, stream), Closed(events, i, stream)).lines
  }

  /**
   The buffers of an entry after any run, from the text of its two streams: the failure report, the shown stdout
   lines, the shown warnings and the error lines are the same for every chunking and every interleaving.
   */
  lemma RoutingIgnoresChunking(env: Env, files: seq<string>, jobs: nat, events: seq<Event>, i: nat)
    requires jobs > 0 && i < |files| && Possible(env, Begin(env, files, jobs), events)
    requires EndsOnce(events, i, Stdout) && EndsOnce(events, i, Stderr)
    ensures Routed(env.tests, Run(env, Begin(env, files, jobs), events), i,
                   LinesOf(events, i, Stdout), LinesOf(events, i, Stderr))
  {
    var arrived := Hear(events, i).arrived;
    HeardLines(events, i, Stdout);
    HeardLines(events, i, Stderr);
    EveryRunAccounts(env, files, jobs, events, i);
    HeldIsRouted(env.tests, Run(env, Begin(env, files, jobs), events), i, arrived);
  }

  lemma HeardLines(events: seq<Event>, i: nat, stream: Stream)
    requires EndsOnce(events, i, stream)
    ensures Of(stream, Hear(events, i).arrived) == LinesOf(events, i, stream)
  {
    HearIsText(events, i, stream);
  }
}
