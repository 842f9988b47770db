/**
 What every run of the parallel runner keeps: slot accounting, the failure list, the order of the output, the active
 entry, the exit status and the moment the run resolves.
 */
module RunnerSafety {
  import opened Wrappers
  import opened RunnerLines
  import opened RunnerModel

  // ---------- the invariant ----------

  /** Started entries that have not exited. */
  function Live(entries: seq<EntryState>): nat {
    if entries == [] then 0
    else
      var last := entries[|entries| - 1];
      Live(entries[..|entries| - 1]) + if last.started && !last.exited then 1 else 0
  }

  /** Entries start in order, and an entry that has not started is untouched. */
  predicate StartedUpTo(entries: seq<EntryState>, idx: nat) {
    forall i :: 0 <= i < |entries| ==> (entries[i].started <==> i < idx) && (i >= idx ==> entries[i] == FRESH)
  }

  predicate Shape(s: RunnerState) {
    |s.entries| == |s.files| && s.idx <= |s.files| && s.activeIndex <= |s.files| && StartedUpTo(s.entries, s.idx)
  }

  predicate FailedEntry(e: EntryState) {
    e.exited && Bad(e.code, e.signal)
  }

  function FailureOf(file: string, e: EntryState, i: nat): FailedFile {
    FailedFile(i, file, e.code, e.signal)
  }

  /** The failure list holds each badly exited entry once, with its exit, and nothing else. */
  predicate Recorded(files: seq<string>, entries: seq<EntryState>, failed: seq<FailedFile>)
    requires |files| == |entries|
  {
    (forall k, l :: 0 <= k < l < |failed| ==> failed[k].entry != failed[l].entry)
    && (forall k :: 0 <= k < |failed| ==>
          var i := failed[k].entry;
          i < |entries| && FailedEntry(entries[i]) && failed[k] == FailureOf(files[i], entries[i], i))
    && forall i :: 0 <= i < |entries| && FailedEntry(entries[i]) ==> FailureOf(files[i], entries[i], i) in failed
  }

  /** The log never goes back to an earlier entry. */
  predicate Sorted(log: seq<Write>, activeIndex: nat, n: nat) {
    (forall p, q :: 0 <= p <= q < |log| ==> log[p].entry <= log[q].entry)
    && forall p :: 0 <= p < |log| ==> log[p].entry <= activeIndex && log[p].entry < n
  }

  /** The active entry holds nothing back, and every entry before it has finished. */
  predicate Activated(entries: seq<EntryState>, activeIndex: nat) {
    (activeIndex < |entries| ==> entries[activeIndex].outBuf == [])
    && forall i :: 0 <= i < activeIndex && i < |entries| ==> Finished(entries[i])
  }

  predicate ExitStatus(s: RunnerState) {
    if s.interrupted then s.exitCode == Some(130) || s.exitCode == Some(143)
    else s.exitCode == if s.failures > 0 then Some(1) else None
  }

  predicate Core(s: RunnerState) {
    Shape(s) && s.running == Live(s.entries) && s.running <= s.jobs && s.failures == |s.failed|
    && Recorded(s.files, s.entries, s.failed) && Sorted(s.log, s.activeIndex, |s.entries|)
    && Activated(s.entries, s.activeIndex) && ExitStatus(s)
  }

  /** Between two events: free slots are used, and the run has resolved exactly when nothing is left to wait for. */
  predicate Settled(s: RunnerState) {
    (!s.interrupted ==> s.running == s.jobs || s.idx == |s.files|)
    && (s.resolved <==> s.running == 0 && (s.idx == |s.files| || s.interrupted))
  }

  predicate Invariant(s: RunnerState) {
    Core(s) && Settled(s)
  }

  /** The active index is the length of the longest prefix of finished entries. */
  predicate Synced(s: RunnerState) {
    s.activeIndex <= |s.entries| && (forall i :: 0 <= i < s.activeIndex ==> Finished(s.entries[i]))
    && (s.activeIndex < |s.entries| ==> !Finished(s.entries[s.activeIndex]))
  }

  // ---------- updates of one entry ----------

  lemma {:induction false} LiveUpdate(entries: seq<EntryState>, i: nat, e: EntryState)
    requires i < |entries|
    ensures Live(entries[i := e]) + (if entries[i].started && !entries[i].exited then 1 else 0)
            == Live(entries) + if e.started && !e.exited then 1 else 0
  {
    var n := |entries| - 1;
    if i < n {
      LiveUpdate(entries[..n], i, e);
      assert entries[i := e][..n] == entries[..n][i := e];
    } else {
      assert entries[i := e][..n] == entries[..n];
    }
  }

  /** `e` differs from `d` in its output only. */
  predicate OutputChange(d: EntryState, e: EntryState) {
    e.started == d.started && e.exited == d.exited && e.code == d.code && e.signal == d.signal
    && (d.stdoutEnded ==> e.stdoutEnded) && (d.stderrEnded ==> e.stderrEnded)
  }

  lemma SetOutputRecords(files: seq<string>, entries: seq<EntryState>, i: nat, e: EntryState, idx: nat,
                         failed: seq<FailedFile>)
    requires |files| == |entries| && i < |entries| && StartedUpTo(entries, idx) && Recorded(files, entries, failed)
    requires OutputChange(entries[i], e)
    requires i < idx || e == entries[i]
    ensures StartedUpTo(entries[i := e], idx) && Recorded(files, entries[i := e], failed)
    ensures Live(entries[i := e]) == Live(entries)
  {
    LiveUpdate(entries, i, e);
    SetOutputRecorded(files, entries, i, e, failed);
  }

  lemma SetOutputRecorded(files: seq<string>, entries: seq<EntryState>, i: nat, e: EntryState, failed: seq<FailedFile>)
    requires |files| == |entries| && i < |entries| && Recorded(files, entries, failed) && OutputChange(entries[i], e)
    ensures Recorded(files, entries[i := e], failed)
  {
  }

  lemma SetOutputKeeps(s: RunnerState, i: nat, e: EntryState)
    requires Core(s) && i < s.idx && OutputChange(s.entries[i], e) && (i == s.activeIndex ==> e.outBuf == [])
    ensures Core(SetEntry(s, i, e))
  {
    SetOutputRecords(s.files, s.entries, i, e, s.idx, s.failed);
  }

  /** `t` is `s` with more output of entry `i`. */
  predicate OnlyOutput(s: RunnerState, t: RunnerState, i: nat) {
    t == s.(entries := t.entries, log := t.log) && |t.entries| == |s.entries| && i < |s.entries|
    && OutputChange(s.entries[i], t.entries[i])
    && forall j :: 0 <= j < |s.entries| && j != i ==> t.entries[j] == s.entries[j]
  }

  /** `e` is `d` with lines added to its buffers. */
  predicate RoutedChange(d: EntryState, e: EntryState) {
    e == d.(outBuf := e.outBuf, stderrErrBuf := e.stderrErrBuf, failureBuf := e.failureBuf,
            stdoutInFailure := e.stdoutInFailure)
  }

  /** `t` is `s` with lines of entry `i` put in their places. */
  predicate OnlyRouted(s: RunnerState, t: RunnerState, i: nat) {
    t == s.(entries := t.entries, log := t.log) && |t.entries| == |s.entries| && i < |s.entries|
    && RoutedChange(s.entries[i], t.entries[i])
    && forall j :: 0 <= j < |s.entries| && j != i ==> t.entries[j] == s.entries[j]
  }

  lemma EmitKeeps(s: RunnerState, i: nat, line: Line)
    requires Core(s) && i < s.idx
    ensures var t := Emit(s, i, line); Core(t) && OnlyRouted(s, t, i)
  {
    if i != s.activeIndex {
      SetOutputKeeps(s, i, s.entries[i].(outBuf := s.entries[i].outBuf + [line]));
    }
  }

  lemma HandleLineKeeps(env: Env, s: RunnerState, i: nat, line: Line)
    requires Core(s) && i < s.idx
    ensures var t := HandleLine(env, s, i, line); Core(t) && OnlyRouted(s, t, i)
  {
    var e := s.entries[i];
    if line.stream.Stderr? && !env.tests.isWarning(line.text) {
      SetOutputKeeps(s, i, e.(stderrErrBuf := e.stderrErrBuf + [line.text]));
    } else if line.stream.Stdout? && (e.stdoutInFailure || env.tests.isFailureStart(line.text)) {
      SetOutputKeeps(s, i, e.(stdoutInFailure := true, failureBuf := e.failureBuf + [line.text]));
    } else {
      EmitKeeps(s, i, line);
    }
  }

  /** Handling a line touches nothing but the buffers of its entry and the log, in any state. */
  lemma HandleLineRoutes(env: Env, s: RunnerState, i: nat, line: Line)
    requires i < |s.entries|
    ensures OnlyRouted(s, HandleLine(env, s, i, line), i)
  {
    EmitRoutes(s, i, line);
  }

  lemma EmitRoutes(s: RunnerState, i: nat, line: Line)
    requires i < |s.entries|
    ensures OnlyRouted(s, Emit(s, i, line), i)
  {
  }

  lemma {:induction false} HandleLinesRoutes(env: Env, s: RunnerState, i: nat, lines: seq<Line>)
    requires i < |s.entries|
    ensures OnlyRouted(s, HandleLines(env, s, i, lines), i)
  {
    if lines != [] {
      var t := HandleLines(env, s, i, lines[..|lines| - 1]);
      HandleLinesRoutes(env, s, i, lines[..|lines| - 1]);
      HandleLineRoutes(env, t, i, lines[|lines| - 1]);
      RoutedTwice(s, t, HandleLines(env, s, i, lines), i);
    }
  }

  lemma RoutedTwice(s: RunnerState, t: RunnerState, u: RunnerState, i: nat)
    requires OnlyRouted(s, t, i) && OnlyRouted(t, u, i)
    ensures OnlyRouted(s, u, i)
  {
  }

  lemma {:induction false} HandleLinesKeeps(env: Env, s: RunnerState, i: nat, lines: seq<Line>)
    requires Core(s) && i < s.idx
    ensures var t := HandleLines(env, s, i, lines); Core(t) && OnlyRouted(s, t, i)
  {
    if lines != [] {
      HandleLinesKeeps(env, s, i, lines[..|lines| - 1]);
      HandleLineKeeps(env, HandleLines(env, s, i, lines[..|lines| - 1]), i, lines[|lines| - 1]);
    }
  }

  lemma HandleChunkKeeps(env: Env, s: RunnerState, i: nat, stream: Stream, chunk: string)
    requires Core(s) && i < s.idx
    ensures var t := HandleChunk(env, s, i, stream, chunk); Core(t) && OnlyOutput(s, t, i)
  {
    var split := SplitLines(Carry(s.entries[i], stream), chunk);
    var t := SetEntry(s, i, WithCarry(s.entries[i], stream, split.carry));
    var lines := Tagged(stream, split.lines);
    SetOutputKeeps(s, i, t.entries[i]);
    HandleLinesKeeps(env, t, i, lines);
    SetThenRouted(s, t, HandleLines(env, t, i, lines), i);
  }

  lemma SetThenRouted(s: RunnerState, t: RunnerState, u: RunnerState, i: nat)
    requires i < |s.entries| == |t.entries| && t == SetEntry(s, i, t.entries[i])
             && OutputChange(s.entries[i], t.entries[i])
    requires OnlyRouted(t, u, i)
    ensures OnlyOutput(s, u, i)
  {
  }

  lemma RoutedThenSet(s: RunnerState, t: RunnerState, u: RunnerState, i: nat)
    requires OnlyRouted(s, t, i) && |u.entries| == |t.entries| && u == SetEntry(t, i, u.entries[i])
             && OutputChange(t.entries[i], u.entries[i])
    ensures OnlyOutput(s, u, i)
  {
  }

  lemma CloseCarryKeeps(env: Env, s: RunnerState, i: nat, stream: Stream)
    requires Core(s) && i < s.idx
    ensures var t := CloseCarry(env, s, i, stream); Core(t) && OnlyOutput(s, t, i)
  {
    var carry := Carry(s.entries[i], stream);
    if carry != "" {
      var t := HandleLine(env, s, i, Line(stream, carry + "\n"));
      HandleLineKeeps(env, s, i, Line(stream, carry + "\n"));
      SetOutputKeeps(t, i, WithCarry(t.entries[i], stream, ""));
      RoutedThenSet(s, t, SetEntry(t, i, WithCarry(t.entries[i], stream, "")), i);
    }
  }

  // ---------- the active entry ----------

  /** `t` is `s` with buffers written to the log and the active index moved on. */
  predicate OnlyFlushed(s: RunnerState, t: RunnerState) {
    t == s.(entries := t.entries, log := t.log, activeIndex := t.activeIndex) && |t.entries| == |s.entries|
    && s.activeIndex <= t.activeIndex
    && forall i :: 0 <= i < |s.entries| ==> t.entries[i] == s.entries[i].(outBuf := t.entries[i].outBuf)
  }

  lemma {:induction false} AdvanceKeeps(s: RunnerState)
    requires Core(s)
    ensures var t := AdvanceActive(s); Core(t) && Synced(t) && OnlyFlushed(s, t)
    decreases |s.entries| - s.activeIndex
  {
    if s.activeIndex < |s.entries| && Finished(s.entries[s.activeIndex]) {
      var t := FlushActive(s.(activeIndex := s.activeIndex + 1));
      FlushNextKeeps(s);
      AdvanceKeeps(t);
      FlushedTwice(s, t, AdvanceActive(t));
      AdvanceOnce(s);
    }
  }

  lemma AdvanceOnce(s: RunnerState)
    requires Activated(s.entries, s.activeIndex) && s.activeIndex < |s.entries| && Finished(s.entries[s.activeIndex])
    ensures AdvanceActive(s) == AdvanceActive(FlushActive(s.(activeIndex := s.activeIndex + 1)))
  {
    FlushIsNoOp(s);
  }

  lemma FlushedTwice(s: RunnerState, t: RunnerState, u: RunnerState)
    requires OnlyFlushed(s, t) && OnlyFlushed(t, u)
    ensures OnlyFlushed(s, u)
  {
  }

  /** The active entry never has anything to flush. */
  lemma FlushIsNoOp(s: RunnerState)
    requires Activated(s.entries, s.activeIndex)
    ensures FlushActive(s) == s
  {
    if s.activeIndex < |s.entries| {
      assert s.entries[s.activeIndex := s.entries[s.activeIndex].(outBuf := [])] == s.entries;
      assert s.log + Writes(s.activeIndex, []) == s.log;
    }
  }

  lemma FlushNextKeeps(s: RunnerState)
    requires Core(s) && s.activeIndex < |s.entries| && Finished(s.entries[s.activeIndex])
    ensures var t := FlushActive(s.(activeIndex := s.activeIndex + 1)); Core(t) && OnlyFlushed(s, t)
  {
    FlushNextActivated(s);
    FlushNextSorted(s);
    FlushNextRecords(s);
  }

  lemma FlushNextSorted(s: RunnerState)
    requires Sorted(s.log, s.activeIndex, |s.entries|) && s.activeIndex < |s.entries|
    ensures var t := FlushActive(s.(activeIndex := s.activeIndex + 1)); Sorted(t.log, t.activeIndex, |t.entries|)
  {
    var next := s.activeIndex + 1;
    SortedFlush(s.log, s.activeIndex, if next < |s.entries| then s.entries[next].outBuf else [], |s.entries|);
  }

  lemma FlushNextRecords(s: RunnerState)
    requires Shape(s) && Recorded(s.files, s.entries, s.failed)
    ensures var t := FlushActive(s.(activeIndex := s.activeIndex + 1));
            |t.entries| == |t.files| && StartedUpTo(t.entries, t.idx) && Recorded(t.files, t.entries, t.failed)
            && Live(t.entries) == Live(s.entries)
  {
    var next := s.activeIndex + 1;
    if next < |s.entries| {
      var e := s.entries[next].(outBuf := []);
      FreshIsEmpty(s.entries, s.idx, next);
      SetOutputRecords(s.files, s.entries, next, e, s.idx, s.failed);
      assert FlushActive(s.(activeIndex := next)).entries == s.entries[next := e];
    }
  }

  lemma FreshIsEmpty(entries: seq<EntryState>, idx: nat, i: nat)
    requires StartedUpTo(entries, idx) && i < |entries|
    ensures i < idx || entries[i].(outBuf := []) == entries[i]
  {
  }

  lemma FlushNextActivated(s: RunnerState)
    requires Activated(s.entries, s.activeIndex) && s.activeIndex < |s.entries| && Finished(s.entries[s.activeIndex])
    ensures var t := FlushActive(s.(activeIndex := s.activeIndex + 1));
            Activated(t.entries, t.activeIndex) && OnlyFlushed(s, t) && t.activeIndex == s.activeIndex + 1
  {
  }

  lemma SortedFlush(log: seq<Write>, activeIndex: nat, lines: seq<Line>, n: nat)
    requires Sorted(log, activeIndex, n) && (activeIndex + 1 < n || lines == [])
    ensures Sorted(log, activeIndex + 1, n) && Sorted(log + Writes(activeIndex + 1, lines), activeIndex + 1, n)
  {
  }

  // ---------- launching and settling ----------

  /** What settling entry `i` leaves alone. */
  predicate OnlySettled(s: RunnerState, t: RunnerState, i: nat, e: EntryState) {
    i < |s.entries| && t.entries == s.entries[i := e] && t.running == s.running - 1 && t.idx == s.idx
    && t.interrupted == s.interrupted && t.resolved == s.resolved && t.jobs == s.jobs && t.files == s.files
    && t.activeIndex == s.activeIndex && t.log == s.log
  }

  lemma RecordFailure(files: seq<string>, entries: seq<EntryState>, failed: seq<FailedFile>, i: nat, e: EntryState)
    requires i < |entries| == |files| && Recorded(files, entries, failed) && !entries[i].exited && e.exited
    ensures Recorded(files, entries[i := e],
                     if Bad(e.code, e.signal) then failed + [FailureOf(files[i], e, i)] else failed)
  {
    if Bad(e.code, e.signal) {
      RecordBad(files, entries, failed, i, e);
    }
  }

  lemma RecordBad(files: seq<string>, entries: seq<EntryState>, failed: seq<FailedFile>, i: nat, e: EntryState)
    requires i < |entries| == |files| && Recorded(files, entries, failed) && !entries[i].exited && FailedEntry(e)
    ensures Recorded(files, entries[i := e], failed + [FailureOf(files[i], e, i)])
  {
    var after, t := entries[i := e], failed + [FailureOf(files[i], e, i)];
    forall j | 0 <= j < |after| && FailedEntry(after[j])
      ensures FailureOf(files[j], after[j], j) in t
    {
      assert j == i ==> t[|failed|] == FailureOf(files[j], after[j], j);
    }
  }

  lemma SettleKeeps(s: RunnerState, i: nat, e: EntryState)
    requires Core(s) && i < s.idx && !s.entries[i].exited
    requires e.started && e.exited && e.outBuf == s.entries[i].outBuf
    ensures var t := Settle(s, i, e); Core(t) && OnlySettled(s, t, i, e)
  {
    LiveUpdate(s.entries, i, e);
    RecordFailure(s.files, s.entries, s.failed, i, e);
  }

  function StartNext(s: RunnerState): RunnerState
    requires s.idx < |s.entries|
  {
    SetEntry(s, s.idx, s.entries[s.idx].(started := true)).(idx := s.idx + 1, running := s.running + 1)
  }

  lemma StartKeeps(s: RunnerState)
    requires Core(s) && CanLaunch(s)
    ensures Core(StartNext(s)) && StartNext(s).entries == s.entries[s.idx := FRESH.(started := true)]
  {
    LiveUpdate(s.entries, s.idx, s.entries[s.idx].(started := true));
  }

  /** An entry just after its launch. */
  function Launched(env: Env, i: nat): EntryState {
    if env.spawns(i) then FRESH.(started := true) else SpawnFailed(FRESH.(started := true))
  }

  /** `t` is `s` after launching the entries up to `t.idx`: no output, the same active entry. */
  predicate OnlyLaunched(env: Env, s: RunnerState, t: RunnerState) {
    s.idx <= t.idx && t.interrupted == s.interrupted && t.resolved == s.resolved && t.jobs == s.jobs
    && t.files == s.files
    && t.activeIndex == s.activeIndex && t.log == s.log && |t.entries| == |s.entries|
    && forall i :: 0 <= i < |s.entries| ==>
         t.entries[i] == if s.idx <= i < t.idx then Launched(env, i) else s.entries[i]
  }

  lemma LaunchOneKeeps(env: Env, s: RunnerState)
    requires Core(s) && CanLaunch(s)
    ensures var t := LaunchOne(env, s); Core(t) && OnlyLaunched(env, s, t) && t.idx == s.idx + 1
  {
    StartKeeps(s);
    if !env.spawns(s.idx) {
      SettleKeeps(StartNext(s), s.idx, Launched(env, s.idx));
    }
  }

  lemma {:induction false} LaunchLoopKeeps(env: Env, s: RunnerState)
    requires Core(s)
    ensures var t := LaunchLoop(env, s); Core(t) && OnlyLaunched(env, s, t) && !CanLaunch(t)
    decreases |s.entries| - s.idx
  {
    if CanLaunch(s) {
      var t := LaunchOne(env, s);
      LaunchOneKeeps(env, s);
      LaunchLoopKeeps(env, t);
      LaunchedTwice(env, s, t, LaunchLoop(env, t));
    }
  }

  lemma LaunchedTwice(env: Env, s: RunnerState, t: RunnerState, u: RunnerState)
    requires OnlyLaunched(env, s, t) && OnlyLaunched(env, t, u)
    ensures OnlyLaunched(env, s, u)
  {
  }

  lemma LaunchNextKeeps(env: Env, s: RunnerState)
    requires Core(s)
    ensures Core(LaunchNext(env, s))
  {
    LaunchLoopKeeps(env, s);
  }

  lemma AfterSettlingKeeps(env: Env, s: RunnerState)
    requires Core(s) && !s.resolved
    ensures var t := AfterSettling(env, s); Invariant(t) && Synced(t) && t.jobs == s.jobs && t.files == s.files
  {
    LaunchLoopKeeps(env, s);
    LaunchNextKeeps(env, s);
    AdvanceKeeps(LaunchNext(env, s));
  }

  /** The two steps after a settled entry, and what each leaves alone. */
  lemma AfterSettlingFrames(env: Env, s: RunnerState)
    requires Core(s)
    ensures var u := LaunchNext(env, s);
            OnlyLaunched(env, s, u.(resolved := s.resolved)) && Activated(u.entries, u.activeIndex)
            && OnlyFlushed(u, AdvanceActive(u))
  {
    LaunchLoopKeeps(env, s);
    LaunchNextKeeps(env, s);
    AdvanceKeeps(LaunchNext(env, s));
  }

  /** The states on the way through the end of a stream. */
  lemma EndFrames(env: Env, s: RunnerState, i: nat, stream: Stream)
    requires Core(s) && i < s.idx
    ensures var t := CloseCarry(env, s, i, stream);
            OnlyOutput(s, t, i)
            && var u := SetEntry(t, i, WithEnded(t.entries[i], stream));
               Activated(u.entries, u.activeIndex) && OnlyFlushed(u, AdvanceActive(u))
  {
    var t := CloseCarry(env, s, i, stream);
    CloseCarryKeeps(env, s, i, stream);
    SetOutputKeeps(t, i, WithEnded(t.entries[i], stream));
    AdvanceKeeps(SetEntry(t, i, WithEnded(t.entries[i], stream)));
  }

  // ---------- every event, every run ----------

  lemma EndStreamKeeps(env: Env, s: RunnerState, i: nat, stream: Stream)
    requires Invariant(s) && i < s.idx
    ensures Kept(s, EndStream(env, s, i, stream), true)
  {
    CloseCarryKeeps(env, s, i, stream);
    var t := CloseCarry(env, s, i, stream);
    SetOutputKeeps(t, i, WithEnded(t.entries[i], stream));
    AdvanceKeeps(SetEntry(t, i, WithEnded(t.entries[i], stream)));
  }

  lemma SettlingKeeps(env: Env, s: RunnerState, i: nat, e: EntryState)
    requires Invariant(s) && !s.resolved && i < s.idx && !s.entries[i].exited
    requires e.started && e.exited && e.outBuf == s.entries[i].outBuf
    ensures Kept(s, AfterSettling(env, Settle(s, i, e)), true)
  {
    SettleKeeps(s, i, e);
    AfterSettlingKeeps(env, Settle(s, i, e));
  }

  /** Handlers that move a stream or a child to its end, unless the entry had already exited. */
  predicate Moves(env: Env, s: RunnerState, e: Event)
    requires |s.entries| == |s.files|
  {
    Enabled(env, s, e) && (e.StreamEnd? || ((e.ChildError? || e.ChildExit?) && !s.entries[e.entry].exited))
  }

  /** What one event keeps; `moved` says that it moved a stream or a child to its end. */
  predicate Kept(s: RunnerState, t: RunnerState, moved: bool) {
    Invariant(t) && t.jobs == s.jobs && t.files == s.files && (moved ==> Synced(t))
  }

  lemma DataKeeps(env: Env, s: RunnerState, i: nat, stream: Stream, chunk: string)
    requires Invariant(s) && i < s.idx
    ensures Kept(s, HandleChunk(env, s, i, stream, chunk), false)
  {
    HandleChunkKeeps(env, s, i, stream, chunk);
  }

  lemma ErrorKeeps(env: Env, s: RunnerState, i: nat)
    requires Invariant(s) && !s.resolved && i < s.idx
    ensures Kept(s, OnError(env, s, i), !s.entries[i].exited)
  {
    if !s.entries[i].exited {
      SettlingKeeps(env, s, i, SpawnFailed(s.entries[i]));
    }
  }

  lemma ExitKeeps(env: Env, s: RunnerState, i: nat, code: Option<int>, signal: Option<string>)
    requires Invariant(s) && !s.resolved && i < s.idx
    ensures Kept(s, OnExit(env, s, i, code, signal), !s.entries[i].exited)
  {
    if !s.entries[i].exited {
      SettlingKeeps(env, s, i, s.entries[i].(exited := true, code := code, signal := signal));
    }
  }

  lemma SignalKeeps(s: RunnerState, sigint: bool)
    requires Invariant(s) && !s.resolved && s.jobs > 0
    ensures Kept(s, OnSignal(s, sigint), false)
  {
  }

  lemma StepKeeps(env: Env, s: RunnerState, e: Event)
    requires Invariant(s) && s.jobs > 0
    ensures Kept(s, Step(env, s, e), Moves(env, s, e))
  {
    if Enabled(env, s, e) {
      match e
      case Data(i, stream, chunk) => DataKeeps(env, s, i, stream, chunk);
      case StreamEnd(i, stream) => EndStreamKeeps(env, s, i, stream);
      case ChildError(i) => ErrorKeeps(env, s, i);
      case ChildExit(i, code, signal) => ExitKeeps(env, s, i, code, signal);
      case Signal(sigint) => SignalKeeps(s, sigint);
    }
  }

  lemma {:induction false} NoneLive(entries: seq<EntryState>)
    requires forall i :: 0 <= i < |entries| ==> !entries[i].started
    ensures Live(entries) == 0
  {
    if entries != [] {
      NoneLive(entries[..|entries| - 1]);
    }
  }

  lemma BeginKeeps(env: Env, files: seq<string>, jobs: nat)
    ensures var s := Begin(env, files, jobs); Invariant(s) && s.jobs == jobs && s.files == files
  {
    NoneLive(Idle(files, jobs).entries);
    assert Core(Idle(files, jobs));
    LaunchLoopKeeps(env, Idle(files, jobs));
  }

  lemma BeginFrames(env: Env, files: seq<string>, jobs: nat)
    ensures OnlyLaunched(env, Idle(files, jobs), Begin(env, files, jobs).(resolved := false))
    ensures StartedUpTo(Idle(files, jobs).entries, 0)
  {
    NoneLive(Idle(files, jobs).entries);
    assert Core(Idle(files, jobs));
    LaunchLoopKeeps(env, Idle(files, jobs));
  }

  /** The invariant holds after every list of events. */
  lemma {:induction false} EveryRunKeepsInvariant(env: Env, files: seq<string>, jobs: nat, events: seq<Event>)
    requires jobs > 0
    ensures var s := Run(env, Begin(env, files, jobs), events); Invariant(s) && s.jobs == jobs && s.files == files
  {
    if events == [] {
      BeginKeeps(env, files, jobs);
    } else {
      EveryRunKeepsInvariant(env, files, jobs, events[..|events| - 1]);
      StepKeeps(env, Run(env, Begin(env, files, jobs), events[..|events| - 1]), events[|events| - 1]);
    }
  }

  // ---------- an entry settles once ----------

  predicate SameExit(s: RunnerState, t: RunnerState, i: nat) {
    i < |s.entries| == |t.entries| && t.entries[i].exited == s.entries[i].exited
    && t.entries[i].code == s.entries[i].code && t.entries[i].signal == s.entries[i].signal
  }

  lemma SettlingElsewhere(env: Env, s: RunnerState, k: nat, e: EntryState, i: nat)
    requires Core(s) && k < s.idx && !s.entries[k].exited && i < s.idx && i != k
    requires e.started && e.exited && e.outBuf == s.entries[k].outBuf
    ensures SameExit(s, AfterSettling(env, Settle(s, k, e)), i)
  {
    SettleKeeps(s, k, e);
    AfterSettlingExit(env, Settle(s, k, e), i);
  }

  lemma AfterSettlingExit(env: Env, t: RunnerState, i: nat)
    requires Core(t) && i < t.idx
    ensures SameExit(t, AfterSettling(env, t), i)
  {
    AfterSettlingFrames(env, t);
    var u := LaunchNext(env, t);
    LaunchExit(env, t, u.(resolved := t.resolved), i);
    FlushExit(u, AdvanceActive(u), i);
  }

  lemma LaunchExit(env: Env, s: RunnerState, t: RunnerState, i: nat)
    requires OnlyLaunched(env, s, t) && i < s.idx && i < |s.entries|
    ensures SameExit(s, t, i)
  {
  }

  lemma FlushExit(s: RunnerState, t: RunnerState, i: nat)
    requires OnlyFlushed(s, t) && i < |s.entries|
    ensures SameExit(s, t, i)
  {
  }

  lemma EndElsewhere(env: Env, s: RunnerState, k: nat, stream: Stream, i: nat)
    requires Core(s) && k < s.idx && i < s.idx
    ensures SameExit(s, EndStream(env, s, k, stream), i)
  {
    var t := CloseCarry(env, s, k, stream);
    EndFrames(env, s, k, stream);
    var u := SetEntry(t, k, WithEnded(t.entries[k], stream));
    assert SameExit(s, t, i) && SameExit(t, u, i);
    FlushExit(u, AdvanceActive(u), i);
  }

  /** After an entry has exited, its exit never changes, and a second `error` or `exit` does nothing at all. */
  lemma SettledOnce(env: Env, s: RunnerState, e: Event, i: nat)
    requires Invariant(s) && i < |s.entries| && s.entries[i].exited
    ensures SameExit(s, Step(env, s, e), i)
    ensures (e.ChildError? || e.ChildExit?) && e.entry == i ==> Step(env, s, e) == s
  {
    if Enabled(env, s, e) {
      match e
      case Data(k, stream, chunk) => HandleChunkKeeps(env, s, k, stream, chunk);
      case StreamEnd(k, stream) => EndElsewhere(env, s, k, stream, i);
      case ChildError(k) =>
        if !s.entries[k].exited {
          SettlingElsewhere(env, s, k, SpawnFailed(s.entries[k]), i);
        }
      case ChildExit(k, code, signal) =>
        if !s.entries[k].exited {
          SettlingElsewhere(env, s, k, s.entries[k].(exited := true, code := code, signal := signal), i);
        }
      case Signal(_) =>
    }
  }
}
