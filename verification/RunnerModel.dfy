/**
 The scheduler and output re-sequencer of scripts/mocha-parallel-files.js as a state machine: `RunnerState` is the
 state of `main`, one function per handler says what the handler does to it, and `Run` folds any list of events.
 */
module RunnerModel {
  import opened Wrappers
  import opened RunnerLines

  datatype EntryState = EntryState(
    started: bool, exited: bool, stdoutEnded: bool, stderrEnded: bool, code: Option<int>, signal: Option<string>,
    outBuf: seq<Line>, stderrErrBuf: seq<string>, failureBuf: seq<string>,
    stdoutCarry: string, stderrCarry: string, stdoutInFailure: bool)

  const FRESH := EntryState(false, false, false, false, None, None, [], [], [], "", "", false)

  /** A line of the failure list: the file of entry `entry`. */
  datatype FailedFile = FailedFile(entry: nat, file: string, code: Option<int>, signal: Option<string>)

  /** A line written through to the terminal on behalf of an entry. */
  datatype Write = Write(entry: nat, line: Line)

  datatype RunnerState = RunnerState(
    files: seq<string>, jobs: nat, entries: seq<EntryState>, idx: nat, running: int, failures: int,
    failed: seq<FailedFile>, activeIndex: nat, interrupted: bool, resolved: bool, exitCode: Option<int>,
    log: seq<Write>)

  /** The environment's share: the line tests, and whether spawning an entry yields a child with both pipes. */
  datatype Env = Env(tests: Tests, spawns: nat -> bool)

  datatype Event =
    | Data(entry: nat, stream: Stream, chunk: string)
    | StreamEnd(entry: nat, stream: Stream)
    | ChildError(entry: nat)
    | ChildExit(entry: nat, code: Option<int>, signal: Option<string>)
    | Signal(sigint: bool)

  // ---------- handlers ----------

  function SetEntry(s: RunnerState, i: nat, e: EntryState): RunnerState
    requires i < |s.entries|
  {
    s.(entries := s.entries[i := e])
  }

  predicate Finished(e: EntryState) {
    e.exited && e.stdoutEnded && e.stderrEnded
  }

  function Carry(e: EntryState, stream: Stream): string {
    if stream.Stdout? then e.stdoutCarry else e.stderrCarry
  }

  function WithCarry(e: EntryState, stream: Stream, carry: string): EntryState {
    if stream.Stdout? then e.(stdoutCarry := carry) else e.(stderrCarry := carry)
  }

  function WithEnded(e: EntryState, stream: Stream): EntryState {
    if stream.Stdout? then e.(stdoutEnded := true) else e.(stderrEnded := true)
  }

  /** A line for the terminal: written through for the active entry, buffered for the others. */
  function Emit(s: RunnerState, i: nat, line: Line): RunnerState
    requires i < |s.entries|
  {
    if i == s.activeIndex then s.(log := s.log + [Write(i, line)])
    else SetEntry(s, i, s.entries[i].(outBuf := s.entries[i].outBuf + [line]))
  }

  function HandleLine(env: Env, s: RunnerState, i: nat, line: Line): RunnerState
    requires i < |s.entries|
  {
    var e := s.entries[i];
    if line.stream.Stderr? then
      if env.tests.isWarning(line.text) then Emit(s, i, line)
      else SetEntry(s, i, e.(stderrErrBuf := e.stderrErrBuf + [line.text]))
    else if e.stdoutInFailure || env.tests.isFailureStart(line.text) then
      SetEntry(s, i, e.(stdoutInFailure := true, failureBuf := e.failureBuf + [line.text]))
    else Emit(s, i, line)
  }

  function HandleLines(env: Env, s: RunnerState, i: nat, lines: seq<Line>): (t: RunnerState)
    requires i < |s.entries|
    ensures |t.entries| == |s.entries|
  {
    if lines == [] then s else HandleLine(env, HandleLines(env, s, i, lines[..|lines| - 1]), i, lines[|lines| - 1])
  }

  function HandleChunk(env: Env, s: RunnerState, i: nat, stream: Stream, chunk: string): RunnerState
    requires i < |s.entries|
  {
    var split := SplitLines(Carry(s.entries[i], stream), chunk);
    HandleLines(env, SetEntry(s, i, WithCarry(s.entries[i], stream, split.carry)), i, Tagged(stream, split.lines))
  }

  function Writes(i: nat, lines: seq<Line>): seq<Write> {
    seq(|lines|, k requires 0 <= k < |lines| => Write(i, lines[k]))
  }

  function FlushActive(s: RunnerState): RunnerState {
    if s.activeIndex >= |s.entries| then s
    else
      var e := s.entries[s.activeIndex];
      SetEntry(s, s.activeIndex, e.(outBuf := [])).(log := s.log + Writes(s.activeIndex, e.outBuf))
  }

  function AdvanceActive(s: RunnerState): RunnerState
    decreases |s.entries| - s.activeIndex
  {
    if s.activeIndex < |s.entries| && Finished(s.entries[s.activeIndex]) then
      var t := FlushActive(s);
      AdvanceActive(FlushActive(t.(activeIndex := t.activeIndex + 1)))
    else s
  }

  function EndStream(env: Env, s: RunnerState, i: nat, stream: Stream): RunnerState
    requires i < |s.entries|
  {
    var t := CloseCarry(env, s, i, stream);
    AdvanceActive(SetEntry(t, i, WithEnded(t.entries[i], stream)))
  }

  /** A last line without a newline gets one. */
  function CloseCarry(env: Env, s: RunnerState, i: nat, stream: Stream): (t: RunnerState)
    requires i < |s.entries|
    ensures |t.entries| == |s.entries|
  {
    var carry := Carry(s.entries[i], stream);
    if carry == "" then s
    else
      var t := HandleLine(env, s, i, Line(stream, carry + "\n"));
      SetEntry(t, i, WithCarry(t.entries[i], stream, ""))
  }

  predicate Bad(code: Option<int>, signal: Option<string>) {
    (code.Some? && code.value != 0) || (signal.Some? && signal.value != "")
  }

  /** The child is gone: one slot is free, and a bad exit is recorded. */
  function Settle(s: RunnerState, i: nat, e: EntryState): RunnerState
    requires i < |s.entries| == |s.files|
  {
    var t := SetEntry(s, i, e).(running := s.running - 1);
    if !Bad(e.code, e.signal) then t
    else t.(failures := t.failures + 1, failed := t.failed + [FailedFile(i, s.files[i], e.code, e.signal)],
            exitCode := if t.exitCode.None? then Some(1) else t.exitCode)
  }

  function SpawnFailed(e: EntryState): EntryState {
    e.(exited := true, code := Some(1), signal := None, stdoutEnded := true, stderrEnded := true)
  }

  function RecordSpawnFailure(s: RunnerState, i: nat): RunnerState
    requires i < |s.entries| == |s.files|
  {
    if s.entries[i].exited then s else Settle(s, i, SpawnFailed(s.entries[i]))
  }

  predicate CanLaunch(s: RunnerState) {
    s.running < s.jobs && s.idx < |s.entries| && !s.interrupted
  }

  function LaunchOne(env: Env, s: RunnerState): (t: RunnerState)
    requires CanLaunch(s) && |s.entries| == |s.files|
    ensures |t.entries| == |t.files| && |t.entries| == |s.entries| && t.idx == s.idx + 1
  {
    var t := SetEntry(s, s.idx, s.entries[s.idx].(started := true)).(idx := s.idx + 1, running := s.running + 1);
    if env.spawns(s.idx) then t else RecordSpawnFailure(t, s.idx)
  }

  function LaunchLoop(env: Env, s: RunnerState): (t: RunnerState)
    requires |s.entries| == |s.files|
    ensures |t.entries| == |t.files| == |s.files|
    decreases |s.entries| - s.idx
  {
    if CanLaunch(s) then LaunchLoop(env, LaunchOne(env, s)) else s
  }

  function CheckDone(s: RunnerState): RunnerState {
    if s.running == 0 && (s.idx >= |s.files| || s.interrupted) then s.(resolved := true) else s
  }

  function LaunchNext(env: Env, s: RunnerState): RunnerState
    requires |s.entries| == |s.files|
  {
    CheckDone(LaunchLoop(env, s))
  }

  function AfterSettling(env: Env, s: RunnerState): RunnerState
    requires |s.entries| == |s.files|
  {
    CheckDone(AdvanceActive(LaunchNext(env, s)))
  }

  function OnError(env: Env, s: RunnerState, i: nat): RunnerState
    requires i < |s.entries| == |s.files|
  {
    if s.entries[i].exited then s else AfterSettling(env, RecordSpawnFailure(s, i))
  }

  function OnExit(env: Env, s: RunnerState, i: nat, code: Option<int>, signal: Option<string>): RunnerState
    requires i < |s.entries| == |s.files|
  {
    if s.entries[i].exited then s
    else AfterSettling(env, Settle(s, i, s.entries[i].(exited := true, code := code, signal := signal)))
  }

  function OnSignal(s: RunnerState, sigint: bool): RunnerState {
    if s.interrupted then s else s.(interrupted := true, exitCode := Some(if sigint then 130 else 143))
  }

  // ---------- runs ----------

  /** The child of entry `i` exists and has its handlers. */
  predicate Listening(env: Env, s: RunnerState, i: nat) {
    i < s.idx && i < |s.entries| && env.spawns(i)
  }

  /** Events come from existing children, and none is handled once the run has resolved. */
  predicate Enabled(env: Env, s: RunnerState, e: Event) {
    !s.resolved && (e.Signal? || Listening(env, s, e.entry))
  }

  function Step(env: Env, s: RunnerState, e: Event): RunnerState {
    if !Enabled(env, s, e) || |s.entries| != |s.files| then s
    else
      match e
      case Data(i, stream, chunk) => HandleChunk(env, s, i, stream, chunk)
      case StreamEnd(i, stream) => EndStream(env, s, i, stream)
      case ChildError(i) => OnError(env, s, i)
      case ChildExit(i, code, signal) => OnExit(env, s, i, code, signal)
      case Signal(sigint) => OnSignal(s, sigint)
  }

  function Idle(files: seq<string>, jobs: nat): RunnerState {
    RunnerState(files, jobs, seq(|files|, _ => FRESH), 0, 0, 0, [], 0, false, false, None, [])
  }

  function Begin(env: Env, files: seq<string>, jobs: nat): RunnerState {
    LaunchNext(env, Idle(files, jobs))
  }

  function Run(env: Env, s: RunnerState, events: seq<Event>): RunnerState {
    if events == [] then s else Step(env, Run(env, s, events[..|events| - 1]), events[|events| - 1])
  }
}
