/**
 The program of scripts/mocha-parallel-files.js: the entries and the variables of `main`, updated in place by the
 handlers. Each method is proved to do to the state exactly what its function in RunnerModel does.
 */
module RunnerProgram {
  import opened Wrappers
  import opened RunnerLines
  import M = RunnerModel

  class Entry {
    var started: bool
    var exited: bool
    var stdoutEnded: bool
    var stderrEnded: bool
    var code: Option<int>
    var signal: Option<string>
    var outBuf: seq<Line>
    var stderrErrBuf: seq<string>
    var failureBuf: seq<string>
    var stdoutCarry: string
    var stderrCarry: string
    var stdoutInFailure: bool

    ghost function View(): M.EntryState
      reads this
    {
      M.EntryState(started, exited, stdoutEnded, stderrEnded, code, signal, outBuf, stderrErrBuf, failureBuf,
                   stdoutCarry, stderrCarry, stdoutInFailure)
    }

    constructor ()
      ensures View() == M.FRESH
    {
      started, exited, stdoutEnded, stderrEnded := false, false, false, false;
      code, signal := None, None;
      outBuf, stderrErrBuf, failureBuf := [], [], [];
      stdoutCarry, stderrCarry, stdoutInFailure := "", "", false;
    }
  }

  class Runner {
    const files: seq<string>
    const jobs: nat
    const env: M.Env
    const entries: seq<Entry>
    var idx: nat
    var running: int
    var failures: int
    var failed: seq<M.FailedFile>
    var activeIndex: nat
    var interrupted: bool
    var resolved: bool
    var exitCode: Option<int>
    /** Everything written through to the terminal. */
    ghost var log: seq<M.Write>

    ghost predicate Valid() {
      |entries| == |files| && forall i, j :: 0 <= i < j < |entries| ==> entries[i] != entries[j]
    }

    ghost function Views(): seq<M.EntryState>
      reads entries
    {
      seq(|entries|, i requires 0 <= i < |entries| reads entries => entries[i].View())
    }

    ghost function State(): M.RunnerState
      reads this, entries
    {
      M.RunnerState(files, jobs, Views(), idx, running, failures, failed, activeIndex, interrupted, resolved,
                    exitCode, log)
    }

    /** Only entry `i` has changed. */
    twostate lemma OneEntry(i: nat)
      requires Valid() && i < |entries|
      requires forall j :: 0 <= j < |entries| && j != i ==> entries[j].View() == old(entries[j].View())
      ensures Views() == old(Views())[i := entries[i].View()]
    {
    }

    constructor (files: seq<string>, jobs: nat, env: M.Env)
      ensures Valid() && State() == M.Begin(env, files, jobs) && this.files == files && this.jobs == jobs
              && this.env == env
      ensures fresh(entries)
    {
      var all: seq<Entry> := [];
      for i := 0 to |files|
        invariant |all| == i && fresh(all)
        invariant forall j :: 0 <= j < i ==> all[j].View() == M.FRESH
        invariant forall j, k :: 0 <= j < k < i ==> all[j] != all[k]
      {
        var entry := new Entry();
        all := all + [entry];
      }
      this.files, this.jobs, this.env, entries := files, jobs, env, all;
      idx, running, failures, failed := 0, 0, 0, [];
      activeIndex, interrupted, resolved, exitCode, log := 0, false, false, None, [];
      new;
      assert Views() == M.Idle(files, jobs).entries;
      LaunchNext();
    }

    // ---------- output ----------

    method FlushActiveBuffers()
      requires Valid()
      modifies this`log, entries
      ensures State() == M.FlushActive(old(State()))
    {
      if activeIndex >= |entries| {
        return;
      }
      var entry := entries[activeIndex];
      for k := 0 to |entry.outBuf|
        invariant log == old(log) + M.Writes(activeIndex, entry.outBuf[..k])
        invariant forall e :: e in entries ==> e.View() == old(e.View())
        invariant activeIndex == old(activeIndex)
      {
        log := log + [M.Write(activeIndex, entry.outBuf[k])];
        assert entry.outBuf[..k + 1] == entry.outBuf[..k] + [entry.outBuf[k]];
      }
      assert entry.outBuf[..|entry.outBuf|] == entry.outBuf;
      entry.outBuf := [];
      OneEntry(activeIndex);
    }

    method MaybeAdvanceActive()
      requires Valid()
      modifies this`log, this`activeIndex, entries
      ensures State() == M.AdvanceActive(old(State()))
    {
      while activeIndex < |entries|
        invariant M.AdvanceActive(State()) == M.AdvanceActive(old(State()))
        decreases |entries| - activeIndex
      {
        var entry := entries[activeIndex];
        if entry.exited && entry.stdoutEnded && entry.stderrEnded {
          AdvanceOne();
          continue;
        }
        break;
      }
    }

    /** One turn of the advancing loop. */
    method AdvanceOne()
      requires Valid() && activeIndex < |entries|
      modifies this`log, this`activeIndex, entries
      ensures var t := M.FlushActive(old(State()));
              State() == M.FlushActive(t.(activeIndex := t.activeIndex + 1))
      ensures activeIndex == old(activeIndex) + 1
    {
      FlushActiveBuffers();
      label Flushed:
      activeIndex := activeIndex + 1;
      assert Views() == old@Flushed(Views());
      FlushActiveBuffers();
    }

    method EmitLine(i: nat, line: Line)
      requires Valid() && i < |entries|
      modifies this`log, entries
      ensures State() == M.Emit(old(State()), i, line)
    {
      if i == activeIndex {
        log := log + [M.Write(i, line)];
        assert Views() == old(Views());
      } else {
        entries[i].outBuf := entries[i].outBuf + [line];
        OneEntry(i);
      }
    }

    method HandleStdoutLine(i: nat, line: string)
      requires Valid() && i < |entries|
      modifies this`log, entries
      ensures State() == M.HandleLine(env, old(State()), i, Line(Stdout, line))
    {
      var entry := entries[i];
      if entry.stdoutInFailure || env.tests.isFailureStart(line) {
        entry.stdoutInFailure := true;
        entry.failureBuf := entry.failureBuf + [line];
        OneEntry(i);
      } else {
        EmitLine(i, Line(Stdout, line));
      }
    }

    method HandleStderrLine(i: nat, line: string)
      requires Valid() && i < |entries|
      modifies this`log, entries
      ensures State() == M.HandleLine(env, old(State()), i, Line(Stderr, line))
    {
      var entry := entries[i];
      if env.tests.isWarning(line) {
        EmitLine(i, Line(Stderr, line));
      } else {
        entry.stderrErrBuf := entry.stderrErrBuf + [line];
        OneEntry(i);
      }
    }

    method HandleStdoutChunk(i: nat, chunk: string)
      requires Valid() && i < |entries|
      modifies this`log, entries
      ensures State() == M.HandleChunk(env, old(State()), i, Stdout, chunk)
    {
      var split := SplitLines(entries[i].stdoutCarry, chunk);
      entries[i].stdoutCarry := split.carry;
      OneEntry(i);
      ghost var start := State();
      for k := 0 to |split.lines|
        invariant State() == M.HandleLines(env, start, i, Tagged(Stdout, split.lines[..k]))
      {
        HandleStdoutLine(i, split.lines[k]);
        TaggedTake(Stdout, split.lines, k);
      }
      assert split.lines[..|split.lines|] == split.lines;
    }

    method HandleStderrChunk(i: nat, chunk: string)
      requires Valid() && i < |entries|
      modifies this`log, entries
      ensures State() == M.HandleChunk(env, old(State()), i, Stderr, chunk)
    {
      var split := SplitLines(entries[i].stderrCarry, chunk);
      entries[i].stderrCarry := split.carry;
      OneEntry(i);
      ghost var start := State();
      for k := 0 to |split.lines|
        invariant State() == M.HandleLines(env, start, i, Tagged(Stderr, split.lines[..k]))
      {
        HandleStderrLine(i, split.lines[k]);
        TaggedTake(Stderr, split.lines, k);
      }
      assert split.lines[..|split.lines|] == split.lines;
    }

    // ---------- children ----------

    /** The child of entry `i` is gone, with this exit. */
    method MarkExited(i: nat, code: Option<int>, signal: Option<string>)
      requires Valid() && i < |entries|
      modifies entries
      ensures Views() == old(Views())[i := old(entries[i].View()).(exited := true, code := code, signal := signal)]
      ensures entries[i].View() == old(entries[i].View()).(exited := true, code := code, signal := signal)
    {
      var entry := entries[i];
      entry.exited := true;
      entry.code := code;
      entry.signal := signal;
      OneEntry(i);
    }

    /** Its slot is free, and a bad exit is recorded. */
    method ReleaseSlot(i: nat, code: Option<int>, signal: Option<string>)
      requires Valid() && i < |entries|
      modifies this`running, this`failures, this`failed, this`exitCode
      ensures var t := old(State()).(running := old(running) - 1);
              State() == if !M.Bad(code, signal) then t
                         else t.(failures := t.failures + 1,
                                 failed := t.failed + [M.FailedFile(i, files[i], code, signal)],
                                 exitCode := if t.exitCode.None? then Some(1) else t.exitCode)
    {
      running := running - 1;
      if (code.Some? && code.value != 0) || (signal.Some? && signal.value != "") {
        failures := failures + 1;
        failed := failed + [M.FailedFile(i, files[i], code, signal)];
        exitCode := if exitCode.None? then Some(1) else exitCode;
      }
      assert Views() == old(Views());
    }

    method RecordSpawnFailure(i: nat)
      requires Valid() && i < |entries|
      modifies this`running, this`failures, this`failed, this`exitCode, entries
      ensures State() == M.RecordSpawnFailure(old(State()), i)
    {
      var entry := entries[i];
      if entry.exited {
        return;
      }
      MarkExited(i, Some(1), None);
      label Marked:
      entry.stdoutEnded := true;
      entry.stderrEnded := true;
      OneEntry@Marked(i);
      assert Views() == old(Views())[i := M.SpawnFailed(old(entries[i].View()))];
      ReleaseSlot(i, Some(1), None);
    }

    method CheckDone()
      requires Valid()
      modifies this`resolved
      ensures State() == M.CheckDone(old(State()))
    {
      if running == 0 && (idx >= |files| || interrupted) {
        resolved := true;
      }
      assert Views() == old(Views());
    }

    method LaunchNext()
      requires Valid()
      modifies this, entries
      ensures State() == M.LaunchNext(env, old(State()))
    {
      while running < jobs && idx < |files|
        invariant M.LaunchLoop(env, State()) == M.LaunchLoop(env, old(State()))
        decreases |files| - idx
      {
        if interrupted {
          break;
        }
        LaunchEntry();
      }
      CheckDone();
    }

    /** One turn of the launch loop. */
    method LaunchEntry()
      requires Valid() && running < jobs && idx < |files| && !interrupted
      modifies this`idx, this`running, this`failures, this`failed, this`exitCode, entries
      ensures State() == M.LaunchOne(env, old(State())) && idx == old(idx) + 1
    {
      var i := TakeSlot();
      if !env.spawns(i) {
        RecordSpawnFailure(i);
      }
    }

    /** The next file takes a slot. */
    method TakeSlot() returns (i: nat)
      requires Valid() && idx < |files|
      modifies this`idx, this`running, entries
      ensures i == old(idx) && idx == i + 1
      ensures State() == M.SetEntry(old(State()), i, old(entries[i].View()).(started := true)).(
                           idx := i + 1, running := old(running) + 1)
    {
      i := idx;
      idx := idx + 1;
      running := running + 1;
      entries[i].started := true;
      OneEntry(i);
    }

    // ---------- events ----------

    /** The last line of a stream may lack its newline. */
    method FinishStdout(i: nat)
      requires Valid() && i < |entries|
      modifies this`log, entries
      ensures State() == M.CloseCarry(env, old(State()), i, Stdout)
    {
      var entry := entries[i];
      if entry.stdoutCarry != "" {
        HandleStdoutLine(i, entry.stdoutCarry + "\n");
        label Handled:
        entry.stdoutCarry := "";
        OneEntry@Handled(i);
      }
    }

    method OnStdoutEnd(i: nat)
      requires Valid() && i < |entries|
      modifies this`log, this`activeIndex, entries
      ensures State() == M.EndStream(env, old(State()), i, Stdout)
    {
      FinishStdout(i);
      label Finished:
      entries[i].stdoutEnded := true;
      OneEntry@Finished(i);
      MaybeAdvanceActive();
    }

    /** The last line of a stream may lack its newline. */
    method FinishStderr(i: nat)
      requires Valid() && i < |entries|
      modifies this`log, entries
      ensures State() == M.CloseCarry(env, old(State()), i, Stderr)
    {
      var entry := entries[i];
      if entry.stderrCarry != "" {
        HandleStderrLine(i, entry.stderrCarry + "\n");
        label Handled:
        entry.stderrCarry := "";
        OneEntry@Handled(i);
      }
    }

    method OnStderrEnd(i: nat)
      requires Valid() && i < |entries|
      modifies this`log, this`activeIndex, entries
      ensures State() == M.EndStream(env, old(State()), i, Stderr)
    {
      FinishStderr(i);
      label Finished:
      entries[i].stderrEnded := true;
      OneEntry@Finished(i);
      MaybeAdvanceActive();
    }

    /** The tail of both settling handlers. */
    method ContinueRun()
      requires Valid()
      modifies this, entries
      ensures State() == M.AfterSettling(env, old(State()))
    {
      LaunchNext();
      MaybeAdvanceActive();
      CheckDone();
    }

    method OnError(i: nat)
      requires Valid() && i < |entries|
      modifies this, entries
      ensures State() == M.OnError(env, old(State()), i)
    {
      if entries[i].exited {
        return;
      }
      RecordSpawnFailure(i);
      ContinueRun();
    }

    method OnExit(i: nat, code: Option<int>, signal: Option<string>)
      requires Valid() && i < |entries|
      modifies this, entries
      ensures State() == M.OnExit(env, old(State()), i, code, signal)
    {
      var entry := entries[i];
      if entry.exited {
        return;
      }
      MarkExited(i, code, signal);
      ReleaseSlot(i, code, signal);
      assert State() == M.Settle(old(State()), i, entry.View());
      ContinueRun();
    }

    method OnSignal(sigint: bool)
      requires Valid()
      modifies this`interrupted, this`exitCode
      ensures State() == M.OnSignal(old(State()), sigint)
    {
      assert Views() == old(Views());
      if interrupted {
        return;
      }
      interrupted := true;
      exitCode := Some(if sigint then 130 else 143);
      assert Views() == old(Views());
    }
  }

  lemma TaggedTake(stream: Stream, lines: seq<string>, k: nat)
    requires k < |lines|
    ensures var tagged := Tagged(stream, lines[..k + 1]);
            tagged[..|tagged| - 1] == Tagged(stream, lines[..k]) && tagged[|tagged| - 1] == Line(stream, lines[k])
  {
  }
}
