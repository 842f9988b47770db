/**
 What the parallel runner reports, told by its events alone: how each child ended, which files are listed as failed,
 and the exit status of the run.
 */
module RunnerVerdict {
  import opened Wrappers
  import opened RunnerModel
  import opened RunnerSafety
  import opened RunnerOutput
  import opened RunnerResolution

  // ---------- how each child ended ----------

  /** The exit of entry `j` by the events, when `launched` entries have been launched. */
  predicate Exit(env: Env, events: seq<Event>, j: nat, launched: nat, e: EntryState) {
    if j < launched && !env.spawns(j) then e.exited && e.code == Some(1) && e.signal == None
    else ExitTold(FirstGone(events, j), e.exited, e.code, e.signal)
  }

  /** In every run each entry keeps the exit of the first `error` or `exit` of its child, or of its failed spawn. */
  lemma ExitIsKept(env: Env, files: seq<string>, jobs: nat, events: seq<Event>, j: nat)
    requires jobs > 0 && j < |files| && Possible(env, Begin(env, files, jobs), events)
    ensures var s := Run(env, Begin(env, files, jobs), events);
            |s.entries| == |files| && Exit(env, events, j, s.idx, s.entries[j])
  {
    EveryRunKeepsInvariant(env, files, jobs, events);
    EveryRunOutcome(env, files, jobs, events, j);
    OutcomeTold(events, j);
  }

  // ---------- the failure list ----------

  /** The file could not be spawned, its child failed, or it ended with a code other than 0 or by a signal. */
  predicate Fails(env: Env, events: seq<Event>, j: nat, launched: nat) {
    if j < launched && !env.spawns(j) then true
    else
      match FirstGone(events, j)
      case None => false
      case Some(ChildExit(_, c, g)) => (c.Some? && c.value != 0) || (g.Some? && g.value != "")
      case Some(_) => true
  }

  lemma FailsIffFailed(env: Env, events: seq<Event>, j: nat, launched: nat, e: EntryState)
    requires Exit(env, events, j, launched, e)
    ensures FailedEntry(e) <==> Fails(env, events, j, launched)
  {
  }

  predicate Lists(failed: seq<FailedFile>, j: nat) {
    exists k :: 0 <= k < |failed| && failed[k].entry == j
  }

  /** A line of the failure list names its file and the exit of its child. */
  predicate LineTold(env: Env, s: RunnerState, events: seq<Event>, line: FailedFile) {
    line.entry < |s.files| && line.file == s.files[line.entry]
    && if line.entry < s.idx && !env.spawns(line.entry) then line.code == Some(1) && line.signal == None
       else ExitTold(FirstGone(events, line.entry), true, line.code, line.signal)
  }

  /** The failure list holds exactly the files that failed, each once, with its exit. */
  predicate ListTold(env: Env, s: RunnerState, events: seq<Event>) {
    s.failures == |s.failed|
    && (forall j :: 0 <= j < |s.files| ==> (Lists(s.failed, j) <==> Fails(env, events, j, s.idx)))
    && (forall k :: 0 <= k < |s.failed| ==> LineTold(env, s, events, s.failed[k]))
    && forall k, l :: 0 <= k < l < |s.failed| ==> s.failed[k].entry != s.failed[l].entry
  }

  predicate ExitsKept(env: Env, s: RunnerState, events: seq<Event>) {
    forall j :: 0 <= j < |s.entries| ==> Exit(env, events, j, s.idx, s.entries[j])
  }

  lemma ListedIffFailed(files: seq<string>, entries: seq<EntryState>, failed: seq<FailedFile>, j: nat)
    requires |files| == |entries| && Recorded(files, entries, failed) && j < |entries|
    ensures Lists(failed, j) <==> FailedEntry(entries[j])
  {
    if FailedEntry(entries[j]) {
      assert FailureOf(files[j], entries[j], j) in failed;
    }
  }

  lemma ListFromExits(env: Env, s: RunnerState, events: seq<Event>)
    requires Core(s) && ExitsKept(env, s, events)
    ensures ListTold(env, s, events)
  {
    forall j | 0 <= j < |s.files|
      ensures Lists(s.failed, j) <==> Fails(env, events, j, s.idx)
    {
      ListedIffFailed(s.files, s.entries, s.failed, j);
      FailsIffFailed(env, events, j, s.idx, s.entries[j]);
    }
  }

  // ---------- the exit status ----------

  /** The first signal, if any: whether it was SIGINT. */
  function FirstSignal(events: seq<Event>): Option<bool> {
    if events == [] then None
    else
      var first, e := FirstSignal(events[..|events| - 1]), events[|events| - 1];
      if first.None? && e.Signal? then Some(e.sigint) else first
  }

  /** The first signal decides the exit status; without one it is 1 when some file failed. */
  predicate StatusTold(env: Env, s: RunnerState, events: seq<Event>) {
    s.interrupted == FirstSignal(events).Some?
    && match FirstSignal(events)
       case Some(sigint) => s.exitCode == Some(if sigint then 130 else 143)
       case None =>
         s.exitCode == if exists j :: 0 <= j < |s.files| && Fails(env, events, j, s.idx) then Some(1) else None
  }

  predicate SignalHeld(s: RunnerState, first: Option<bool>) {
    s.interrupted == first.Some?
    && (first.Some? ==> s.exitCode == Some(if first.value then 130 else 143))
  }

  lemma SettlingSignal(env: Env, s: RunnerState, i: nat, e: EntryState, first: Option<bool>)
    requires Core(s) && i < s.idx && !s.entries[i].exited && SignalHeld(s, first)
    requires e.started && e.exited && e.outBuf == s.entries[i].outBuf
    ensures SignalHeld(AfterSettling(env, Settle(s, i, e)), first)
  {
    SettleKeeps(s, i, e);
    AfterSettlingSignal(env, Settle(s, i, e), first);
  }

  lemma {:induction false} LaunchSignal(env: Env, s: RunnerState, first: Option<bool>)
    requires |s.entries| == |s.files| && SignalHeld(s, first)
    ensures SignalHeld(LaunchLoop(env, s), first)
    decreases |s.entries| - s.idx
  {
    if CanLaunch(s) {
      LaunchSignal(env, LaunchOne(env, s), first);
    }
  }

  lemma AfterSettlingSignal(env: Env, s: RunnerState, first: Option<bool>)
    requires Core(s) && SignalHeld(s, first)
    ensures SignalHeld(AfterSettling(env, s), first)
  {
    LaunchSignal(env, s, first);
    AfterSettlingFrames(env, s);
  }

  lemma StepSignal(env: Env, s: RunnerState, e: Event, first: Option<bool>)
    requires Invariant(s) && Enabled(env, s, e) && SignalHeld(s, first)
    ensures SignalHeld(Step(env, s, e), if first.None? && e.Signal? then Some(e.sigint) else first)
  {
    match e
    case Data(i, stream, chunk) => HandleChunkKeeps(env, s, i, stream, chunk);
    case StreamEnd(i, stream) => EndFrames(env, s, i, stream);
    case ChildError(i) =>
      if !s.entries[i].exited {
        SettlingSignal(env, s, i, SpawnFailed(s.entries[i]), first);
      }
    case ChildExit(i, code, signal) =>
      if !s.entries[i].exited {
        SettlingSignal(env, s, i, s.entries[i].(exited := true, code := code, signal := signal), first);
      }
    case Signal(_) =>
  }

  lemma {:induction false} EveryRunSignal(env: Env, files: seq<string>, jobs: nat, events: seq<Event>)
    requires jobs > 0 && Possible(env, Begin(env, files, jobs), events)
    ensures SignalHeld(Run(env, Begin(env, files, jobs), events), FirstSignal(events))
  {
    if events == [] {
      BeginFrames(env, files, jobs);
    } else {
      var init := events[..|events| - 1];
      EveryRunSignal(env, files, jobs, init);
      EveryRunKeepsInvariant(env, files, jobs, init);
      StepSignal(env, Run(env, Begin(env, files, jobs), init), events[|events| - 1], FirstSignal(init));
    }
  }

  lemma StatusFromList(env: Env, s: RunnerState, events: seq<Event>)
    requires ExitStatus(s) && ListTold(env, s, events) && SignalHeld(s, FirstSignal(events))
    ensures StatusTold(env, s, events)
  {
    if s.failed != [] {
      assert Lists(s.failed, s.failed[0].entry);
      assert Fails(env, events, s.failed[0].entry, s.idx);
    }
  }

  /**
   After every run the failure list and the exit status are those the events tell: a file is listed, once and with the
   exit of its child, if and only if it failed.
   */
  lemma VerdictTold(env: Env, files: seq<string>, jobs: nat, events: seq<Event>)
    requires jobs > 0 && Possible(env, Begin(env, files, jobs), events)
    ensures var s := Run(env, Begin(env, files, jobs), events);
            s.files == files && ListTold(env, s, events) && StatusTold(env, s, events)
  {
    var s := Run(env, Begin(env, files, jobs), events);
    EveryRunKeepsInvariant(env, files, jobs, events);
    EveryRunSignal(env, files, jobs, events);
    forall j | 0 <= j < |s.entries|
      ensures Exit(env, events, j, s.idx, s.entries[j])
    {
      ExitIsKept(env, files, jobs, events, j);
    }
    ListFromExits(env, s, events);
    StatusFromList(env, s, events);
  }

  // ---------- after a signal ----------

  /** `t` launched nothing that `s` had not. */
  predicate NothingStarted(s: RunnerState, t: RunnerState) {
    t.interrupted && t.idx == s.idx && |t.entries| == |s.entries|
    && forall i :: 0 <= i < |s.entries| ==> t.entries[i].started == s.entries[i].started
  }

  lemma SettlingStartsNothing(env: Env, s: RunnerState, i: nat, e: EntryState)
    requires Core(s) && i < s.idx && !s.entries[i].exited && s.interrupted
    requires e.started && e.exited && e.outBuf == s.entries[i].outBuf
    ensures NothingStarted(s, AfterSettling(env, Settle(s, i, e)))
  {
    SettleKeeps(s, i, e);
    AfterSettlingFrames(env, Settle(s, i, e));
  }

  lemma StepStartsNothing(env: Env, s: RunnerState, e: Event)
    requires Invariant(s) && s.interrupted
    ensures NothingStarted(s, Step(env, s, e))
  {
    if Enabled(env, s, e) {
      match e
      case Data(i, stream, chunk) => HandleChunkKeeps(env, s, i, stream, chunk);
      case StreamEnd(i, stream) => EndFrames(env, s, i, stream);
      case ChildError(i) =>
        if !s.entries[i].exited {
          SettlingStartsNothing(env, s, i, SpawnFailed(s.entries[i]));
        }
      case ChildExit(i, code, signal) =>
        if !s.entries[i].exited {
          SettlingStartsNothing(env, s, i, s.entries[i].(exited := true, code := code, signal := signal));
        }
      case Signal(_) =>
    }
  }

  /** Once a signal has interrupted the run, no list of further events starts another file. */
  lemma {:induction false} InterruptedStartsNothing(env: Env, s: RunnerState, more: seq<Event>)
    requires Invariant(s) && s.jobs > 0 && s.interrupted
    ensures Invariant(Run(env, s, more)) && Run(env, s, more).jobs == s.jobs && NothingStarted(s, Run(env, s, more))
  {
    if more != [] {
      var t := Run(env, s, more[..|more| - 1]);
      InterruptedStartsNothing(env, s, more[..|more| - 1]);
      StepKeeps(env, t, more[|more| - 1]);
      StepStartsNothing(env, t, more[|more| - 1]);
    }
  }
}
