/**
 What is on the terminal when the parallel runner resolves, told by its events alone: how the children
 ended, which of them were over, and which lines they had to show.
 */
module RunnerResolution {
  import opened Wrappers
  import opened RunnerLines
  import opened RunnerModel
  import opened RunnerSafety
  import opened RunnerOutput
  import opened RunnerTheorems

  // ---------- the outcome of an entry, read off the events ----------

  /** Where the child of an entry and its streams stand. */
  datatype Outcome = Outcome(
    exited: bool, code: Option<int>, signal: Option<string>, stdoutEnded: bool, stderrEnded: bool)

  const RUNNING := Outcome(false, None, None, false, false)
  const NEVER_RAN := Outcome(true, Some(1), None, true, true)

  function OutcomeIn(e: EntryState): Outcome {
    Outcome(e.exited, e.code, e.signal, e.stdoutEnded, e.stderrEnded)
  }

  /** What an event of its own does to the outcome of an entry. */
  function OutcomeAfter(f: Outcome, e: Event): Outcome {
    match e
    case Data(_, _, _) => f
    case StreamEnd(_, stream) => if stream.Stdout? then f.(stdoutEnded := true) else f.(stderrEnded := true)
    case ChildError(_) => if f.exited then f else NEVER_RAN
    case ChildExit(_, code, signal) =>
      if f.exited then f else f.(exited := true, code := code, signal := signal)
    case Signal(_) => f
  }

  function Following(f: Outcome, e: Event, j: nat): Outcome {
    if !e.Signal? && e.entry == j then OutcomeAfter(f, e) else f
  }

  function OutcomeOf(events: seq<Event>, j: nat): Outcome {
    if events == [] then RUNNING
    else
      var f, e := OutcomeOf(events[..|events| - 1], j), events[|events| - 1];
      Following(f, e, j)
  }

  /** The first event that told of the end of the child, if any. */
  function FirstGone(events: seq<Event>, j: nat): Option<Event> {
    if events == [] then None
    else
      var gone, e := FirstGone(events[..|events| - 1], j), events[|events| - 1];
      if gone.Some? then gone
      else if (e.ChildError? || e.ChildExit?) && e.entry == j then Some(e)
      else None
  }

  predicate Errored(events: seq<Event>, j: nat) {
    FirstGone(events, j).Some? && FirstGone(events, j).value.ChildError?
  }

  /** The exit of a child whose end was told by `gone`. */
  predicate ExitTold(gone: Option<Event>, exited: bool, code: Option<int>, signal: Option<string>) {
    match gone
    case None => !exited && code == None && signal == None
    case Some(ChildExit(_, c, g)) => exited && code == c && signal == g
    case Some(_) => exited && code == Some(1) && signal == None
  }

  lemma {:induction false} OutcomeTold(events: seq<Event>, j: nat)
    ensures var f := OutcomeOf(events, j);
            ExitTold(FirstGone(events, j), f.exited, f.code, f.signal)
            && (f.stdoutEnded <==> Closed(events, j, Stdout) || Errored(events, j))
            && (f.stderrEnded <==> Closed(events, j, Stderr) || Errored(events, j))
  {
    if events != [] {
      var init, e := events[..|events| - 1], events[|events| - 1];
      OutcomeTold(init, j);
      assert events == init + [e];
      assert forall stream :: Closed(events, j, stream) <==> Closed(init, j, stream) || e == StreamEnd(j, stream);
    }
  }

  // ---------- one event ----------

  /** The outcome of entry `j` changed from `s` to `t` as if it had become `f`, or it was launched in between. */
  predicate Becomes(env: Env, s: RunnerState, t: RunnerState, j: nat, f: Outcome) {
    j < |s.entries| == |t.entries| && s.idx <= t.idx
    && OutcomeIn(t.entries[j]) == if s.idx <= j < t.idx then OutcomeIn(Launched(env, j)) else f
  }

  lemma LaunchOutcome(env: Env, s: RunnerState, t: RunnerState, j: nat)
    requires OnlyLaunched(env, s, t) && j < |s.entries|
    ensures Becomes(env, s, t, j, OutcomeIn(s.entries[j]))
  {
  }

  lemma FlushOutcome(s: RunnerState, t: RunnerState, j: nat)
    requires OnlyFlushed(s, t) && j < |s.entries|
    ensures OutcomeIn(t.entries[j]) == OutcomeIn(s.entries[j]) && t.idx == s.idx && |t.entries| == |s.entries|
  {
  }

  lemma AfterSettlingOutcome(env: Env, s: RunnerState, j: nat)
    requires Core(s) && j < |s.entries|
    ensures Becomes(env, s, AfterSettling(env, s), j, OutcomeIn(s.entries[j]))
  {
    AfterSettlingFrames(env, s);
    var u := LaunchNext(env, s);
    LaunchOutcome(env, s, u.(resolved := s.resolved), j);
    FlushOutcome(u, AdvanceActive(u), j);
  }

  lemma SettlingOutcome(env: Env, s: RunnerState, i: nat, e: EntryState, j: nat)
    requires Core(s) && i < s.idx && !s.entries[i].exited && j < |s.entries|
    requires e.started && e.exited && e.outBuf == s.entries[i].outBuf
    ensures Becomes(env, s, AfterSettling(env, Settle(s, i, e)), j, OutcomeIn(if i == j then e else s.entries[j]))
  {
    SettleKeeps(s, i, e);
    AfterSettlingOutcome(env, Settle(s, i, e), j);
  }

  lemma ChunkOutcome(env: Env, s: RunnerState, i: nat, stream: Stream, chunk: string, j: nat)
    requires i < |s.entries| && j < |s.entries|
    ensures Becomes(env, s, HandleChunk(env, s, i, stream, chunk), j, OutcomeIn(s.entries[j]))
  {
    var split := SplitLines(Carry(s.entries[i], stream), chunk);
    var t := SetEntry(s, i, WithCarry(s.entries[i], stream, split.carry));
    HandleLinesRoutes(env, t, i, Tagged(stream, split.lines));
  }

  lemma CloseOutcome(env: Env, s: RunnerState, i: nat, stream: Stream, j: nat)
    requires i < |s.entries| && j < |s.entries|
    ensures var t := CloseCarry(env, s, i, stream); OutcomeIn(t.entries[j]) == OutcomeIn(s.entries[j]) && t.idx == s.idx
  {
    HandleLineRoutes(env, s, i, Line(stream, Carry(s.entries[i], stream) + "\n"));
  }

  lemma EndOutcome(env: Env, s: RunnerState, i: nat, stream: Stream, j: nat)
    requires Core(s) && i < s.idx && j < |s.entries|
    ensures Becomes(env, s, EndStream(env, s, i, stream), j,
                    Following(OutcomeIn(s.entries[j]), StreamEnd(i, stream), j))
  {
    EndFrames(env, s, i, stream);
    CloseOutcome(env, s, i, stream, j);
    var t := CloseCarry(env, s, i, stream);
    FlushOutcome(SetEntry(t, i, WithEnded(t.entries[i], stream)), EndStream(env, s, i, stream), j);
  }

  lemma StepOutcome(env: Env, s: RunnerState, e: Event, j: nat)
    requires Invariant(s) && Enabled(env, s, e) && j < |s.entries|
    ensures Becomes(env, s, Step(env, s, e), j,
                    Following(OutcomeIn(s.entries[j]), e, j))
  {
    match e
    case Data(i, stream, chunk) => ChunkOutcome(env, s, i, stream, chunk, j);
    case StreamEnd(i, stream) => EndOutcome(env, s, i, stream, j);
    case ChildError(i) =>
      if !s.entries[i].exited {
        SettlingOutcome(env, s, i, SpawnFailed(s.entries[i]), j);
      }
    case ChildExit(i, code, signal) =>
      if !s.entries[i].exited {
        SettlingOutcome(env, s, i, s.entries[i].(exited := true, code := code, signal := signal), j);
      }
    case Signal(_) =>
  }

  // ---------- every run ----------

  /** The outcome of an entry after these events: a failed spawn finishes it at its launch. */
  function Expected(env: Env, events: seq<Event>, j: nat, idx: nat): Outcome {
    if j < idx && !env.spawns(j) then NEVER_RAN else OutcomeOf(events, j)
  }

  predicate OutcomeHolds(env: Env, s: RunnerState, events: seq<Event>, j: nat) {
    j < |s.entries| && OutcomeIn(s.entries[j]) == Expected(env, events, j, s.idx)
  }

  lemma {:induction false} EveryRunOutcome(env: Env, files: seq<string>, jobs: nat, events: seq<Event>, j: nat)
    requires jobs > 0 && j < |files| && Possible(env, Begin(env, files, jobs), events)
    ensures OutcomeHolds(env, Run(env, Begin(env, files, jobs), events), events, j)
  {
    var begin := Begin(env, files, jobs);
    if events == [] {
      BeginFrames(env, files, jobs);
      LaunchOutcome(env, Idle(files, jobs), begin.(resolved := false), j);
    } else {
      var init, e := events[..|events| - 1], events[|events| - 1];
      var s := Run(env, begin, init);
      EveryRunOutcome(env, files, jobs, init, j);
      assert Invariant(s) by {
        EveryRunKeepsInvariant(env, files, jobs, init);
      }
      assert init + [e] == events;
      StepOutcomeHolds(env, s, init, e, j);
    }
  }

  lemma StepOutcomeHolds(env: Env, s: RunnerState, init: seq<Event>, e: Event, j: nat)
    requires Invariant(s) && Enabled(env, s, e) && OutcomeHolds(env, s, init, j)
    ensures OutcomeHolds(env, Step(env, s, e), init + [e], j)
  {
    StepOutcome(env, s, e, j);
    OutcomeMore(env, s, Step(env, s, e), init, e, j);
  }

  lemma OutcomeMore(env: Env, s: RunnerState, t: RunnerState, init: seq<Event>, e: Event, j: nat)
    requires OutcomeHolds(env, s, init, j) && Shape(s) && Enabled(env, s, e)
    requires Becomes(env, s, t, j, Following(OutcomeIn(s.entries[j]), e, j))
    ensures OutcomeHolds(env, t, init + [e], j)
  {
    assert (init + [e])[..|init|] == init;
  }

  // ---------- the moment the run resolves ----------

  /**
   The child of entry `j` was over: it never spawned, its streams both ended, or it was reported as failed to spawn.
   */
  predicate Over(env: Env, events: seq<Event>, j: nat) {
    !env.spawns(j) || (Closed(events, j, Stdout) && Closed(events, j, Stderr)) || Errored(events, j)
  }

  predicate AllPrinted(env: Env, s: RunnerState, events: seq<Event>) {
    forall j :: 0 <= j < |s.entries| ==> Logged(s.log, j) == Shown(env.tests, Hear(events, j).arrived)
  }

  /** Whenever a file was not over, no later file had a line to show. */
  predicate NothingBehind(env: Env, events: seq<Event>, n: nat) {
    forall j, k :: 0 <= j < k < n ==> Over(env, events, j) || Shown(env.tests, Hear(events, k).arrived) == []
  }

  lemma {:induction false} NoneLeft(entries: seq<EntryState>, i: nat)
    requires Live(entries) == 0 && i < |entries| && entries[i].started
    ensures entries[i].exited
  {
    if i < |entries| - 1 {
      NoneLeft(entries[..|entries| - 1], i);
    }
  }

  /** Everything a resolved run tells about its entries. */
  predicate Resolved(env: Env, s: RunnerState, events: seq<Event>) {
    Shape(s) && Activated(s.entries, s.activeIndex) && (Synced(s) || Quiet(env, s))
    && (forall j :: 0 <= j < s.idx ==> s.entries[j].exited)
    && forall j :: 0 <= j < |s.entries| ==>
         OutcomeHolds(env, s, events, j)
         && (!env.spawns(j) ==> Shown(env.tests, Hear(events, j).arrived) == [])
         && Logged(s.log, j) == (if j <= s.activeIndex then Shown(env.tests, Hear(events, j).arrived) else [])
         && s.entries[j].outBuf == if j <= s.activeIndex then [] else Shown(env.tests, Hear(events, j).arrived)
  }

  lemma RunResolved(env: Env, files: seq<string>, jobs: nat, events: seq<Event>)
    requires jobs > 0 && Obeys(env, Begin(env, files, jobs), events)
    requires Run(env, Begin(env, files, jobs), events).resolved
    ensures Resolved(env, Run(env, Begin(env, files, jobs), events), events)
  {
    var s := Run(env, Begin(env, files, jobs), events);
    EveryRunKeepsInvariant(env, files, jobs, events);
    EveryRunSyncs(env, files, jobs, events);
    ObeysIsPossible(env, Begin(env, files, jobs), events);
    forall j | 0 <= j < s.idx
      ensures s.entries[j].exited
    {
      NoneLeft(s.entries, j);
    }
    forall j | 0 <= j < |files|
      ensures OutcomeHolds(env, s, events, j)
      ensures !env.spawns(j) ==> Shown(env.tests, Hear(events, j).arrived) == []
      ensures Logged(s.log, j) == (if j <= s.activeIndex then Shown(env.tests, Hear(events, j).arrived) else [])
      ensures s.entries[j].outBuf == if j <= s.activeIndex then [] else Shown(env.tests, Hear(events, j).arrived)
    {
      EveryRunOutcome(env, files, jobs, events, j);
      PrintedByEntry(env, files, jobs, events, j);
      if !env.spawns(j) {
        UnspawnedIsSilent(env, Begin(env, files, jobs), events, j);
      }
    }
  }

  lemma OverIffFinished(env: Env, s: RunnerState, events: seq<Event>, j: nat)
    requires Resolved(env, s, events) && j < s.idx
    ensures Over(env, events, j) <==> Finished(s.entries[j])
  {
    OutcomeTold(events, j);
    assert OutcomeHolds(env, s, events, j);
  }

  /** A line after the active entry would be behind an entry that was not over. */
  lemma BehindActive(env: Env, s: RunnerState, events: seq<Event>, k: nat)
    requires Resolved(env, s, events) && NothingBehind(env, events, |s.entries|) && s.activeIndex < k < |s.entries|
    ensures Shown(env.tests, Hear(events, k).arrived) == []
  {
    var j := s.activeIndex;
    if k < s.idx {
      if Synced(s) {
        OverIffFinished(env, s, events, j);
      } else {
        assert !env.spawns(k);
      }
    } else {
      assert s.entries[k] == FRESH;
    }
  }

  lemma NotOverIsActive(env: Env, s: RunnerState, events: seq<Event>, j: nat)
    requires Resolved(env, s, events) && j < |s.entries| && !Over(env, events, j)
    ensures s.activeIndex <= j
  {
    if j < s.activeIndex {
      assert Finished(s.entries[j]);
      assert j < s.idx;
      OverIffFinished(env, s, events, j);
    }
  }

  lemma PrintedIff(env: Env, s: RunnerState, events: seq<Event>)
    requires Resolved(env, s, events)
    ensures AllPrinted(env, s, events) <==> NothingBehind(env, events, |s.entries|)
  {
    if NothingBehind(env, events, |s.entries|) {
      forall k | 0 <= k < |s.entries|
        ensures Logged(s.log, k) == Shown(env.tests, Hear(events, k).arrived)
      {
        if k > s.activeIndex {
          BehindActive(env, s, events, k);
        }
      }
    }
    if AllPrinted(env, s, events) {
      forall j, k | 0 <= j < k < |s.entries| && !Over(env, events, j)
        ensures Shown(env.tests, Hear(events, k).arrived) == []
      {
        NotOverIsActive(env, s, events, j);
        assert Logged(s.log, k) == Shown(env.tests, Hear(events, k).arrived);
      }
    }
  }

  /**
   The run can resolve on an exit before the streams of a child have ended. Then the terminal has every shown line if
   and only if behind every file that was not over no file had a line to show; that is the case when all were over.
   */
  lemma ResolvedPrints(env: Env, files: seq<string>, jobs: nat, events: seq<Event>)
    requires jobs > 0 && Obeys(env, Begin(env, files, jobs), events)
    requires Run(env, Begin(env, files, jobs), events).resolved
    ensures AllPrinted(env, Run(env, Begin(env, files, jobs), events), events) <==> NothingBehind(env, events, |files|)
  {
    RunShape(env, files, jobs, events);
    RunResolved(env, files, jobs, events);
    PrintedIff(env, Run(env, Begin(env, files, jobs), events), events);
  }
}
