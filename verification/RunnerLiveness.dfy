/**
 The parallel runner comes to an end: as long as children exit or fail, at most one such event for each live entry and
 each file still to launch is needed until the run resolves.
 */
module RunnerLiveness {
  import opened Wrappers
  import opened RunnerLines
  import opened RunnerModel
  import opened RunnerSafety
  import opened RunnerOutput
  import opened RunnerResolution

  // ---------- reachable states ----------

  /** The invariant, and an entry without a child has exited at its launch. */
  predicate Reached(env: Env, s: RunnerState) {
    Invariant(s) && s.jobs > 0 && UnspawnedGone(env, s)
  }

  predicate UnspawnedGone(env: Env, s: RunnerState) {
    forall i :: 0 <= i < |s.entries| && i < s.idx && !env.spawns(i) ==> s.entries[i].exited
  }

  lemma BeginReached(env: Env, files: seq<string>, jobs: nat)
    requires jobs > 0
    ensures Reached(env, Begin(env, files, jobs))
  {
    BeginKeeps(env, files, jobs);
    BeginFrames(env, files, jobs);
  }

  lemma StepReached(env: Env, s: RunnerState, e: Event)
    requires Reached(env, s)
    ensures Reached(env, Step(env, s, e))
  {
    StepKeeps(env, s, e);
    if Enabled(env, s, e) {
      forall j | 0 <= j < |s.entries| && j < Step(env, s, e).idx && !env.spawns(j)
        ensures Step(env, s, e).entries[j].exited
      {
        StepOutcome(env, s, e, j);
      }
    }
  }

  lemma {:induction false} RunReached(env: Env, s: RunnerState, events: seq<Event>)
    requires Reached(env, s)
    ensures Reached(env, Run(env, s, events))
  {
    if events != [] {
      RunReached(env, s, events[..|events| - 1]);
      StepReached(env, Run(env, s, events[..|events| - 1]), events[|events| - 1]);
    }
  }

  // ---------- what is left to do ----------

  /** The live entries and the files still to launch. */
  function Remaining(s: RunnerState): int {
    s.running + |s.files| - s.idx
  }

  /** The event is the first to tell of the end of its child. */
  predicate Settles(env: Env, s: RunnerState, e: Event) {
    Enabled(env, s, e) && (e.ChildError? || e.ChildExit?) && e.entry < |s.entries| && !s.entries[e.entry].exited
  }

  function SettleCount(env: Env, s: RunnerState, events: seq<Event>): nat {
    if events == [] then 0
    else
      var init, e := events[..|events| - 1], events[|events| - 1];
      SettleCount(env, s, init) + if Settles(env, Run(env, s, init), e) then 1 else 0
  }

  lemma {:induction false} LaunchRemaining(env: Env, s: RunnerState)
    requires |s.entries| == |s.files|
    ensures Remaining(LaunchLoop(env, s)) <= Remaining(s) && LaunchLoop(env, s).files == s.files
    decreases |s.entries| - s.idx
  {
    if CanLaunch(s) {
      LaunchRemaining(env, LaunchOne(env, s));
    }
  }

  lemma AfterSettlingRemaining(env: Env, s: RunnerState)
    requires Core(s)
    ensures Remaining(AfterSettling(env, s)) <= Remaining(s)
  {
    LaunchRemaining(env, s);
    AfterSettlingFrames(env, s);
  }

  lemma SettlingRemaining(env: Env, s: RunnerState, i: nat, e: EntryState)
    requires Core(s) && i < s.idx && !s.entries[i].exited
    requires e.started && e.exited && e.outBuf == s.entries[i].outBuf
    ensures Remaining(AfterSettling(env, Settle(s, i, e))) <= Remaining(s) - 1
  {
    SettleKeeps(s, i, e);
    AfterSettlingRemaining(env, Settle(s, i, e));
  }

  lemma DataRemaining(env: Env, s: RunnerState, i: nat, stream: Stream, chunk: string)
    requires Core(s) && i < s.idx
    ensures Remaining(HandleChunk(env, s, i, stream, chunk)) == Remaining(s)
  {
    HandleChunkKeeps(env, s, i, stream, chunk);
  }

  lemma EndRemaining(env: Env, s: RunnerState, i: nat, stream: Stream)
    requires Core(s) && i < s.idx
    ensures Remaining(EndStream(env, s, i, stream)) == Remaining(s)
  {
    EndFrames(env, s, i, stream);
  }

  lemma StepRemaining(env: Env, s: RunnerState, e: Event)
    requires Invariant(s) && Enabled(env, s, e)
    ensures Remaining(Step(env, s, e)) <= Remaining(s) - if Settles(env, s, e) then 1 else 0
  {
    match e
    case Data(i, stream, chunk) => DataRemaining(env, s, i, stream, chunk);
    case StreamEnd(i, stream) => EndRemaining(env, s, i, stream);
    case ChildError(i) =>
      if !s.entries[i].exited {
        SettlingRemaining(env, s, i, SpawnFailed(s.entries[i]));
      }
    case ChildExit(i, code, signal) =>
      if !s.entries[i].exited {
        SettlingRemaining(env, s, i, s.entries[i].(exited := true, code := code, signal := signal));
      }
    case Signal(_) =>
  }

  lemma {:induction false} RunRemaining(env: Env, s: RunnerState, events: seq<Event>)
    requires Reached(env, s) && Possible(env, s, events)
    ensures Remaining(Run(env, s, events)) <= Remaining(s) - SettleCount(env, s, events)
  {
    if events != [] {
      var init, e := events[..|events| - 1], events[|events| - 1];
      RunRemaining(env, s, init);
      RunReached(env, s, init);
      StepRemaining(env, Run(env, s, init), e);
    }
  }

  // ---------- some child is always left to wait for ----------

  lemma {:induction false} FindLive(entries: seq<EntryState>) returns (i: nat)
    requires Live(entries) > 0
    ensures i < |entries| && entries[i].started && !entries[i].exited
  {
    var last := entries[|entries| - 1];
    if last.started && !last.exited {
      i := |entries| - 1;
    } else {
      i := FindLive(entries[..|entries| - 1]);
    }
  }

  /** Until the run resolves, some child that exists has not exited. */
  lemma LiveChild(env: Env, s: RunnerState) returns (i: nat)
    requires Reached(env, s) && !s.resolved
    ensures Listening(env, s, i) && !s.entries[i].exited
  {
    i := FindLive(s.entries);
  }

  lemma {:induction false} RunFirst(env: Env, s: RunnerState, e: Event, rest: seq<Event>)
    requires Enabled(env, s, e) && Possible(env, Step(env, s, e), rest)
    ensures Possible(env, s, [e] + rest) && Run(env, s, [e] + rest) == Run(env, Step(env, s, e), rest)
    decreases |rest|
  {
    var all := [e] + rest;
    if rest == [] {
      assert all == [e] && [e][..0] == [];
      assert Run(env, s, []) == s;
    } else {
      assert all[..|all| - 1] == [e] + rest[..|rest| - 1];
      RunFirst(env, s, e, rest[..|rest| - 1]);
    }
  }

  predicate AllExits(events: seq<Event>) {
    forall k :: 0 <= k < |events| ==> events[k].ChildExit?
  }

  /** Letting one live child exit after the other resolves the run. */
  lemma {:induction false} ExitAll(env: Env, s: RunnerState) returns (exits: seq<Event>)
    requires Reached(env, s)
    ensures Resolving(env, s, exits)
    decreases Remaining(s)
  {
    RemainingIsNat(env, s);
    if s.resolved {
      exits := [];
    } else {
      var e := ExitOne(env, s);
      RemainingIsNat(env, Step(env, s, e));
      var rest := ExitAll(env, Step(env, s, e));
      ResolvingFirst(env, s, e, rest);
      exits := [e] + rest;
    }
  }

  lemma RemainingIsNat(env: Env, s: RunnerState)
    requires Reached(env, s)
    ensures Remaining(s) >= 0
  {
  }

  /** These exits resolve the run, one for each live entry and file to launch at most. */
  predicate Resolving(env: Env, s: RunnerState, exits: seq<Event>) {
    Possible(env, s, exits) && AllExits(exits) && Run(env, s, exits).resolved && |exits| <= Remaining(s)
  }

  /** A live child can exit, and then less is left to do. */
  lemma ExitOne(env: Env, s: RunnerState) returns (e: Event)
    requires Reached(env, s) && !s.resolved
    ensures Enabled(env, s, e) && e.ChildExit? && Reached(env, Step(env, s, e))
    ensures Remaining(Step(env, s, e)) <= Remaining(s) - 1
  {
    var i := LiveChild(env, s);
    e := ChildExit(i, Some(0), None);
    StepReached(env, s, e);
    StepRemaining(env, s, e);
  }

  lemma ResolvingFirst(env: Env, s: RunnerState, e: Event, rest: seq<Event>)
    requires Enabled(env, s, e) && e.ChildExit? && Remaining(Step(env, s, e)) <= Remaining(s) - 1
    requires Resolving(env, Step(env, s, e), rest)
    ensures Resolving(env, s, [e] + rest)
  {
    RunFirst(env, s, e, rest);
    assert ([e] + rest)[1..] == rest;
  }

  /** From `s`, exits alone can resolve the run. */
  ghost predicate CanResolve(env: Env, s: RunnerState) {
    exists exits :: Resolving(env, s, exits)
  }

  ghost predicate SomethingSettles(env: Env, s: RunnerState) {
    exists e :: Settles(env, s, e)
  }

  /**
   Liveness: after any `past`, in any continuation, at most as many events settle an entry as there were live entries
   and files to launch, and when that many have come the run has resolved. Until then some event can settle an entry,
   and exits alone can still resolve the run. So only a child that never ends can keep the run from resolving.
   */
  lemma ResolvesUnlessHanging(env: Env, files: seq<string>, jobs: nat, past: seq<Event>, more: seq<Event>)
    requires jobs > 0 && Possible(env, Run(env, Begin(env, files, jobs), past), more)
    ensures var s := Run(env, Begin(env, files, jobs), past);
            var d := Run(env, s, more);
            SettleCount(env, s, more) <= Remaining(s) && (SettleCount(env, s, more) == Remaining(s) ==> d.resolved)
            && (d.resolved || SomethingSettles(env, d)) && CanResolve(env, d)
  {
    BeginReached(env, files, jobs);
    RunReached(env, Begin(env, files, jobs), past);
    ResolvesFrom(env, Run(env, Begin(env, files, jobs), past), more);
  }

  lemma ResolvesFrom(env: Env, s: RunnerState, more: seq<Event>)
    requires Reached(env, s) && Possible(env, s, more)
    ensures var d := Run(env, s, more);
            SettleCount(env, s, more) <= Remaining(s) && (SettleCount(env, s, more) == Remaining(s) ==> d.resolved)
            && (d.resolved || SomethingSettles(env, d)) && CanResolve(env, d)
  {
    var d := Run(env, s, more);
    RunReached(env, s, more);
    RunRemaining(env, s, more);
    EndIsOpen(env, d);
  }

  lemma EndIsOpen(env: Env, d: RunnerState)
    requires Reached(env, d)
    ensures Remaining(d) >= 0 && (Remaining(d) == 0 ==> d.resolved)
    ensures (d.resolved || SomethingSettles(env, d)) && CanResolve(env, d)
  {
    RemainingIsNat(env, d);
    if !d.resolved {
      var i := LiveChild(env, d);
      assert Settles(env, d, ChildExit(i, Some(0), None));
    }
    var exits := ExitAll(env, d);
  }
}
