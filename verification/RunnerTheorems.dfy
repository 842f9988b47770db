/**
 The promises of the parallel runner, for every run: output in file order without interleaving, complete once the
 entries have finished; what can still be missing when the run resolves; and routing that ignores chunking.
 */
module RunnerTheorems {
  import opened Wrappers
  import opened RunnerLines
  import opened RunnerModel
  import opened RunnerSafety
  import opened RunnerOutput

  // ---------- the log is the output of one entry after the other ----------

  /** The writes of entry 0, then those of entry 1, and so on. */
  function ByEntry(log: seq<Write>, n: nat): seq<Write> {
    if n == 0 then [] else ByEntry(log, n - 1) + OfEntry(log, n - 1)
  }

  lemma {:induction false} NothingLogged(log: seq<Write>, i: nat)
    requires forall p :: 0 <= p < |log| ==> log[p].entry < i
    ensures Logged(log, i) == []
  {
    if log != [] {
      NothingLogged(log[..|log| - 1], i);
    }
  }

  /** The writes of entry `i` alone. */
  function OfEntry(log: seq<Write>, i: nat): seq<Write> {
    Writes(i, Logged(log, i))
  }

  lemma OfEntryAppend(log: seq<Write>, w: Write, i: nat)
    ensures OfEntry(log + [w], i) == OfEntry(log, i) + if w.entry == i then [w] else []
  {
    LoggedAppend(log, w, i);
    assert w.entry == i ==> Write(i, w.line) == w;
  }

  lemma NothingOfEntry(log: seq<Write>, i: nat)
    requires forall p :: 0 <= p < |log| ==> log[p].entry < i
    ensures OfEntry(log, i) == []
  {
    NothingLogged(log, i);
  }

  /** One more entry: the new write is its own, or came before it and nothing follows. */
  lemma ByEntryStep(before: seq<Write>, own: seq<Write>, w: Write, n: nat)
    requires w.entry < n ==> own == []
    ensures (before + if w.entry < n then [w] else []) + (own + if w.entry == n then [w] else [])
            == before + own + if w.entry < n + 1 then [w] else []
  {
  }

  lemma {:induction false} ByEntryAppend(log: seq<Write>, w: Write, n: nat)
    requires forall p :: 0 <= p < |log| ==> log[p].entry <= w.entry
    ensures ByEntry(log + [w], n) == ByEntry(log, n) + if w.entry < n then [w] else []
  {
    if n > 0 {
      ByEntryAppend(log, w, n - 1);
      OfEntryAppend(log, w, n - 1);
      if w.entry < n - 1 {
        NothingOfEntry(log, n - 1);
      }
      ByEntryStep(ByEntry(log, n - 1), OfEntry(log, n - 1), w, n - 1);
    }
  }

  lemma {:induction false} SortedIsByEntry(log: seq<Write>, n: nat)
    requires forall p, q :: 0 <= p <= q < |log| ==> log[p].entry <= log[q].entry
    requires forall p :: 0 <= p < |log| ==> log[p].entry < n
    ensures log == ByEntry(log, n)
  {
    if log == [] {
      EmptyByEntry(n);
    } else {
      var init := log[..|log| - 1];
      SortedIsByEntry(init, n);
      ByEntryAppend(init, log[|log| - 1], n);
      assert init + [log[|log| - 1]] == log;
    }
  }

  lemma {:induction false} EmptyByEntry(n: nat)
    ensures ByEntry([], n) == []
  {
    if n > 0 {
      EmptyByEntry(n - 1);
    }
  }

  // ---------- children that keep to the contract of their streams ----------

  predicate Ended(e: EntryState, stream: Stream) {
    if stream.Stdout? then e.stdoutEnded else e.stderrEnded
  }

  /**
   No data follows the end of a stream, or the `error` that reports a failed spawn and counts as the end of both; and a
   child reported in that way left no half line.
   */
  predicate Keeps(s: RunnerState, e: Event) {
    match e
    case Data(i, stream, _) => i < |s.entries| && !Ended(s.entries[i], stream)
    case ChildError(i) =>
      i < |s.entries| && (s.entries[i].exited || (s.entries[i].stdoutCarry == "" && s.entries[i].stderrCarry == ""))
    case _ => true
  }

  predicate Obeys(env: Env, s: RunnerState, events: seq<Event>) {
    events == []
    || (Obeys(env, s, events[..|events| - 1])
        && var t := Run(env, s, events[..|events| - 1]);
           Enabled(env, t, events[|events| - 1]) && Keeps(t, events[|events| - 1]))
  }

  lemma {:induction false} ObeysIsPossible(env: Env, s: RunnerState, events: seq<Event>)
    requires Obeys(env, s, events)
    ensures Possible(env, s, events)
  {
    if events != [] {
      ObeysIsPossible(env, s, events[..|events| - 1]);
    }
  }

  /** An entry that was passed holds nothing back, and an ended stream has no half line. */
  predicate Drained(s: RunnerState, j: nat) {
    j < |s.entries|
    && (j < s.activeIndex ==> s.entries[j].outBuf == [])
    && (s.entries[j].stdoutEnded ==> s.entries[j].stdoutCarry == "")
    && (s.entries[j].stderrEnded ==> s.entries[j].stderrCarry == "")
  }

  lemma {:induction false} AdvanceDrains(s: RunnerState, j: nat)
    requires Activated(s.entries, s.activeIndex) && Drained(s, j)
    ensures Drained(AdvanceActive(s), j)
    decreases |s.entries| - s.activeIndex
  {
    if s.activeIndex < |s.entries| && Finished(s.entries[s.activeIndex]) {
      AdvanceOnce(s);
      FlushNextActivated(s);
      FlushNextDrains(s, j);
      AdvanceDrains(FlushActive(s.(activeIndex := s.activeIndex + 1)), j);
    }
  }

  lemma FlushNextDrains(s: RunnerState, j: nat)
    requires Activated(s.entries, s.activeIndex) && s.activeIndex < |s.entries| && Drained(s, j)
    ensures Drained(FlushActive(s.(activeIndex := s.activeIndex + 1)), j)
  {
  }

  /** Output of an entry that has not been passed. */
  lemma OutputDrains(s: RunnerState, t: RunnerState, i: nat, j: nat)
    requires Core(s) && OnlyOutput(s, t, i) && Drained(s, j) && i >= s.activeIndex
    requires i == j ==> (t.entries[i].stdoutEnded ==> t.entries[i].stdoutCarry == "")
                        && (t.entries[i].stderrEnded ==> t.entries[i].stderrCarry == "")
    ensures Drained(t, j)
  {
  }

  lemma ChunkDrains(env: Env, s: RunnerState, i: nat, stream: Stream, chunk: string, j: nat)
    requires Core(s) && i < s.idx && Drained(s, j) && !Ended(s.entries[i], stream)
    ensures Drained(HandleChunk(env, s, i, stream, chunk), j)
  {
    var split := SplitLines(Carry(s.entries[i], stream), chunk);
    var t := SetEntry(s, i, WithCarry(s.entries[i], stream, split.carry));
    HandleLinesRoutes(env, t, i, Tagged(stream, split.lines));
    HandleChunkKeeps(env, s, i, stream, chunk);
    OutputDrains(s, HandleChunk(env, s, i, stream, chunk), i, j);
  }

  lemma EndDrains(env: Env, s: RunnerState, i: nat, stream: Stream, j: nat)
    requires Core(s) && i < s.idx && Drained(s, j) && Drained(s, i)
    ensures Drained(EndStream(env, s, i, stream), j)
  {
    var t := CloseCarry(env, s, i, stream);
    EndFrames(env, s, i, stream);
    CloseDrains(env, s, i, stream, j);
    AdvanceDrains(SetEntry(t, i, WithEnded(t.entries[i], stream)), j);
  }

  lemma CloseDrains(env: Env, s: RunnerState, i: nat, stream: Stream, j: nat)
    requires Core(s) && i < s.idx && Drained(s, j) && Drained(s, i)
    ensures var t := CloseCarry(env, s, i, stream); Drained(t, j) && Carry(t.entries[i], stream) == ""
  {
    var carry := Carry(s.entries[i], stream);
    if carry != "" {
      var line := Line(stream, carry + "\n");
      HandleLineRoutes(env, s, i, line);
      StillOpen(s, i, stream);
      RoutedDrains(s, HandleLine(env, s, i, line), i, j);
    }
  }

  /** An entry with a half line has not been passed. */
  lemma StillOpen(s: RunnerState, i: nat, stream: Stream)
    requires Activated(s.entries, s.activeIndex) && Drained(s, i) && Carry(s.entries[i], stream) != ""
    ensures i >= s.activeIndex
  {
  }

  lemma RoutedDrains(s: RunnerState, t: RunnerState, i: nat, j: nat)
    requires OnlyRouted(s, t, i) && Drained(s, j) && i >= s.activeIndex
    ensures Drained(t, j)
  {
  }

  lemma SettlingDrains(env: Env, s: RunnerState, i: nat, e: EntryState, j: nat)
    requires Core(s) && i < s.idx && !s.entries[i].exited && Drained(s, j)
    requires e.started && e.exited && e.outBuf == s.entries[i].outBuf
    requires (e.stdoutEnded ==> e.stdoutCarry == "") && (e.stderrEnded ==> e.stderrCarry == "")
    ensures Drained(AfterSettling(env, Settle(s, i, e)), j)
  {
    SettleKeeps(s, i, e);
    SettleDrains(s, Settle(s, i, e), i, e, j);
    AfterSettlingDrains(env, Settle(s, i, e), j);
  }

  lemma SettleDrains(s: RunnerState, t: RunnerState, i: nat, e: EntryState, j: nat)
    requires OnlySettled(s, t, i, e) && Drained(s, j) && e.outBuf == s.entries[i].outBuf
    requires (e.stdoutEnded ==> e.stdoutCarry == "") && (e.stderrEnded ==> e.stderrCarry == "")
    ensures Drained(t, j)
  {
  }

  lemma AfterSettlingDrains(env: Env, t: RunnerState, j: nat)
    requires Core(t) && Drained(t, j)
    ensures Drained(AfterSettling(env, t), j)
  {
    AfterSettlingFrames(env, t);
    LaunchDrains(env, t, LaunchNext(env, t).(resolved := t.resolved), j);
    AdvanceDrains(LaunchNext(env, t), j);
  }

  lemma LaunchDrains(env: Env, s: RunnerState, t: RunnerState, j: nat)
    requires Drained(s, j) && OnlyLaunched(env, s, t)
    ensures Drained(t, j)
  {
  }

  lemma StepDrains(env: Env, s: RunnerState, e: Event, j: nat)
    requires Invariant(s) && Enabled(env, s, e) && Keeps(s, e) && j < |s.entries|
    requires forall i :: 0 <= i < |s.entries| ==> Drained(s, i)
    ensures Drained(Step(env, s, e), j)
  {
    assert Drained(s, j);
    match e
    case Data(i, stream, chunk) => ChunkDrains(env, s, i, stream, chunk, j);
    case StreamEnd(i, stream) => EndDrains(env, s, i, stream, j);
    case ChildError(i) =>
      if !s.entries[i].exited {
        SettlingDrains(env, s, i, SpawnFailed(s.entries[i]), j);
      }
    case ChildExit(i, code, signal) =>
      if !s.entries[i].exited {
        assert Drained(s, i);
        SettlingDrains(env, s, i, s.entries[i].(exited := true, code := code, signal := signal), j);
      }
    case Signal(_) =>
  }

  lemma BeginDrains(env: Env, files: seq<string>, jobs: nat)
    ensures forall j :: 0 <= j < |files| ==> Drained(Begin(env, files, jobs), j)
  {
    var idle := Idle(files, jobs);
    BeginFrames(env, files, jobs);
    forall j | 0 <= j < |files|
      ensures Drained(Begin(env, files, jobs), j)
    {
      LaunchDrains(env, idle, Begin(env, files, jobs).(resolved := false), j);
    }
  }

  lemma {:induction false} EveryRunDrains(env: Env, files: seq<string>, jobs: nat, events: seq<Event>)
    requires jobs > 0 && Obeys(env, Begin(env, files, jobs), events)
    ensures forall j :: 0 <= j < |files| ==> Drained(Run(env, Begin(env, files, jobs), events), j)
  {
    var begin := Begin(env, files, jobs);
    if events == [] {
      BeginDrains(env, files, jobs);
    } else {
      EveryRunDrains(env, files, jobs, events[..|events| - 1]);
      EveryRunKeepsInvariant(env, files, jobs, events[..|events| - 1]);
      var s := Run(env, begin, events[..|events| - 1]);
      forall j | 0 <= j < |files|
        ensures Drained(Run(env, begin, events), j)
      {
        StepDrains(env, s, events[|events| - 1], j);
      }
    }
  }

  /** The shown lines of the entries before `n`, one entry after the other. */
  function Replay(t: Tests, events: seq<Event>, n: nat): seq<Write> {
    if n == 0 then [] else Replay(t, events, n - 1) + Writes(n - 1, Shown(t, Hear(events, n - 1).arrived))
  }

  /** What each entry has printed: everything up to the active entry, nothing after it. */
  lemma PrintedByEntry(env: Env, files: seq<string>, jobs: nat, events: seq<Event>, j: nat)
    requires jobs > 0 && j < |files| && Obeys(env, Begin(env, files, jobs), events)
    ensures var s := Run(env, Begin(env, files, jobs), events);
            var shown := Shown(env.tests, Hear(events, j).arrived);
            |s.entries| == |files| && Logged(s.log, j) == (if j <= s.activeIndex then shown else [])
            && s.entries[j].outBuf == if j <= s.activeIndex then [] else shown
  {
    var s := Run(env, Begin(env, files, jobs), events);
    assert Holds(env.tests, s, j, Hear(events, j).arrived) by {
      ObeysIsPossible(env, Begin(env, files, jobs), events);
      EveryRunAccounts(env, files, jobs, events, j);
    }
    assert Drained(s, j) by {
      EveryRunDrains(env, files, jobs, events);
    }
    RunShape(env, files, jobs, events);
    PrintedInState(env.tests, s, j, Hear(events, j).arrived);
  }

  lemma RunShape(env: Env, files: seq<string>, jobs: nat, events: seq<Event>)
    requires jobs > 0
    ensures var s := Run(env, Begin(env, files, jobs), events);
            |s.entries| == |files| && Sorted(s.log, s.activeIndex, |files|) && Activated(s.entries, s.activeIndex)
  {
    EveryRunKeepsInvariant(env, files, jobs, events);
  }

  lemma PrintedInState(t: Tests, s: RunnerState, j: nat, arrived: seq<Line>)
    requires Holds(t, s, j, arrived) && Drained(s, j)
    requires Sorted(s.log, s.activeIndex, |s.entries|) && Activated(s.entries, s.activeIndex)
    ensures Logged(s.log, j) == if j <= s.activeIndex then Shown(t, arrived) else []
    ensures s.entries[j].outBuf == if j <= s.activeIndex then [] else Shown(t, arrived)
  {
    if j > s.activeIndex {
      NothingLogged(s.log, j);
      assert [] + s.entries[j].outBuf == s.entries[j].outBuf;
    } else {
      assert Logged(s.log, j) + [] == Logged(s.log, j);
    }
  }

  /** The log is the replay of the entries up to and including the active one. */
  predicate Replays(t: Tests, s: RunnerState, events: seq<Event>) {
    s.log == Replay(t, events, Shows(s))
  }

  /**
   The terminal in every run: the complete shown lines of the files in file order, up to and including the active
   one, each in arrival order, never interleaved.
   */
  lemma TheLogIsInFileOrder(env: Env, files: seq<string>, jobs: nat, events: seq<Event>)
    requires jobs > 0 && Obeys(env, Begin(env, files, jobs), events)
    ensures Replays(env.tests, Run(env, Begin(env, files, jobs), events), events)
  {
    var s := Run(env, Begin(env, files, jobs), events);
    RunLogByEntry(env, files, jobs, events);
    RunReplays(env, files, jobs, events);
    ReplaysAsWhole(env.tests, s, events);
  }

  /** The entries up to and including the active one. */
  function Shows(s: RunnerState): nat {
    Min(s.activeIndex + 1, |s.entries|)
  }

  predicate Grouped(s: RunnerState) {
    s.log == ByEntry(s.log, Shows(s))
  }

  predicate GroupsReplay(t: Tests, s: RunnerState, events: seq<Event>) {
    ByEntry(s.log, Shows(s)) == Replay(t, events, Shows(s))
  }

  lemma ReplaysAsWhole(t: Tests, s: RunnerState, events: seq<Event>)
    requires Grouped(s) && GroupsReplay(t, s, events)
    ensures Replays(t, s, events)
  {
  }

  lemma RunReplays(env: Env, files: seq<string>, jobs: nat, events: seq<Event>)
    requires jobs > 0 && Obeys(env, Begin(env, files, jobs), events)
    ensures GroupsReplay(env.tests, Run(env, Begin(env, files, jobs), events), events)
  {
    RunShape(env, files, jobs, events);
    ReplayIsByEntry(env, files, jobs, events, Shows(Run(env, Begin(env, files, jobs), events)));
  }

  lemma RunLogByEntry(env: Env, files: seq<string>, jobs: nat, events: seq<Event>)
    requires jobs > 0
    ensures Grouped(Run(env, Begin(env, files, jobs), events))
  {
    var s := Run(env, Begin(env, files, jobs), events);
    RunShape(env, files, jobs, events);
    LogByEntry(s);
  }

  lemma LogByEntry(s: RunnerState)
    requires Sorted(s.log, s.activeIndex, |s.entries|)
    ensures Grouped(s)
  {
    assert forall p :: 0 <= p < |s.log| ==> s.log[p].entry < Shows(s);
    SortedIsByEntry(s.log, Shows(s));
  }

  lemma {:induction false} ReplayIsByEntry(env: Env, files: seq<string>, jobs: nat, events: seq<Event>, n: nat)
    requires jobs > 0 && Obeys(env, Begin(env, files, jobs), events)
    requires n <= |files| && n <= Run(env, Begin(env, files, jobs), events).activeIndex + 1
    ensures ByEntry(Run(env, Begin(env, files, jobs), events).log, n) == Replay(env.tests, events, n)
  {
    if n > 0 {
      ReplayIsByEntry(env, files, jobs, events, n - 1);
      PrintedByEntry(env, files, jobs, events, n - 1);
    }
  }

  // ---------- complete output ----------

  /** Until some handler has moved the active index, no child has exited. */
  predicate Quiet(env: Env, s: RunnerState) {
    forall i :: 0 <= i < s.idx && i < |s.entries| && env.spawns(i) ==> !s.entries[i].exited
  }

  /** Some event of the list moved a stream or a child to its end when it was delivered. */
  predicate Moved(env: Env, s: RunnerState, events: seq<Event>) {
    events != []
    && (Moved(env, s, events[..|events| - 1])
        || MovesWhole(env, Run(env, s, events[..|events| - 1]), events[|events| - 1]))
  }

  predicate MovesWhole(env: Env, s: RunnerState, e: Event) {
    |s.entries| == |s.files| && Moves(env, s, e)
  }

  /** No entry has exited or finished in between, none was launched, and the active entry is the same. */
  predicate Still(s: RunnerState, t: RunnerState) {
    |t.entries| == |s.entries| && t.activeIndex == s.activeIndex && t.idx == s.idx
    && forall j :: 0 <= j < |s.entries| ==>
         t.entries[j].exited == s.entries[j].exited && (Finished(t.entries[j]) <==> Finished(s.entries[j]))
  }

  lemma StepIsStill(env: Env, s: RunnerState, e: Event)
    requires Invariant(s) && !Moves(env, s, e)
    ensures Still(s, Step(env, s, e))
  {
    if Enabled(env, s, e) && e.Data? {
      ChunkFinishes(env, s, e.entry, e.stream, e.chunk);
    }
  }

  lemma StillSyncs(s: RunnerState, t: RunnerState)
    requires Still(s, t)
    ensures Synced(s) <==> Synced(t)
  {
  }

  lemma StillTwice(s: RunnerState, t: RunnerState, u: RunnerState)
    requires Still(s, t) && Still(t, u)
    ensures Still(s, u)
  {
  }

  /** A chunk ends nothing. */
  lemma ChunkFinishes(env: Env, s: RunnerState, i: nat, stream: Stream, chunk: string)
    requires i < |s.entries|
    ensures var t := HandleChunk(env, s, i, stream, chunk);
            |t.entries| == |s.entries| && t.activeIndex == s.activeIndex && t.idx == s.idx
            && forall j :: 0 <= j < |s.entries| ==>
                 t.entries[j].exited == s.entries[j].exited && (Finished(t.entries[j]) <==> Finished(s.entries[j]))
  {
    var split := SplitLines(Carry(s.entries[i], stream), chunk);
    var t := SetEntry(s, i, WithCarry(s.entries[i], stream, split.carry));
    HandleLinesRoutes(env, t, i, Tagged(stream, split.lines));
  }

  lemma {:induction false} MovedOrStill(env: Env, files: seq<string>, jobs: nat, events: seq<Event>)
    requires jobs > 0
    ensures var begin := Begin(env, files, jobs);
            if Moved(env, begin, events) then Synced(Run(env, begin, events)) else Still(begin, Run(env, begin, events))
  {
    if events != [] {
      var init, e := events[..|events| - 1], events[|events| - 1];
      var begin := Begin(env, files, jobs);
      var s := Run(env, begin, init);
      MovedOrStill(env, files, jobs, init);
      assert Invariant(s) && s.jobs > 0 by {
        EveryRunKeepsInvariant(env, files, jobs, init);
      }
      OneMoreMove(env, begin, s, e, Moved(env, begin, init));
    }
  }

  lemma OneMoreMove(env: Env, begin: RunnerState, s: RunnerState, e: Event, moved: bool)
    requires Invariant(s) && s.jobs > 0 && if moved then Synced(s) else Still(begin, s)
    ensures if moved || Moves(env, s, e) then Synced(Step(env, s, e)) else Still(begin, Step(env, s, e))
  {
    if Moves(env, s, e) {
      StepKeeps(env, s, e);
    } else {
      StepIsStill(env, s, e);
      if moved {
        StillSyncs(s, Step(env, s, e));
      } else {
        StillTwice(begin, s, Step(env, s, e));
      }
    }
  }

  /** Right after the first launch nothing has been passed, and the first entry has finished if it failed to spawn. */
  lemma BeginFirst(env: Env, files: seq<string>, jobs: nat)
    requires jobs > 0 && files != []
    ensures var s := Begin(env, files, jobs);
            |s.entries| == |files| && s.activeIndex == 0 && (Finished(s.entries[0]) <==> !env.spawns(0))
  {
    var idle := Idle(files, jobs);
    NoneLive(idle.entries);
    assert Core(idle) && CanLaunch(idle);
    LaunchOneKeeps(env, idle);
    LaunchLoopKeeps(env, LaunchOne(env, idle));
  }

  /**
   The active index is the length of the longest finished prefix at exactly these moments: always when the first file
   spawns, and otherwise from the first handler on that ends a stream or settles an entry.
   */
  lemma SyncedIff(env: Env, files: seq<string>, jobs: nat, events: seq<Event>)
    requires jobs > 0
    ensures Synced(Run(env, Begin(env, files, jobs), events))
            <==> files == [] || env.spawns(0) || Moved(env, Begin(env, files, jobs), events)
  {
    var begin := Begin(env, files, jobs);
    MovedOrStill(env, files, jobs, events);
    if !Moved(env, begin, events) {
      StillSyncs(begin, Run(env, begin, events));
      BeginSyncedIff(env, files, jobs);
    }
  }

  lemma BeginSyncedIff(env: Env, files: seq<string>, jobs: nat)
    requires jobs > 0
    ensures Synced(Begin(env, files, jobs)) <==> files == [] || env.spawns(0)
  {
    if files == [] {
      BeginKeeps(env, files, jobs);
    } else {
      BeginFirst(env, files, jobs);
    }
  }

  /** A spawn failure of the first file leaves the active index behind: the first entry has finished, and is active. */
  lemma SpawnFailureLags(env: Env, files: seq<string>, jobs: nat)
    requires jobs > 0 && files != [] && !env.spawns(0)
    ensures var s := Begin(env, files, jobs);
            |s.entries| > 0 && s.activeIndex == 0 && Finished(s.entries[0]) && !Synced(s)
  {
    BeginFirst(env, files, jobs);
  }

  lemma StillQuiet(env: Env, s: RunnerState, t: RunnerState)
    requires Still(s, t) && Quiet(env, s)
    ensures Quiet(env, t)
  {
  }

  lemma EveryRunSyncs(env: Env, files: seq<string>, jobs: nat, events: seq<Event>)
    requires jobs > 0
    ensures var s := Run(env, Begin(env, files, jobs), events); Synced(s) || Quiet(env, s)
  {
    var begin := Begin(env, files, jobs);
    MovedOrStill(env, files, jobs, events);
    if !Moved(env, begin, events) {
      BeginQuiet(env, files, jobs);
      StillQuiet(env, begin, Run(env, begin, events));
    }
  }

  lemma BeginQuiet(env: Env, files: seq<string>, jobs: nat)
    ensures Quiet(env, Begin(env, files, jobs))
  {
    BeginFrames(env, files, jobs);
  }

  /** An entry without a child says nothing. */
  lemma {:induction false} UnspawnedIsSilent(env: Env, s: RunnerState, events: seq<Event>, i: nat)
    requires Possible(env, s, events) && !env.spawns(i)
    ensures Hear(events, i) == Heard([], "", "")
  {
    if events != [] {
      UnspawnedIsSilent(env, s, events[..|events| - 1], i);
    }
  }

  predicate AllFinished(s: RunnerState) {
    forall i :: 0 <= i < |s.entries| ==> Finished(s.entries[i])
  }

  /** Once every entry has finished, every shown line of every entry is on the terminal. */
  lemma AllFinishedAllPrinted(env: Env, files: seq<string>, jobs: nat, events: seq<Event>, j: nat)
    requires jobs > 0 && j < |files| && Obeys(env, Begin(env, files, jobs), events)
    requires AllFinished(Run(env, Begin(env, files, jobs), events))
    ensures var s := Run(env, Begin(env, files, jobs), events);
            |s.entries| == |files| && s.entries[j].outBuf == []
            && Logged(s.log, j) == Shown(env.tests, Hear(events, j).arrived)
  {
    var s := Run(env, Begin(env, files, jobs), events);
    EveryRunSyncs(env, files, jobs, events);
    PrintedByEntry(env, files, jobs, events, j);
    if !Synced(s) {
      ObeysIsPossible(env, Begin(env, files, jobs), events);
      AllStarted(env, files, jobs, events);
      UnspawnedIsSilent(env, Begin(env, files, jobs), events, j);
    }
  }

  lemma AllStarted(env: Env, files: seq<string>, jobs: nat, events: seq<Event>)
    requires jobs > 0
    ensures var s := Run(env, Begin(env, files, jobs), events);
            |s.entries| == |files| && forall i :: 0 <= i < |files| && Finished(s.entries[i]) ==> i < s.idx
  {
    EveryRunKeepsInvariant(env, files, jobs, events);
  }

  /** Nothing waits for the flush after the run: the active entry has nothing in its buffer. */
  lemma FinalFlushIsNoOp(env: Env, files: seq<string>, jobs: nat, events: seq<Event>)
    requires jobs > 0
    ensures var s := Run(env, Begin(env, files, jobs), events); FlushActive(s) == s
  {
    EveryRunKeepsInvariant(env, files, jobs, events);
    FlushIsNoOp(Run(env, Begin(env, files, jobs), events));
  }

  // ---------- a run that resolves too early ----------

  lemma RunNext(env: Env, s: RunnerState, events: seq<Event>, e: Event)
    requires Obeys(env, s, events) && Enabled(env, Run(env, s, events), e) && Keeps(Run(env, s, events), e)
    ensures Run(env, s, events + [e]) == Step(env, Run(env, s, events), e) && Obeys(env, s, events + [e])
  {
    assert (events + [e])[..|events|] == events;
  }

  /** Two files, two slots, no warnings, no failures. */
  const PLAIN := Env(Tests(_ => false, _ => false), _ => true)

  /** The second file prints a line and ends; the first exits while its pipes are still open. */
  const EARLY: seq<Event> :=
    [Data(1, Stdout, "x\n")] + [StreamEnd(1, Stdout)] + [StreamEnd(1, Stderr)] + [ChildExit(1, Some(0), None)]
    + [ChildExit(0, Some(0), None)]

  function TwoFiles(first: EntryState, second: EntryState, running: nat, resolved: bool): RunnerState {
    RunnerState(["a", "b"], 2, [first, second], 2, running, 0, [], 0, false, resolved, None, [])
  }

  lemma BeginTwoFiles()
    ensures Begin(PLAIN, ["a", "b"], 2) == TwoFiles(FRESH.(started := true), FRESH.(started := true), 2, false)
  {
    var idle := Idle(["a", "b"], 2);
    assert idle.entries == [FRESH, FRESH];
    var one := LaunchOne(PLAIN, idle);
    assert one.entries == [FRESH.(started := true), FRESH];
    var two := LaunchOne(PLAIN, one);
    assert two.entries == [FRESH.(started := true), FRESH.(started := true)];
    assert LaunchLoop(PLAIN, two) == two && LaunchLoop(PLAIN, one) == two && LaunchLoop(PLAIN, idle) == two;
  }

  lemma OneLine()
    ensures SplitLines("", "x\n") == Split(["x\n"], "")
  {
    assert Parts("") == [""];
    assert "x"[..0] == "" && "" + ['x'] == "x" && "x" + "\n" == "x\n";
    assert Parts("x") == ["x"];
    assert "x\n"[..1] == "x" && Parts("x\n") == ["x"] + [""];
    assert "" + "x\n" == "x\n" && (["x"] + [""])[..1] == ["x"];
    assert WithNewlines(["x"]) == ["x\n"];
  }

  lemma BufferedLine(s: RunnerState)
    requires |s.entries| == 2 && s.entries[1] == UP && s.activeIndex == 0
    ensures HandleChunk(PLAIN, s, 1, Stdout, "x\n") == SetEntry(s, 1, SAID)
  {
    OneLine();
    var line := Line(Stdout, "x\n");
    assert Tagged(Stdout, ["x\n"]) == [line];
    var t := SetEntry(s, 1, WithCarry(s.entries[1], Stdout, ""));
    assert t.entries == s.entries;
    assert [line][..0] == [] && HandleLines(PLAIN, t, 1, []) == t;
    assert HandleLines(PLAIN, t, 1, [line]) == HandleLine(PLAIN, t, 1, line);
    assert [] + [line] == [line];
  }

  const UP := FRESH.(started := true)
  const SAID := UP.(outBuf := [Line(Stdout, "x\n")])
  const ENDED := SAID.(stdoutEnded := true, stderrEnded := true)
  const OVER := ENDED.(exited := true, code := Some(0))

  lemma EndBoth()
    ensures var half := SAID.(stdoutEnded := true);
            Step(PLAIN, TwoFiles(UP, SAID, 2, false), EARLY[1]) == TwoFiles(UP, half, 2, false)
            && Step(PLAIN, TwoFiles(UP, half, 2, false), EARLY[2]) == TwoFiles(UP, ENDED, 2, false)
  {
    var s := TwoFiles(UP, SAID, 2, false);
    var half := SAID.(stdoutEnded := true);
    assert SetEntry(s, 1, half).entries == [UP, half];
    assert SetEntry(TwoFiles(UP, half, 2, false), 1, ENDED).entries == [UP, ENDED];
  }

  lemma ExitSecond()
    ensures Step(PLAIN, TwoFiles(UP, ENDED, 2, false), EARLY[3]) == TwoFiles(UP, OVER, 1, false)
  {
    var s := TwoFiles(UP, ENDED, 2, false);
    assert SetEntry(s, 1, OVER).entries == [UP, OVER];
    assert Settle(s, 1, OVER) == TwoFiles(UP, OVER, 1, false);
  }

  lemma ExitFirst()
    ensures Step(PLAIN, TwoFiles(UP, OVER, 1, false), EARLY[4])
            == TwoFiles(UP.(exited := true, code := Some(0)), OVER, 0, true)
  {
    var s := TwoFiles(UP, OVER, 1, false);
    var gone := UP.(exited := true, code := Some(0));
    assert SetEntry(s, 0, gone).entries == [gone, OVER];
    assert Settle(s, 0, gone) == TwoFiles(gone, OVER, 0, false);
    assert AdvanceActive(TwoFiles(gone, OVER, 0, true)) == TwoFiles(gone, OVER, 0, true);
  }

  lemma TwoSteps(s: RunnerState, events: seq<Event>, e: Event, f: Event)
    requires Obeys(PLAIN, s, events)
    requires var t := Run(PLAIN, s, events);
             Enabled(PLAIN, t, e) && Keeps(t, e) && Enabled(PLAIN, Step(PLAIN, t, e), f) && Keeps(Step(PLAIN, t, e), f)
    ensures Run(PLAIN, s, events + [e] + [f]) == Step(PLAIN, Step(PLAIN, Run(PLAIN, s, events), e), f)
    ensures Obeys(PLAIN, s, events + [e] + [f])
  {
    RunNext(PLAIN, s, events, e);
    RunNext(PLAIN, s, events + [e], f);
  }

  /** The promise that everything shown is printed by the end fails on this run. */
  lemma ResolvedTooEarly()
    ensures Obeys(PLAIN, Begin(PLAIN, ["a", "b"], 2), EARLY)
    ensures var s := Run(PLAIN, Begin(PLAIN, ["a", "b"], 2), EARLY);
            s.resolved && |s.entries| == 2 && s.entries[1].outBuf == [Line(Stdout, "x\n")] && s.log == []
  {
    var begin := Begin(PLAIN, ["a", "b"], 2);
    SecondEnds();
    ExitSecond();
    ExitFirst();
    TwoSteps(begin, [EARLY[0]] + [EARLY[1]] + [EARLY[2]], EARLY[3], EARLY[4]);
  }

  lemma SecondSpeaks()
    ensures var begin := Begin(PLAIN, ["a", "b"], 2);
            Obeys(PLAIN, begin, [EARLY[0]]) && Run(PLAIN, begin, [EARLY[0]]) == TwoFiles(UP, SAID, 2, false)
  {
    var begin := Begin(PLAIN, ["a", "b"], 2);
    BeginTwoFiles();
    BufferedLine(begin);
    assert SetEntry(begin, 1, SAID).entries == [UP, SAID];
    RunNext(PLAIN, begin, [], EARLY[0]);
    assert [] + [EARLY[0]] == [EARLY[0]];
  }

  lemma SecondEnds()
    ensures var begin := Begin(PLAIN, ["a", "b"], 2);
            var three := [EARLY[0]] + [EARLY[1]] + [EARLY[2]];
            Obeys(PLAIN, begin, three) && Run(PLAIN, begin, three) == TwoFiles(UP, ENDED, 2, false)
  {
    SecondSpeaks();
    EndBoth();
    TwoSteps(Begin(PLAIN, ["a", "b"], 2), [EARLY[0]], EARLY[1], EARLY[2]);
  }
}
