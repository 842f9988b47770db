/**
 `expandCommand` of ci/test-optimization-validation/ci-package-scripts.js with its shared state and its limit of 16
 commands, proved to return what the unlimited expansion of PackageScripts returns, or to stop at the limit.
 */
module PackageExpansion {
  import opened Wrappers
  import opened PackageScripts
  import opened PackageFailure

  /** `lifecycleScripts` is a set that keeps the order of first mention. */
  class ExpansionState {
    var count: nat
    var lifecycleScripts: seq<string>

    constructor ()
      ensures count == 0 && lifecycleScripts == []
    {
      count, lifecycleScripts := 0, [];
    }

    ghost function View(): Progress
      reads this
    {
      Progress(count, lifecycleScripts)
    }

    method Add(names: seq<string>)
      requires !Stopped(View())
      modifies this`lifecycleScripts
      ensures View() == Tally(old(View()), Notes(names))
    {
      assert Notes(names[..0]) == [];
      for k := 0 to |names|
        invariant View() == Tally(old(View()), Notes(names[..k]))
        invariant count == old(count)
      {
        if names[k] !in lifecycleScripts {
          lifecycleScripts := lifecycleScripts + [names[k]];
        }
        assert Notes(names[..k + 1]) == Notes(names[..k]) + [Lifecycle(names[k])];
        TallyMore(old(View()), Notes(names[..k]), Lifecycle(names[k]));
      }
      assert names[..|names|] == names;
    }
  }

  /** The shared state as a value. */
  datatype Progress = Progress(count: nat, lifecycle: seq<string>)

  function Noted(p: Progress, note: Note): Progress {
    match note
    case Command => p.(count := p.count + 1)
    case Lifecycle(name) => if name in p.lifecycle then p else p.(lifecycle := p.lifecycle + [name])
  }

  predicate Stopped(p: Progress) {
    p.count > MAX_SCRIPT_EXPANSIONS
  }

  /** The state after these notes: the first command over the limit is the last thing that happens. */
  function Tally(p: Progress, trace: seq<Note>): Progress {
    if trace == [] then p
    else
      var q := Tally(p, trace[..|trace| - 1]);
      if Stopped(q) then q else Noted(q, trace[|trace| - 1])
  }

  lemma TallyMore(p: Progress, trace: seq<Note>, note: Note)
    ensures var q := Tally(p, trace); Tally(p, trace + [note]) == if Stopped(q) then q else Noted(q, note)
  {
    assert (trace + [note])[..|trace|] == trace;
  }

  lemma {:induction false} TallyConcat(p: Progress, a: seq<Note>, b: seq<Note>)
    ensures Tally(p, a + b) == Tally(Tally(p, a), b)
  {
    if b == [] {
      assert a + b == a;
    } else {
      assert (a + b)[..|a + b| - 1] == a + b[..|b| - 1];
      TallyConcat(p, a, b[..|b| - 1]);
    }
  }

  lemma {:induction false} TallyStopped(p: Progress, trace: seq<Note>)
    requires Stopped(p)
    ensures Tally(p, trace) == p
  {
    if trace != [] {
      TallyStopped(p, trace[..|trace| - 1]);
    }
  }

  /** The limit stops an expansion exactly when its trace has more commands than are left. */
  lemma {:induction false} StoppedIff(p: Progress, trace: seq<Note>)
    requires !Stopped(p)
    ensures var q := Tally(p, trace);
            if p.count + CommandCount(trace) <= 16 then q.count == p.count + CommandCount(trace) else q.count == 17
  {
    if trace != [] {
      StoppedIff(p, trace[..|trace| - 1]);
    }
  }

  /** The state and the result after running the expansion with outcome `o` under the limit. */
  ghost predicate Follows<T>(o: Outcome<T>, terminals: seq<Terminal>, before: Progress, after: Progress,
                             r: Result<seq<Terminal>, ExpandError>)
  {
    after == Tally(before, o.trace)
    && r == if Stopped(after) then Failure(TooManyCommands)
            else if o.result.Success? then Success(terminals)
            else Failure(o.result.error)
  }

  ghost function LeavesOf(o: Outcome<Node>, path: seq<string>): seq<Terminal> {
    if o.result.Success? then Leaves(o.result.value, path) else []
  }

  ghost function BodyLeavesOf(o: Outcome<Body>, path: seq<string>): seq<Terminal> {
    if o.result.Success? then BodyLeaves(o.result.value, path) else []
  }

  lemma ThenTwice<T>(a: seq<T>, s: seq<Note>, b: seq<T>, t: seq<Note>, next: Outcome<T>)
    ensures Then(a, s, Then(b, t, next)) == Then(a + b, s + t, next)
  {
    assert s + (t + next.trace) == s + t + next.trace;
    if next.result.Success? {
      assert a + (b + next.result.value) == a + b + next.result.value;
    }
  }

  lemma ThenNothing<T>(o: Outcome<T>)
    ensures Then([], [], o) == o
  {
    assert [] + o.trace == o.trace;
    if o.result.Success? {
      assert [] + o.result.value == o.result.value;
    }
  }

  /** The limit or the failure of a part ends the whole. */
  lemma PartEnds<T>(before: Progress, done: seq<T>, trace: seq<Note>, part: seq<Note>, next: Outcome<T>)
    ensures Stopped(Tally(Tally(before, trace), part)) ==>
              Tally(before, Then(done, trace + part, next).trace) == Tally(Tally(before, trace), part)
  {
    TallyConcat(before, trace, part);
    TallyConcat(before, trace + part, next.trace);
    if Stopped(Tally(Tally(before, trace), part)) {
      TallyStopped(Tally(before, trace + part), next.trace);
    }
  }

  lemma {:induction false} LeavesAppend(a: seq<Node>, b: seq<Node>, path: seq<string>)
    ensures Leaves(a + b, path) == Leaves(a, path) + Leaves(b, path)
    decreases |a|
  {
    if a == [] {
      assert a + b == b;
    } else {
      assert (a + b)[1..] == a[1..] + b;
      LeavesAppend(a[1..], b, path);
    }
  }

  lemma {:induction false} BodyLeavesAppend(a: seq<Body>, b: seq<Body>, path: seq<string>)
    ensures BodyLeaves(a + b, path) == BodyLeaves(a, path) + BodyLeaves(b, path)
    decreases |a|
  {
    if a == [] {
      assert a + b == b;
    } else {
      assert (a + b)[1..] == a[1..] + b;
      BodyLeavesAppend(a[1..], b, path);
    }
  }

  method ExpandCommand(shell: Shell, scripts: Scripts, command: string, path: seq<string>, stack: set<string>,
                       state: ExpansionState)
    returns (r: Result<seq<Terminal>, ExpandError>)
    requires !Stopped(state.View())
    modifies state
    ensures var o := Inline(shell, scripts, command, stack);
            Follows(o, LeavesOf(o, path), old(state.View()), state.View(), r)
    ensures state.count >= old(state.count)
    decreases MAX_SCRIPT_EXPANSIONS + 1 - state.count, 0
  {
    state.count := state.count + 1;
    ghost var started := state.View();
    TallyMore(old(state.View()), [], Command);
    assert [] + [Command] == [Command];
    assert started == Tally(old(state.View()), [Command]);
    ghost var all := Inline(shell, scripts, command, stack);
    if state.count > MAX_SCRIPT_EXPANSIONS {
      CommandFirst(shell, scripts, command, stack);
      TallyConcat(old(state.View()), [Command], all.trace[1..]);
      TallyStopped(started, all.trace[1..]);
      return Failure(TooManyCommands);
    }
    var split := AndChain.SplitLiteralAndChain(command);
    if split.None? {
      return Failure(DynamicSyntax);
    }
    ghost var nodes := InlineSegments(shell, scripts, split.value, stack);
    if nodes.result.Success? {
      assert [] + nodes.result.value == nodes.result.value;
    }
    TallyConcat(old(state.View()), [Command], nodes.trace);
    r := ExpandSegments(shell, scripts, split.value, path, stack, state);
  }

  lemma CommandFirst(shell: Shell, scripts: Scripts, command: string, stack: set<string>)
    ensures var trace := Inline(shell, scripts, command, stack).trace; trace != [] && trace == [Command] + trace[1..]
  {
  }

  /** The loop over the segments of a command. */
  method ExpandSegments(shell: Shell, scripts: Scripts, segments: seq<string>, path: seq<string>, stack: set<string>,
                        state: ExpansionState)
    returns (r: Result<seq<Terminal>, ExpandError>)
    requires !Stopped(state.View())
    modifies state
    ensures var o := InlineSegments(shell, scripts, segments, stack);
            Follows(o, LeavesOf(o, path), old(state.View()), state.View(), r)
    ensures state.count >= old(state.count)
    decreases MAX_SCRIPT_EXPANSIONS + 1 - state.count, 4
  {
    var terminals: seq<Terminal> := [];
    ghost var nodes: seq<Node>, trace: seq<Note> := [], [];
    ghost var all := InlineSegments(shell, scripts, segments, stack);
    assert segments[0..] == segments;
    ThenNothing(all);
    for k := 0 to |segments|
      invariant all == Then(nodes, trace, InlineSegments(shell, scripts, segments[k..], stack))
      invariant terminals == Leaves(nodes, path)
      invariant state.View() == Tally(old(state.View()), trace) && !Stopped(state.View())
      invariant state.count >= old(state.count)
    {
      ghost var first := InlineSegment(shell, scripts, segments[k], stack);
      ghost var rest := InlineSegments(shell, scripts, segments[k + 1..], stack);
      UnfoldSegments(shell, scripts, segments, k, stack);
      PartEnds(old(state.View()), nodes, trace, first.trace, rest);
      TallyConcat(old(state.View()), trace, first.trace);
      var expanded := ExpandSegment(shell, scripts, segments[k], path, stack, state);
      if first.result.Success? {
        ThenTwice(nodes, trace, first.result.value, first.trace, rest);
      }
      if expanded.Failure? {
        return expanded;
      }
      LeavesAppend(nodes, first.result.value, path);
      terminals := terminals + expanded.value;
      nodes, trace := nodes + first.result.value, trace + first.trace;
    }
    assert nodes + [] == nodes && trace + [] == trace;
    return Success(terminals);
  }

  lemma UnfoldSegments(shell: Shell, scripts: Scripts, segments: seq<string>, k: nat, stack: set<string>)
    requires k < |segments|
    ensures InlineSegments(shell, scripts, segments[k..], stack)
            == var first := InlineSegment(shell, scripts, segments[k], stack);
               if first.result.Failure? then first
               else Then(first.result.value, first.trace, InlineSegments(shell, scripts, segments[k + 1..], stack))
  {
    assert segments[k..][0] == segments[k] && segments[k..][1..] == segments[k + 1..];
  }

  /** One segment: a command of its own, or the phases of the script it runs. */
  method ExpandSegment(shell: Shell, scripts: Scripts, segment: string, path: seq<string>, stack: set<string>,
                       state: ExpansionState)
    returns (r: Result<seq<Terminal>, ExpandError>)
    requires !Stopped(state.View())
    modifies state
    ensures var o := InlineSegment(shell, scripts, segment, stack);
            Follows(o, LeavesOf(o, path), old(state.View()), state.View(), r)
    ensures state.count >= old(state.count)
    decreases MAX_SCRIPT_EXPANSIONS + 1 - state.count, 3
  {
    if shell.stateful(segment) {
      return Failure(StatefulShell);
    }
    var invocation := shell.invocation(segment);
    if invocation.None? {
      OneNode(Leaf(segment), path);
      return Success([Terminal(segment, path + [segment])]);
    }
    var inv := invocation.value;
    if inv.script !in scripts {
      return Failure(Unavailable(inv.script));
    }
    if inv.script in stack {
      return Failure(Cycle(inv.script));
    }
    state.Add(LifecycleNames(scripts, inv));
    ghost var bodies := InlinePhases(shell, scripts, inv, Phases(scripts, inv), stack);
    TallyConcat(old(state.View()), Notes(LifecycleNames(scripts, inv)), bodies.trace);
    if bodies.result.Success? {
      OneNode(Call(segment, inv.script, bodies.result.value), path);
    }
    r := ExpandPhases(shell, scripts, inv, path + [segment], stack, state);
  }

  lemma OneNode(node: Node, path: seq<string>)
    ensures Leaves([node], path) == NodeLeaves(node, path)
  {
    assert [node][1..] == [];
    assert NodeLeaves(node, path) + [] == NodeLeaves(node, path);
  }

  /** The loop over the phases of an invocation. */
  method ExpandPhases(shell: Shell, scripts: Scripts, inv: Invocation, path: seq<string>, stack: set<string>,
                      state: ExpansionState)
    returns (r: Result<seq<Terminal>, ExpandError>)
    requires inv.script in scripts && inv.script !in stack && !Stopped(state.View())
    modifies state
    ensures var o := InlinePhases(shell, scripts, inv, Phases(scripts, inv), stack);
            Follows(o, BodyLeavesOf(o, path), old(state.View()), state.View(), r)
    ensures state.count >= old(state.count)
    decreases MAX_SCRIPT_EXPANSIONS + 1 - state.count, 2
  {
    var names := Phases(scripts, inv);
    var terminals: seq<Terminal> := [];
    ghost var bodies: seq<Body>, trace: seq<Note> := [], [];
    ghost var all := InlinePhases(shell, scripts, inv, names, stack);
    assert names[0..] == names;
    ThenNothing(all);
    for k := 0 to |names|
      invariant all == Then(bodies, trace, InlinePhases(shell, scripts, inv, names[k..], stack))
      invariant terminals == BodyLeaves(bodies, path)
      invariant state.View() == Tally(old(state.View()), trace) && !Stopped(state.View())
      invariant state.count >= old(state.count)
    {
      ghost var first := InlinePhase(shell, scripts, inv, names[k], stack);
      ghost var rest := InlinePhases(shell, scripts, inv, names[k + 1..], stack);
      UnfoldPhases(shell, scripts, inv, names, k, stack);
      PartEnds(old(state.View()), bodies, trace, first.trace, rest);
      TallyConcat(old(state.View()), trace, first.trace);
      var expanded := ExpandPhase(shell, scripts, inv, names[k], path, stack, state);
      if first.result.Success? {
        ThenTwice(bodies, trace, first.result.value, first.trace, rest);
      }
      if expanded.Failure? {
        return expanded;
      }
      BodyLeavesAppend(bodies, first.result.value, path);
      terminals := terminals + expanded.value;
      bodies, trace := bodies + first.result.value, trace + first.trace;
    }
    assert bodies + [] == bodies && trace + [] == trace;
    return Success(terminals);
  }

  lemma UnfoldPhases(shell: Shell, scripts: Scripts, inv: Invocation, names: seq<string>, k: nat, stack: set<string>)
    requires inv.script in scripts && inv.script !in stack && forall j :: 0 <= j < |names| ==> names[j] in scripts
    requires k < |names|
    ensures InlinePhases(shell, scripts, inv, names[k..], stack)
            == var first := InlinePhase(shell, scripts, inv, names[k], stack);
               if first.result.Failure? then first
               else Then(first.result.value, first.trace, InlinePhases(shell, scripts, inv, names[k + 1..], stack))
  {
    assert names[k..][0] == names[k] && names[k..][1..] == names[k + 1..];
  }

  /** One turn of the loop: the phase unless it is on the stack. */
  method ExpandPhase(shell: Shell, scripts: Scripts, inv: Invocation, scriptName: string, path: seq<string>,
                     stack: set<string>, state: ExpansionState)
    returns (r: Result<seq<Terminal>, ExpandError>)
    requires inv.script in scripts && inv.script !in stack && scriptName in scripts && !Stopped(state.View())
    modifies state
    ensures var o := InlinePhase(shell, scripts, inv, scriptName, stack);
            Follows(o, BodyLeavesOf(o, path), old(state.View()), state.View(), r)
    ensures state.count >= old(state.count)
    decreases MAX_SCRIPT_EXPANSIONS + 1 - state.count, 1
  {
    if scriptName in stack {
      return Failure(Cycle(scriptName));
    }
    var nextStack := stack + {inv.script, scriptName};
    var scriptCommand := PhaseCommand(scripts, inv, scriptName);
    ghost var body := Inline(shell, scripts, scriptCommand, nextStack);
    if body.result.Success? {
      OneBody(Body(scriptName, body.result.value), path);
    }
    r := ExpandCommand(shell, scripts, scriptCommand, path, nextStack, state);
  }

  lemma OneBody(body: Body, path: seq<string>)
    ensures BodyLeaves([body], path) == Leaves(body.nodes, path)
  {
    assert [body][1..] == [];
    assert Leaves(body.nodes, path) + [] == Leaves(body.nodes, path);
  }

  datatype Expansion = Expansion(error: Option<ExpandError>, lifecycleScripts: seq<string>, terminals: seq<Terminal>)

  /** What the entry point should return for an expansion with outcome `o`. */
  ghost function Reported(o: Outcome<Node>): Expansion {
    var end := Tally(Progress(0, []), o.trace);
    if Stopped(end) then Expansion(Some(TooManyCommands), end.lifecycle, [])
    else if o.result.Failure? then Expansion(Some(o.result.error), end.lifecycle, [])
    else Expansion(None, end.lifecycle, Leaves(o.result.value, []))
  }

  /** The full expansion of the command, in which no script runs below itself. */
  ghost predicate Expands(shell: Shell, scripts: Scripts, command: string, nodes: seq<Node>) {
    Inlines(shell, scripts, command, nodes) && Guarded(nodes, {})
  }

  /** The longest beginning with at most 16 commands. */
  function WithinLimit(trace: seq<Note>): seq<Note> {
    if CommandCount(trace) <= 16 then trace else assert trace != []; WithinLimit(trace[..|trace| - 1])
  }

  /** The lifecycle script is among the first `k` notes. */
  predicate MetBy(notes: seq<Note>, name: string, k: nat) {
    exists l :: 0 <= l < k && l < |notes| && notes[l] == Lifecycle(name)
  }

  /** The lifecycle scripts among the notes, each once, in the order in which they are first met. */
  predicate Mentions(names: seq<string>, notes: seq<Note>) {
    (forall i, j :: 0 <= i < j < |names| ==> names[i] != names[j])
    && (forall i :: 0 <= i < |names| ==> MetBy(notes, names[i], |notes|))
    && (forall k :: 0 <= k < |notes| && notes[k].Lifecycle? ==> notes[k].name in names)
    && forall i, j, k :: 0 <= i < j < |names| && 0 <= k < |notes| && notes[k] == Lifecycle(names[j]) ==>
         MetBy(notes, names[i], k)
  }

  lemma StillMet(notes: seq<Note>, note: Note, name: string, k: nat)
    requires MetBy(notes, name, k)
    ensures MetBy(notes + [note], name, k)
  {
    var l :| 0 <= l < k && l < |notes| && notes[l] == Lifecycle(name);
    assert (notes + [note])[l] == notes[l];
  }

  /** A command, or a script met before. */
  lemma MentionsOld(names: seq<string>, notes: seq<Note>, note: Note)
    requires Mentions(names, notes) && (note.Command? || note.name in names)
    ensures Mentions(names, notes + [note])
  {
    var all := notes + [note];
    forall i | 0 <= i < |names|
      ensures MetBy(all, names[i], |notes|) && MetBy(all, names[i], |all|)
    {
      StillMet(notes, note, names[i], |notes|);
    }
    forall i, j, k | 0 <= i < j < |names| && 0 <= k < |all| && all[k] == Lifecycle(names[j])
      ensures MetBy(all, names[i], k)
    {
      if k < |notes| {
        StillMet(notes, note, names[i], k);
      }
    }
  }

  /** A script met for the first time. */
  lemma MentionsNew(names: seq<string>, notes: seq<Note>, name: string)
    requires Mentions(names, notes) && name !in names
    ensures Mentions(names + [name], notes + [Lifecycle(name)])
  {
    var more, all := names + [name], notes + [Lifecycle(name)];
    assert all[|notes|] == Lifecycle(name);
    forall i | 0 <= i < |names|
      ensures MetBy(all, names[i], |notes|) && MetBy(all, names[i], |all|)
    {
      StillMet(notes, Lifecycle(name), names[i], |notes|);
    }
    forall i, j, k | 0 <= i < j < |more| && 0 <= k < |all| && all[k] == Lifecycle(more[j])
      ensures MetBy(all, more[i], k)
    {
      if k < |notes| {
        assert all[k] == notes[k];
        StillMet(notes, Lifecycle(name), names[i], k);
      }
    }
  }

  /** The list of the shared state is the lifecycle scripts met within the limit. */
  lemma {:induction false} TallyMentions(trace: seq<Note>)
    ensures Mentions(Tally(Progress(0, []), trace).lifecycle, WithinLimit(trace))
  {
    if trace != [] {
      var init, last := trace[..|trace| - 1], trace[|trace| - 1];
      TallyMentions(init);
      StoppedByCount(init);
      assert init + [last] == trace;
      if CommandCount(trace) <= 16 {
        var before := Tally(Progress(0, []), init).lifecycle;
        if last.Command? || last.name in before {
          MentionsOld(before, init, last);
        } else {
          MentionsNew(before, init, last.name);
        }
      }
    }
  }

  /** What is returned for these notes: a success, unless there is an error or they hold more than 16 commands. */
  ghost predicate Returned(r: Expansion, trace: seq<Note>, error: Option<ExpandError>, terminals: seq<Terminal>) {
    Mentions(r.lifecycleScripts, WithinLimit(trace))
    && r.error == (if CommandCount(trace) > 16 then Some(TooManyCommands) else error)
    && r.terminals == if r.error.None? then terminals else []
  }

  /**
   The entry point. Every command has a full expansion or a halt. Up to 16 commands it returns the leaves of the first,
   or the error of the second, with the lifecycle scripts met in order; beyond, it stops at the first command over the
   limit.
   */
  method ExpandLocalPackageScripts(shell: Shell, scripts: Scripts, command: string) returns (r: Expansion)
    ensures r == Reported(Inline(shell, scripts, command, {}))
    ensures Fails(shell, scripts, command, {}) <==> !exists nodes :: Expands(shell, scripts, command, nodes)
    ensures forall nodes :: Expands(shell, scripts, command, nodes) ==>
              Returned(r, [Command] + Trace(nodes), None, Leaves(nodes, []))
    ensures forall h :: Halts(shell, scripts, command, {}, h) ==>
              Returned(r, HaltTrace(scripts, h), Some(HaltError(h)), [])
  {
    var state := new ExpansionState();
    var result := ExpandCommand(shell, scripts, command, [], {}, state);
    r := Expansion(if result.Failure? then Some(result.error) else None, state.lifecycleScripts,
                   if result.Success? then result.value else []);
    ExpandsOrFails(shell, scripts, command);
    ReportedOfExpansion(shell, scripts, command);
    ReportedOfHalt(shell, scripts, command);
  }

  lemma ExpandsOrFails(shell: Shell, scripts: Scripts, command: string)
    ensures Fails(shell, scripts, command, {}) <==> !exists nodes :: Expands(shell, scripts, command, nodes)
  {
    FailureIffHalt(shell, scripts, command, {});
    var o := Inline(shell, scripts, command, {});
    if o.result.Success? {
      InlineSound(shell, scripts, command, {});
      assert Expands(shell, scripts, command, o.result.value);
    }
    forall nodes | Expands(shell, scripts, command, nodes)
      ensures o.result == Success(nodes)
    {
      InlineComplete(shell, scripts, command, nodes, {});
    }
  }

  lemma StoppedByCount(trace: seq<Note>)
    ensures Stopped(Tally(Progress(0, []), trace)) <==> CommandCount(trace) > 16
  {
    StoppedIff(Progress(0, []), trace);
  }

  lemma ReportedOfExpansion(shell: Shell, scripts: Scripts, command: string)
    ensures forall nodes :: Expands(shell, scripts, command, nodes) ==>
              Returned(Reported(Inline(shell, scripts, command, {})), [Command] + Trace(nodes), None, Leaves(nodes, []))
  {
    forall nodes | Expands(shell, scripts, command, nodes)
      ensures Returned(Reported(Inline(shell, scripts, command, {})), [Command] + Trace(nodes), None, Leaves(nodes, []))
    {
      InlineComplete(shell, scripts, command, nodes, {});
      InlineSound(shell, scripts, command, {});
      StoppedByCount([Command] + Trace(nodes));
      TallyMentions([Command] + Trace(nodes));
    }
  }

  lemma ReportedOfHalt(shell: Shell, scripts: Scripts, command: string)
    ensures forall h :: Halts(shell, scripts, command, {}, h) ==>
              Returned(Reported(Inline(shell, scripts, command, {})), HaltTrace(scripts, h), Some(HaltError(h)), [])
  {
    FailureIffHalt(shell, scripts, command, {});
    forall h | Halts(shell, scripts, command, {}, h)
      ensures Returned(Reported(Inline(shell, scripts, command, {})), HaltTrace(scripts, h), Some(HaltError(h)), [])
    {
      StoppedByCount(HaltTrace(scripts, h));
      TallyMentions(HaltTrace(scripts, h));
    }
  }

  /** The commands of a full expansion, itself included. */
  lemma CountOfExpansion(nodes: seq<Node>)
    ensures CommandCount([Command] + Trace(nodes)) == 1 + Commands(nodes)
  {
    CountConcat([Command], Trace(nodes));
    assert [Command][..0] == [] && CommandCount([Command]) == 1;
    TraceCounts(nodes);
  }
}
