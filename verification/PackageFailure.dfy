/**
 The failures of the unlimited expansion of PackageScripts, told without its algorithm: what was expanded before the
 first thing that cannot be, which thing that is, and the notes made until then.
 */
module PackageFailure {
  import opened Wrappers
  import opened PackageScripts
  import AndChain

  /** Where an expansion ends: `done` are the full expansions of the segments before. */
  datatype Halt = Unsplit | InSegment(done: seq<Node>, stop: Stop)

  /** Why a segment has no expansion; `bodies` are those of the phases before the phase `name`. */
  datatype Stop =
    | Stateful
    | Missing(script: string)
    | Looping(script: string)
    | OnStack(inv: Invocation, bodies: seq<Body>, name: string)
    | Below(inv: Invocation, bodies: seq<Body>, name: string, halt: Halt)

  function HookNames(scripts: Scripts, inv: Invocation): seq<string> {
    (if HasHook(scripts, inv, "pre") then ["pre" + inv.script] else [])
    + (if HasHook(scripts, inv, "post") then ["post" + inv.script] else [])
  }

  // ---------- the relation ----------

  predicate Halts(shell: Shell, scripts: Scripts, command: string, stack: set<string>, h: Halt)
    decreases h
  {
    var segments := AndChain.Split(command);
    match h
    case Unsplit => segments.None?
    case InSegment(done, stop) =>
      segments.Some? && |done| < |segments.value|
      && InlinesSegments(shell, scripts, segments.value[..|done|], done) && Guarded(done, stack)
      && HaltsSegment(shell, scripts, segments.value[|done|], stack, stop)
  }

  predicate HaltsSegment(shell: Shell, scripts: Scripts, segment: string, stack: set<string>, stop: Stop)
    decreases stop
  {
    var inv := shell.invocation(segment);
    if shell.stateful(segment) then stop == Stateful
    else
      inv.Some?
      && if inv.value.script !in scripts then stop == Missing(inv.value.script)
         else if inv.value.script in stack then stop == Looping(inv.value.script)
         else
           match stop
           case OnStack(i, bodies, name) =>
             i == inv.value && After(shell, scripts, i, bodies, name, stack) && name in stack
           case Below(i, bodies, name, halt) =>
             i == inv.value && After(shell, scripts, i, bodies, name, stack) && name !in stack
             && Halts(shell, scripts, PhaseOf(scripts, i, |bodies|).value.command, stack + {i.script, name}, halt)
           case _ => false
  }

  /** The phases before `name` were expanded to `bodies`. */
  predicate After(shell: Shell, scripts: Scripts, inv: Invocation, bodies: seq<Body>, name: string, stack: set<string>)
    requires inv.script in scripts
  {
    (forall j :: 0 <= j < |bodies| ==>
       PhaseOf(scripts, inv, j).Some? && Runs(shell, scripts, PhaseOf(scripts, inv, j).value, bodies[j]))
    && GuardedBodies(inv.script, bodies, stack)
    && PhaseOf(scripts, inv, |bodies|).Some? && PhaseOf(scripts, inv, |bodies|).value.name == name
  }

  function HaltError(h: Halt): ExpandError {
    match h
    case Unsplit => DynamicSyntax
    case InSegment(_, stop) => StopError(stop)
  }

  function StopError(stop: Stop): ExpandError {
    match stop
    case Stateful => StatefulShell
    case Missing(script) => Unavailable(script)
    case Looping(script) => Cycle(script)
    case OnStack(_, _, name) => Cycle(name)
    case Below(_, _, _, halt) => HaltError(halt)
  }

  /** The commands started and the lifecycle scripts met until then, in order. */
  function HaltTrace(scripts: Scripts, h: Halt): seq<Note>
    decreases h
  {
    match h
    case Unsplit => [Command]
    case InSegment(done, stop) => [Command] + (Trace(done) + StopTrace(scripts, stop))
  }

  function StopTrace(scripts: Scripts, stop: Stop): seq<Note>
    decreases stop
  {
    match stop
    case OnStack(inv, bodies, _) => Notes(HookNames(scripts, inv)) + BodyTrace(bodies)
    case Below(inv, bodies, _, halt) =>
      Notes(HookNames(scripts, inv)) + (BodyTrace(bodies) + HaltTrace(scripts, halt))
    case _ => []
  }

  // ---------- the phases, as the loop goes through them ----------

  lemma AfterIff(shell: Shell, scripts: Scripts, inv: Invocation, bodies: seq<Body>, name: string, stack: set<string>)
    requires inv.script in scripts
    ensures var names := Phases(scripts, inv);
            After(shell, scripts, inv, bodies, name, stack)
            <==> |bodies| < |names| && InlinesPhases(shell, scripts, inv, names[..|bodies|], bodies)
                 && GuardedBodies(inv.script, bodies, stack) && names[|bodies|] == name
  {
    var names := Phases(scripts, inv);
    PhaseAt(scripts, inv, |bodies|);
    if |bodies| < |names| {
      PhasesByIndex(shell, scripts, inv, names[..|bodies|], bodies);
      forall j | 0 <= j < |bodies|
        ensures PhaseOf(scripts, inv, j) == Some(Phase(names[j], PhaseCommand(scripts, inv, names[j])))
      {
        PhaseAt(scripts, inv, j);
      }
    }
  }

  // ---------- every failure is a halt ----------

  lemma {:induction false} FailureHalts(shell: Shell, scripts: Scripts, command: string, stack: set<string>)
    returns (h: Halt)
    requires Inline(shell, scripts, command, stack).result.Failure?
    ensures Halts(shell, scripts, command, stack, h)
    decreases |scripts.Keys - stack|, 2, 0
  {
    var segments := AndChain.Split(command);
    if segments.None? {
      h := Unsplit;
    } else {
      var done, stop := SegmentsHalt(shell, scripts, segments.value, stack);
      h := InSegment(done, stop);
    }
  }

  lemma {:induction false} SegmentsHalt(shell: Shell, scripts: Scripts, segments: seq<string>, stack: set<string>)
    returns (done: seq<Node>, stop: Stop)
    requires InlineSegments(shell, scripts, segments, stack).result.Failure?
    ensures |done| < |segments| && InlinesSegments(shell, scripts, segments[..|done|], done) && Guarded(done, stack)
    ensures HaltsSegment(shell, scripts, segments[|done|], stack, stop)
    decreases |scripts.Keys - stack|, 1, |segments|
  {
    var first := InlineSegment(shell, scripts, segments[0], stack);
    if first.result.Failure? {
      done := [];
      stop := SegmentHalts(shell, scripts, segments[0], stack);
    } else {
      SegmentSound(shell, scripts, segments[0], stack);
      var more;
      more, stop := SegmentsHalt(shell, scripts, segments[1..], stack);
      done := first.result.value + more;
      DoneFirst(shell, scripts, segments, first.result.value[0], more, stack);
      assert done == [first.result.value[0]] + more;
    }
  }

  lemma DoneFirst(shell: Shell, scripts: Scripts, segments: seq<string>, node: Node, more: seq<Node>,
                  stack: set<string>)
    requires |more| + 1 < |segments| && InlinesSegment(shell, scripts, segments[0], node) && GuardedNode(node, stack)
    requires InlinesSegments(shell, scripts, segments[1..][..|more|], more) && Guarded(more, stack)
    ensures var done := [node] + more;
            InlinesSegments(shell, scripts, segments[..|done|], done) && Guarded(done, stack)
  {
    var done := [node] + more;
    assert done[1..] == more && segments[..|done|][1..] == segments[1..][..|more|];
  }

  lemma {:induction false} SegmentHalts(shell: Shell, scripts: Scripts, segment: string, stack: set<string>)
    returns (stop: Stop)
    requires InlineSegment(shell, scripts, segment, stack).result.Failure?
    ensures HaltsSegment(shell, scripts, segment, stack, stop)
    decreases |scripts.Keys - stack|, 1, 0
  {
    var inv := shell.invocation(segment);
    if shell.stateful(segment) {
      stop := Stateful;
    } else if inv.value.script !in scripts {
      stop := Missing(inv.value.script);
    } else if inv.value.script in stack {
      stop := Looping(inv.value.script);
    } else {
      stop := CallHalts(shell, scripts, inv.value, stack);
    }
  }

  /** The phase at which a call ends. */
  predicate CallStops(shell: Shell, scripts: Scripts, inv: Invocation, stack: set<string>, stop: Stop)
    requires inv.script in scripts
  {
    match stop
    case OnStack(i, bodies, name) =>
      i == inv && After(shell, scripts, i, bodies, name, stack) && name in stack
    case Below(i, bodies, name, halt) =>
      i == inv && After(shell, scripts, i, bodies, name, stack) && name !in stack
      && Halts(shell, scripts, PhaseOf(scripts, i, |bodies|).value.command, stack + {i.script, name}, halt)
    case _ => false
  }

  lemma {:induction false} CallHalts(shell: Shell, scripts: Scripts, inv: Invocation, stack: set<string>)
    returns (stop: Stop)
    requires inv.script in scripts && inv.script !in stack
    requires InlinePhases(shell, scripts, inv, Phases(scripts, inv), stack).result.Failure?
    ensures CallStops(shell, scripts, inv, stack, stop)
    decreases |scripts.Keys - stack|, 0, |Phases(scripts, inv)| + 1
  {
    var names := Phases(scripts, inv);
    var bodies := PhasesHalt(shell, scripts, inv, names, stack);
    var name := names[|bodies|];
    AfterIff(shell, scripts, inv, bodies, name, stack);
    PhaseAt(scripts, inv, |bodies|);
    if name in stack {
      stop := OnStack(inv, bodies, name);
    } else {
      StackGrows(scripts, inv.script, name, stack);
      var halt := FailureHalts(shell, scripts, PhaseCommand(scripts, inv, name), stack + {inv.script, name});
      stop := Below(inv, bodies, name, halt);
    }
  }

  lemma {:induction false} PhasesHalt(shell: Shell, scripts: Scripts, inv: Invocation, names: seq<string>,
                                      stack: set<string>)
    returns (bodies: seq<Body>)
    requires inv.script in scripts && inv.script !in stack && forall k :: 0 <= k < |names| ==> names[k] in scripts
    requires InlinePhases(shell, scripts, inv, names, stack).result.Failure?
    ensures |bodies| < |names| && InlinesPhases(shell, scripts, inv, names[..|bodies|], bodies)
    ensures GuardedBodies(inv.script, bodies, stack)
    ensures InlinePhase(shell, scripts, inv, names[|bodies|], stack).result.Failure?
    decreases |scripts.Keys - stack|, 0, |names|
  {
    var first := InlinePhase(shell, scripts, inv, names[0], stack);
    if first.result.Failure? {
      bodies := [];
    } else {
      var more := PhasesHalt(shell, scripts, inv, names[1..], stack);
      PhaseSound(shell, scripts, inv, names[0], stack);
      bodies := [first.result.value[0]] + more;
      assert bodies[1..] == more && names[..|bodies|][1..] == names[1..][..|more|];
    }
  }

  lemma PhaseSound(shell: Shell, scripts: Scripts, inv: Invocation, name: string, stack: set<string>)
    requires inv.script in scripts && inv.script !in stack && name in scripts
    requires InlinePhase(shell, scripts, inv, name, stack).result.Success?
    ensures var o := InlinePhase(shell, scripts, inv, name, stack);
            |o.result.value| == 1 && RunsPhase(shell, scripts, inv, name, o.result.value[0])
            && GuardedBodies(inv.script, o.result.value, stack)
            && o.trace == [Command] + Trace(o.result.value[0].nodes)
  {
    StackGrows(scripts, inv.script, name, stack);
    InlineSound(shell, scripts, PhaseCommand(scripts, inv, name), stack + {inv.script, name});
    var body := InlinePhase(shell, scripts, inv, name, stack).result.value;
    assert body[1..] == [];
  }

  // ---------- every halt is a failure ----------

  lemma {:induction false} HaltFails(shell: Shell, scripts: Scripts, command: string, stack: set<string>, h: Halt)
    requires Halts(shell, scripts, command, stack, h)
    ensures Inline(shell, scripts, command, stack) == Outcome(HaltTrace(scripts, h), Failure(HaltError(h)))
    decreases h, 1
  {
    if h.InSegment? {
      SegmentsFail(shell, scripts, AndChain.Split(command).value, stack, h.done, h.stop);
    }
  }

  lemma {:induction false} SegmentsFail(shell: Shell, scripts: Scripts, segments: seq<string>, stack: set<string>,
                                        done: seq<Node>, stop: Stop)
    requires |done| < |segments| && InlinesSegments(shell, scripts, segments[..|done|], done) && Guarded(done, stack)
    requires HaltsSegment(shell, scripts, segments[|done|], stack, stop)
    ensures InlineSegments(shell, scripts, segments, stack)
            == Outcome(Trace(done) + StopTrace(scripts, stop), Failure(StopError(stop)))
    decreases stop, 3, |done|
  {
    if done == [] {
      SegmentFails(shell, scripts, segments[0], stack, stop);
      assert [] + StopTrace(scripts, stop) == StopTrace(scripts, stop);
    } else {
      DoneRest(shell, scripts, segments, done, stack);
      SegmentsFail(shell, scripts, segments[1..], stack, done[1..], stop);
      FailsLater(shell, scripts, segments, stack, done[0], Trace(done[1..]) + StopTrace(scripts, stop),
                 StopError(stop));
      Assoc(NodeTrace(done[0]), Trace(done[1..]), StopTrace(scripts, stop));
    }
  }

  lemma DoneRest(shell: Shell, scripts: Scripts, segments: seq<string>, done: seq<Node>, stack: set<string>)
    requires 0 < |done| < |segments| && InlinesSegments(shell, scripts, segments[..|done|], done)
    requires Guarded(done, stack)
    ensures InlinesSegment(shell, scripts, segments[0], done[0]) && GuardedNode(done[0], stack)
    ensures InlinesSegments(shell, scripts, segments[1..][..|done| - 1], done[1..]) && Guarded(done[1..], stack)
  {
    assert segments[..|done|][0] == segments[0] && segments[..|done|][1..] == segments[1..][..|done| - 1];
  }

  lemma FailsLater(shell: Shell, scripts: Scripts, segments: seq<string>, stack: set<string>, node: Node,
                   trace: seq<Note>, error: ExpandError)
    requires segments != [] && InlinesSegment(shell, scripts, segments[0], node) && GuardedNode(node, stack)
    requires InlineSegments(shell, scripts, segments[1..], stack) == Outcome(trace, Failure(error))
    ensures InlineSegments(shell, scripts, segments, stack) == Outcome(NodeTrace(node) + trace, Failure(error))
  {
    SegmentSucceeds(shell, scripts, segments[0], node, stack);
  }

  lemma Assoc<T>(a: seq<T>, b: seq<T>, c: seq<T>)
    ensures a + b + c == a + (b + c)
  {
  }

  lemma SegmentSucceeds(shell: Shell, scripts: Scripts, segment: string, node: Node, stack: set<string>)
    requires InlinesSegment(shell, scripts, segment, node) && GuardedNode(node, stack)
    ensures InlineSegment(shell, scripts, segment, stack) == Outcome(NodeTrace(node), Success([node]))
  {
    SegmentComplete(shell, scripts, segment, node, stack);
    SegmentSound(shell, scripts, segment, stack);
  }

  lemma {:induction false} SegmentFails(shell: Shell, scripts: Scripts, segment: string, stack: set<string>, stop: Stop)
    requires HaltsSegment(shell, scripts, segment, stack, stop)
    ensures InlineSegment(shell, scripts, segment, stack)
            == Outcome(StopTrace(scripts, stop), Failure(StopError(stop)))
    decreases stop, 2
  {
    if stop.OnStack? || stop.Below? {
      CallFails(shell, scripts, stop.inv, stack, stop);
      assert HookNames(scripts, stop.inv) == LifecycleNames(scripts, stop.inv);
    }
  }

  /** The trace of a call from its first phase on. */
  function CallTrace(scripts: Scripts, stop: Stop): seq<Note>
    requires stop.OnStack? || stop.Below?
  {
    BodyTrace(stop.bodies) + if stop.Below? then HaltTrace(scripts, stop.halt) else []
  }

  lemma {:induction false} CallFails(shell: Shell, scripts: Scripts, inv: Invocation, stack: set<string>, stop: Stop)
    requires inv.script in scripts && inv.script !in stack && CallStops(shell, scripts, inv, stack, stop)
    ensures InlinePhases(shell, scripts, inv, Phases(scripts, inv), stack)
            == Outcome(CallTrace(scripts, stop), Failure(StopError(stop)))
    decreases stop, 1
  {
    PhasesBefore(shell, scripts, inv, stack, stop);
    LastPhaseFails(shell, scripts, inv, stack, stop);
    PhasesFail(shell, scripts, inv, Phases(scripts, inv), stack, stop.bodies,
               if stop.Below? then HaltTrace(scripts, stop.halt) else [], StopError(stop));
  }

  /** Of these phases some first ones were expanded to `bodies`, and there is a next one. */
  predicate Done(shell: Shell, scripts: Scripts, inv: Invocation, names: seq<string>, stack: set<string>,
                 bodies: seq<Body>)
  {
    inv.script in scripts && inv.script !in stack && (forall k :: 0 <= k < |names| ==> names[k] in scripts)
    && |bodies| < |names| && InlinesPhases(shell, scripts, inv, names[..|bodies|], bodies)
    && GuardedBodies(inv.script, bodies, stack)
  }

  lemma PhasesBefore(shell: Shell, scripts: Scripts, inv: Invocation, stack: set<string>, stop: Stop)
    requires inv.script in scripts && inv.script !in stack && CallStops(shell, scripts, inv, stack, stop)
    ensures Done(shell, scripts, inv, Phases(scripts, inv), stack, stop.bodies)
    ensures Phases(scripts, inv)[|stop.bodies|] == stop.name
  {
    AfterIff(shell, scripts, inv, stop.bodies, stop.name, stack);
    PhasesExist(scripts, inv);
  }

  lemma PhasesExist(scripts: Scripts, inv: Invocation)
    requires inv.script in scripts
    ensures forall k :: 0 <= k < |Phases(scripts, inv)| ==> Phases(scripts, inv)[k] in scripts
  {
  }

  lemma {:induction false} LastPhaseFails(shell: Shell, scripts: Scripts, inv: Invocation, stack: set<string>,
                                          stop: Stop)
    requires inv.script in scripts && inv.script !in stack && CallStops(shell, scripts, inv, stack, stop)
    requires stop.name in scripts
    ensures InlinePhase(shell, scripts, inv, stop.name, stack)
            == Outcome(if stop.Below? then HaltTrace(scripts, stop.halt) else [], Failure(StopError(stop)))
    decreases stop, 0
  {
    if stop.Below? {
      PhaseAt(scripts, inv, |stop.bodies|);
      HaltFails(shell, scripts, PhaseCommand(scripts, inv, stop.name), stack + {inv.script, stop.name}, stop.halt);
    }
  }

  lemma {:induction false} PhasesFail(shell: Shell, scripts: Scripts, inv: Invocation, names: seq<string>,
                                      stack: set<string>, bodies: seq<Body>, trace: seq<Note>, error: ExpandError)
    requires Done(shell, scripts, inv, names, stack, bodies)
    requires InlinePhase(shell, scripts, inv, names[|bodies|], stack) == Outcome(trace, Failure(error))
    ensures InlinePhases(shell, scripts, inv, names, stack) == Outcome(BodyTrace(bodies) + trace, Failure(error))
    decreases |bodies|
  {
    if bodies == [] {
      assert [] + trace == trace;
    } else {
      BodiesRest(shell, scripts, inv, names, bodies, stack);
      PhasesFail(shell, scripts, inv, names[1..], stack, bodies[1..], trace, error);
      PhaseFailsLater(shell, scripts, inv, names, stack, bodies[0], BodyTrace(bodies[1..]) + trace, error);
      Assoc([Command] + Trace(bodies[0].nodes), BodyTrace(bodies[1..]), trace);
    }
  }

  lemma BodiesRest(shell: Shell, scripts: Scripts, inv: Invocation, names: seq<string>, bodies: seq<Body>,
                   stack: set<string>)
    requires Done(shell, scripts, inv, names, stack, bodies) && bodies != []
    ensures RunsPhase(shell, scripts, inv, names[0], bodies[0]) && names[0] !in stack
    ensures Guarded(bodies[0].nodes, stack + {inv.script, names[0]})
    ensures Done(shell, scripts, inv, names[1..], stack, bodies[1..])
  {
    assert names[..|bodies|][0] == names[0] && names[..|bodies|][1..] == names[1..][..|bodies| - 1];
  }

  lemma PhaseFailsLater(shell: Shell, scripts: Scripts, inv: Invocation, names: seq<string>, stack: set<string>,
                        body: Body, trace: seq<Note>, error: ExpandError)
    requires inv.script in scripts && inv.script !in stack && forall k :: 0 <= k < |names| ==> names[k] in scripts
    requires names != [] && names[0] !in stack && RunsPhase(shell, scripts, inv, names[0], body)
    requires Guarded(body.nodes, stack + {inv.script, names[0]})
    requires InlinePhases(shell, scripts, inv, names[1..], stack) == Outcome(trace, Failure(error))
    ensures InlinePhases(shell, scripts, inv, names, stack)
            == Outcome([Command] + Trace(body.nodes) + trace, Failure(error))
  {
    PhaseSucceeds(shell, scripts, inv, names[0], body, stack);
  }

  lemma PhaseSucceeds(shell: Shell, scripts: Scripts, inv: Invocation, name: string, body: Body, stack: set<string>)
    requires inv.script in scripts && inv.script !in stack && name in scripts && name !in stack
    requires RunsPhase(shell, scripts, inv, name, body) && Guarded(body.nodes, stack + {inv.script, name})
    ensures InlinePhase(shell, scripts, inv, name, stack) == Outcome([Command] + Trace(body.nodes), Success([body]))
  {
    PhaseComplete(shell, scripts, inv, name, body, stack);
    PhaseSound(shell, scripts, inv, name, stack);
  }

  ghost predicate Fails(shell: Shell, scripts: Scripts, command: string, stack: set<string>) {
    exists h :: Halts(shell, scripts, command, stack, h)
  }

  /** Without the limit, expansion fails exactly where a halt tells, with its error and its notes. */
  lemma FailureIffHalt(shell: Shell, scripts: Scripts, command: string, stack: set<string>)
    ensures Inline(shell, scripts, command, stack).result.Failure? <==> Fails(shell, scripts, command, stack)
    ensures forall h :: Halts(shell, scripts, command, stack, h) ==>
              Inline(shell, scripts, command, stack) == Outcome(HaltTrace(scripts, h), Failure(HaltError(h)))
  {
    if Inline(shell, scripts, command, stack).result.Failure? {
      var h := FailureHalts(shell, scripts, command, stack);
    }
    forall h | Halts(shell, scripts, command, stack, h)
      ensures Inline(shell, scripts, command, stack) == Outcome(HaltTrace(scripts, h), Failure(HaltError(h)))
    {
      HaltFails(shell, scripts, command, stack, h);
    }
  }
}
