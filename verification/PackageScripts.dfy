/**
 Expansion of local package scripts in ci/test-optimization-validation/ci-package-scripts.js.

 `Inline` is the expansion without the limit on commands: its recursion ends because the stack of scripts grows
 within the script table. `ExpandCommand` is the program, with the limit and the shared state. `Inlines` says,
 without any algorithm, what it means for a tree to be the full expansion of a command.
 */
module PackageScripts {
  import opened Wrappers
  import AndChain

  const MAX_SCRIPT_EXPANSIONS: nat := 16

  datatype Invocation = Invocation(manager: string, script: string, arguments: Option<string>)

  /** The regular-expression tests of the source on one segment. */
  datatype Shell = Shell(stateful: string -> bool, invocation: string -> Option<Invocation>)

  type Scripts = map<string, string>

  datatype Terminal = Terminal(command: string, path: seq<string>)

  datatype ExpandError =
    TooManyCommands | DynamicSyntax | StatefulShell | Unavailable(script: string) | Cycle(script: string)

  // ---------- one invocation ----------

  function LifecycleNames(scripts: Scripts, inv: Invocation): seq<string> {
    if inv.manager == "npm" || inv.manager == "bun"
    then (if "pre" + inv.script in scripts then ["pre" + inv.script] else [])
         + (if "post" + inv.script in scripts then ["post" + inv.script] else [])
    else []
  }

  /** The scripts an invocation runs, in order. */
  function Phases(scripts: Scripts, inv: Invocation): seq<string> {
    var names := LifecycleNames(scripts, inv);
    (if "pre" + inv.script in names then ["pre" + inv.script] else [])
    + [inv.script]
    + (if "post" + inv.script in names then ["post" + inv.script] else [])
  }

  function PhaseCommand(scripts: Scripts, inv: Invocation, name: string): string
    requires name in scripts
  {
    if name == inv.script && inv.arguments.Some? && inv.arguments.value != ""
    then scripts[name] + " " + inv.arguments.value
    else scripts[name]
  }

  // ---------- expansion trees ----------

  datatype Node = Leaf(segment: string) | Call(segment: string, script: string, bodies: seq<Body>)

  /** One phase of a call: the script and the expansion of its command. */
  datatype Body = Body(name: string, nodes: seq<Node>)

  /** The commands at the leaves, in order, each with the segments that lead to it. */
  function Leaves(nodes: seq<Node>, path: seq<string>): seq<Terminal>
    decreases nodes
  {
    if nodes == [] then [] else NodeLeaves(nodes[0], path) + Leaves(nodes[1..], path)
  }

  function NodeLeaves(node: Node, path: seq<string>): seq<Terminal>
    decreases node
  {
    match node
    case Leaf(segment) => [Terminal(segment, path + [segment])]
    case Call(segment, _, bodies) => BodyLeaves(bodies, path + [segment])
  }

  function BodyLeaves(bodies: seq<Body>, path: seq<string>): seq<Terminal>
    decreases bodies
  {
    if bodies == [] then [] else Leaves(bodies[0].nodes, path) + BodyLeaves(bodies[1..], path)
  }

  /** What an expansion notes as it goes: a command it starts on, or a lifecycle script it meets. */
  datatype Note = Command | Lifecycle(name: string)

  function Notes(names: seq<string>): seq<Note> {
    seq(|names|, k requires 0 <= k < |names| => Lifecycle(names[k]))
  }

  /** The notes of a tree, in order; a call first mentions its phases other than the script itself. */
  function Trace(nodes: seq<Node>): seq<Note>
    decreases nodes
  {
    if nodes == [] then [] else NodeTrace(nodes[0]) + Trace(nodes[1..])
  }

  function NodeTrace(node: Node): seq<Note>
    decreases node
  {
    match node
    case Leaf(_) => []
    case Call(_, script, bodies) => Notes(Others(script, bodies)) + BodyTrace(bodies)
  }

  function BodyTrace(bodies: seq<Body>): seq<Note>
    decreases bodies
  {
    if bodies == [] then [] else [Command] + Trace(bodies[0].nodes) + BodyTrace(bodies[1..])
  }

  function Others(script: string, bodies: seq<Body>): seq<string> {
    if bodies == [] then []
    else (if bodies[0].name == script then [] else [bodies[0].name]) + Others(script, bodies[1..])
  }

  function CommandCount(trace: seq<Note>): nat {
    if trace == [] then 0
    else CommandCount(trace[..|trace| - 1]) + if trace[|trace| - 1].Command? then 1 else 0
  }

  /** The number of commands below, not counting the one whose expansion `nodes` is. */
  function Commands(nodes: seq<Node>): nat
    decreases nodes
  {
    if nodes == [] then 0 else NodeCommands(nodes[0]) + Commands(nodes[1..])
  }

  function NodeCommands(node: Node): nat
    decreases node
  {
    if node.Leaf? then 0 else BodyCommands(node.bodies)
  }

  function BodyCommands(bodies: seq<Body>): nat
    decreases bodies
  {
    if bodies == [] then 0 else 1 + Commands(bodies[0].nodes) + BodyCommands(bodies[1..])
  }

  // ---------- what a call runs ----------

  datatype Phase = Phase(name: string, command: string)

  /** Under npm and bun a script has the hooks that the table holds for it. */
  predicate HasHook(scripts: Scripts, inv: Invocation, hook: string) {
    inv.manager in ["npm", "bun"] && hook + inv.script in scripts
  }

  function WithArguments(command: string, arguments: Option<string>): string {
    match arguments
    case None => command
    case Some(text) => if text == "" then command else command + " " + text
  }

  /** Phase `j` of a call: the script with the arguments of the call, between its hooks. */
  function PhaseOf(scripts: Scripts, inv: Invocation, j: nat): Option<Phase>
    requires inv.script in scripts
  {
    var before := if HasHook(scripts, inv, "pre") then 1 else 0;
    if j < before then Some(Phase("pre" + inv.script, scripts["pre" + inv.script]))
    else if j == before then Some(Phase(inv.script, WithArguments(scripts[inv.script], inv.arguments)))
    else if j == before + 1 && HasHook(scripts, inv, "post")
    then Some(Phase("post" + inv.script, scripts["post" + inv.script]))
    else None
  }

  // ---------- full expansions ----------

  /** `nodes` is the full expansion of `command`: a node per segment, in order. */
  predicate Inlines(shell: Shell, scripts: Scripts, command: string, nodes: seq<Node>)
    decreases nodes, 2
  {
    var segments := AndChain.Split(command);
    segments.Some? && InlinesSegments(shell, scripts, segments.value, nodes)
  }

  predicate InlinesSegments(shell: Shell, scripts: Scripts, segments: seq<string>, nodes: seq<Node>)
    decreases nodes, 1
  {
    if segments == [] || nodes == [] then segments == [] && nodes == []
    else
      InlinesSegment(shell, scripts, segments[0], nodes[0])
      && InlinesSegments(shell, scripts, segments[1..], nodes[1..])
  }

  /** A segment that runs no script stands for itself; one that does stands for all its phases. */
  predicate InlinesSegment(shell: Shell, scripts: Scripts, segment: string, node: Node)
    decreases node, 0
  {
    var inv := shell.invocation(segment);
    !shell.stateful(segment) && node.segment == segment
    && if inv.None? then node.Leaf?
       else node.Call? && node.script == inv.value.script && inv.value.script in scripts
               && InlinesCall(shell, scripts, inv.value, node.bodies)
  }

  /** The bodies of a call are those of its phases. */
  predicate InlinesCall(shell: Shell, scripts: Scripts, inv: Invocation, bodies: seq<Body>)
    requires inv.script in scripts
    decreases bodies, 4
  {
    (forall j :: 0 <= j < |bodies| ==>
       PhaseOf(scripts, inv, j).Some? && Runs(shell, scripts, PhaseOf(scripts, inv, j).value, bodies[j]))
    && PhaseOf(scripts, inv, |bodies|).None?
  }

  predicate Runs(shell: Shell, scripts: Scripts, phase: Phase, body: Body)
    decreases body, 3
  {
    body.name == phase.name && Inlines(shell, scripts, phase.command, body.nodes)
  }

  /** No script runs below itself, and none runs below a phase it belongs to. */
  predicate Guarded(nodes: seq<Node>, stack: set<string>)
    decreases nodes
  {
    nodes == [] || (GuardedNode(nodes[0], stack) && Guarded(nodes[1..], stack))
  }

  predicate GuardedNode(node: Node, stack: set<string>)
    decreases node
  {
    node.Leaf? || (node.script !in stack && GuardedBodies(node.script, node.bodies, stack))
  }

  predicate GuardedBodies(script: string, bodies: seq<Body>, stack: set<string>)
    decreases bodies
  {
    bodies == []
    || (bodies[0].name !in stack && Guarded(bodies[0].nodes, stack + {script, bodies[0].name})
        && GuardedBodies(script, bodies[1..], stack))
  }

  // ---------- the expansion without the limit ----------

  /** What the expansion noted until its end or its first error, and the tree or the error. */
  datatype Outcome<T> = Outcome(trace: seq<Note>, result: Result<seq<T>, ExpandError>)

  function Failed<T>(error: ExpandError): Outcome<T> {
    Outcome([], Failure(error))
  }

  /** `done`, a success, then `next`. */
  function Then<T>(done: seq<T>, trace: seq<Note>, next: Outcome<T>): Outcome<T> {
    Outcome(trace + next.trace, if next.result.Success? then Success(done + next.result.value) else next.result)
  }

  function Inline(shell: Shell, scripts: Scripts, command: string, stack: set<string>): Outcome<Node>
    decreases |scripts.Keys - stack|, 2, 0
  {
    match AndChain.Split(command)
    case None => Outcome([Command], Failure(DynamicSyntax))
    case Some(segments) => Then([], [Command], InlineSegments(shell, scripts, segments, stack))
  }

  function InlineSegments(shell: Shell, scripts: Scripts, segments: seq<string>, stack: set<string>): Outcome<Node>
    decreases |scripts.Keys - stack|, 1, |segments|
  {
    if segments == [] then Outcome([], Success([]))
    else
      var first := InlineSegment(shell, scripts, segments[0], stack);
      if first.result.Failure? then first
      else Then(first.result.value, first.trace, InlineSegments(shell, scripts, segments[1..], stack))
  }

  function InlineSegment(shell: Shell, scripts: Scripts, segment: string, stack: set<string>): Outcome<Node>
    decreases |scripts.Keys - stack|, 1, 0
  {
    var inv := shell.invocation(segment);
    if shell.stateful(segment) then Failed(StatefulShell)
    else if inv.None? then Outcome([], Success([Leaf(segment)]))
    else if inv.value.script !in scripts then Failed(Unavailable(inv.value.script))
    else if inv.value.script in stack then Failed(Cycle(inv.value.script))
    else
      var bodies := InlinePhases(shell, scripts, inv.value, Phases(scripts, inv.value), stack);
      Outcome(Notes(LifecycleNames(scripts, inv.value)) + bodies.trace,
              if bodies.result.Failure? then Failure(bodies.result.error)
              else Success([Call(segment, inv.value.script, bodies.result.value)]))
  }

  function InlinePhases(shell: Shell, scripts: Scripts, inv: Invocation, names: seq<string>,
                        stack: set<string>): Outcome<Body>
    requires inv.script in scripts && inv.script !in stack && forall k :: 0 <= k < |names| ==> names[k] in scripts
    decreases |scripts.Keys - stack|, 0, |names|
  {
    if names == [] then Outcome([], Success([]))
    else
      var first := InlinePhase(shell, scripts, inv, names[0], stack);
      if first.result.Failure? then first
      else Then(first.result.value, first.trace, InlinePhases(shell, scripts, inv, names[1..], stack))
  }

  function InlinePhase(shell: Shell, scripts: Scripts, inv: Invocation, name: string, stack: set<string>): Outcome<Body>
    requires inv.script in scripts && inv.script !in stack && name in scripts
    decreases |scripts.Keys - stack|, 0, 0
  {
    if name in stack then Failed(Cycle(name))
    else
      StackGrows(scripts, inv.script, name, stack);
      var body := Inline(shell, scripts, PhaseCommand(scripts, inv, name), stack + {inv.script, name});
      Outcome(body.trace,
              if body.result.Failure? then Failure(body.result.error) else Success([Body(name, body.result.value)]))
  }

  lemma StackGrows(scripts: Scripts, script: string, name: string, stack: set<string>)
    requires script in scripts && script !in stack
    ensures |scripts.Keys - (stack + {script, name})| < |scripts.Keys - stack|
  {
    SubsetSize(scripts.Keys - (stack + {script, name}), scripts.Keys - stack - {script});
  }

  lemma {:induction false} SubsetSize(a: set<string>, b: set<string>)
    requires a <= b
    ensures |a| <= |b|
  {
    if a != {} {
      var x :| x in a;
      SubsetSize(a - {x}, b - {x});
    }
  }

  // ---------- a success is the full expansion ----------

  lemma {:induction false} InlineSound(shell: Shell, scripts: Scripts, command: string, stack: set<string>)
    requires Inline(shell, scripts, command, stack).result.Success?
    ensures var o := Inline(shell, scripts, command, stack);
            Inlines(shell, scripts, command, o.result.value) && Guarded(o.result.value, stack)
            && o.trace == [Command] + Trace(o.result.value)
    decreases |scripts.Keys - stack|, 2, 0
  {
    var segments := AndChain.Split(command).value;
    SegmentsSound(shell, scripts, segments, stack);
    var o := InlineSegments(shell, scripts, segments, stack);
    assert [] + o.result.value == o.result.value;
  }

  lemma {:induction false} SegmentsSound(shell: Shell, scripts: Scripts, segments: seq<string>, stack: set<string>)
    requires InlineSegments(shell, scripts, segments, stack).result.Success?
    ensures var o := InlineSegments(shell, scripts, segments, stack);
            InlinesSegments(shell, scripts, segments, o.result.value) && Guarded(o.result.value, stack)
            && o.trace == Trace(o.result.value)
    decreases |scripts.Keys - stack|, 1, |segments|
  {
    if segments != [] {
      SegmentSound(shell, scripts, segments[0], stack);
      SegmentsSound(shell, scripts, segments[1..], stack);
      var first := InlineSegment(shell, scripts, segments[0], stack).result.value;
      var rest := InlineSegments(shell, scripts, segments[1..], stack).result.value;
      assert (first + rest)[0] == first[0] && (first + rest)[1..] == rest;
    }
  }

  lemma {:induction false} SegmentSound(shell: Shell, scripts: Scripts, segment: string, stack: set<string>)
    requires InlineSegment(shell, scripts, segment, stack).result.Success?
    ensures var o := InlineSegment(shell, scripts, segment, stack);
            |o.result.value| == 1 && InlinesSegment(shell, scripts, segment, o.result.value[0])
            && GuardedNode(o.result.value[0], stack) && o.trace == NodeTrace(o.result.value[0])
    decreases |scripts.Keys - stack|, 1, 0
  {
    var inv := shell.invocation(segment);
    if inv.Some? {
      PhasesSound(shell, scripts, inv.value, Phases(scripts, inv.value), stack);
      var bodies := InlinePhases(shell, scripts, inv.value, Phases(scripts, inv.value), stack).result.value;
      CallIsPhases(shell, scripts, inv.value, bodies);
      OthersOfCall(shell, scripts, inv.value, bodies);
    }
  }

  lemma {:induction false} PhasesSound(shell: Shell, scripts: Scripts, inv: Invocation, names: seq<string>,
                                       stack: set<string>)
    requires inv.script in scripts && inv.script !in stack && forall k :: 0 <= k < |names| ==> names[k] in scripts
    requires InlinePhases(shell, scripts, inv, names, stack).result.Success?
    ensures var o := InlinePhases(shell, scripts, inv, names, stack);
            InlinesPhases(shell, scripts, inv, names, o.result.value)
            && GuardedBodies(inv.script, o.result.value, stack) && o.trace == BodyTrace(o.result.value)
    decreases |scripts.Keys - stack|, 0, |names|
  {
    if names != [] {
      StackGrows(scripts, inv.script, names[0], stack);
      InlineSound(shell, scripts, PhaseCommand(scripts, inv, names[0]), stack + {inv.script, names[0]});
      PhasesSound(shell, scripts, inv, names[1..], stack);
      var first :=
        Inline(shell, scripts, PhaseCommand(scripts, inv, names[0]), stack + {inv.script, names[0]}).result.value;
      var rest := InlinePhases(shell, scripts, inv, names[1..], stack).result.value;
      var all := [Body(names[0], first)] + rest;
      assert all[0].nodes == first && all[1..] == rest;
    }
  }

  /** The bodies are those of these phases, as the loop goes through them. */
  predicate InlinesPhases(shell: Shell, scripts: Scripts, inv: Invocation, names: seq<string>, bodies: seq<Body>)
  {
    if names == [] || bodies == [] then names == [] && bodies == []
    else bodies[0].name == names[0] && names[0] in scripts
         && Inlines(shell, scripts, PhaseCommand(scripts, inv, names[0]), bodies[0].nodes)
         && InlinesPhases(shell, scripts, inv, names[1..], bodies[1..])
  }

  lemma {:induction false} PhasesByIndex(shell: Shell, scripts: Scripts, inv: Invocation, names: seq<string>,
                                         bodies: seq<Body>)
    ensures InlinesPhases(shell, scripts, inv, names, bodies)
            <==> |names| == |bodies|
                 && forall k :: 0 <= k < |names| ==> RunsPhase(shell, scripts, inv, names[k], bodies[k])
    decreases |names|
  {
    if names != [] && bodies != [] {
      PhasesByIndex(shell, scripts, inv, names[1..], bodies[1..]);
      assert names == [names[0]] + names[1..] && bodies == [bodies[0]] + bodies[1..];
    }
  }

  predicate RunsPhase(shell: Shell, scripts: Scripts, inv: Invocation, name: string, body: Body) {
    name in scripts && Runs(shell, scripts, Phase(name, PhaseCommand(scripts, inv, name)), body)
  }

  lemma HooksAreOther(script: string)
    ensures "pre" + script != script && "post" + script != script && "pre" + script != "post" + script
  {
    assert |"pre" + script| == |script| + 3 && |"post" + script| == |script| + 4;
  }

  lemma PhaseAt(scripts: Scripts, inv: Invocation, j: nat)
    requires inv.script in scripts
    ensures var names := Phases(scripts, inv);
            PhaseOf(scripts, inv, j)
            == if j < |names| then Some(Phase(names[j], PhaseCommand(scripts, inv, names[j]))) else None
  {
    HooksAreOther(inv.script);
  }

  /** The loop over the phases is the call. */
  lemma CallIsPhases(shell: Shell, scripts: Scripts, inv: Invocation, bodies: seq<Body>)
    requires inv.script in scripts
    ensures InlinesCall(shell, scripts, inv, bodies)
            <==> InlinesPhases(shell, scripts, inv, Phases(scripts, inv), bodies)
  {
    var names := Phases(scripts, inv);
    PhasesByIndex(shell, scripts, inv, names, bodies);
    PhaseAt(scripts, inv, |bodies|);
    if bodies != [] {
      PhaseAt(scripts, inv, |bodies| - 1);
    }
    forall j | 0 <= j < |bodies| && j < |names|
      ensures RunsPhase(shell, scripts, inv, names[j], bodies[j])
              <==> Runs(shell, scripts, PhaseOf(scripts, inv, j).value, bodies[j])
      ensures PhaseOf(scripts, inv, j).Some?
    {
      PhaseAt(scripts, inv, j);
    }
  }

  /** The lifecycle scripts a call mentions are its phases besides the script itself. */
  lemma OthersOfCall(shell: Shell, scripts: Scripts, inv: Invocation, bodies: seq<Body>)
    requires inv.script in scripts && InlinesCall(shell, scripts, inv, bodies)
    ensures Others(inv.script, bodies) == LifecycleNames(scripts, inv)
  {
    HooksAreOther(inv.script);
    assert bodies[0..] == bodies;
    forall j | 0 <= j < |bodies|
      ensures Others(inv.script, bodies[j..])
              == (if bodies[j].name == inv.script then [] else [bodies[j].name]) + Others(inv.script, bodies[j + 1..])
    {
      assert bodies[j..][0] == bodies[j] && bodies[j..][1..] == bodies[j + 1..];
    }
  }

  // ---------- the commands of a tree ----------

  lemma {:induction false} CountConcat(a: seq<Note>, b: seq<Note>)
    ensures CommandCount(a + b) == CommandCount(a) + CommandCount(b)
  {
    if b == [] {
      assert a + b == a;
    } else {
      assert (a + b)[..|a + b| - 1] == a + b[..|b| - 1];
      CountConcat(a, b[..|b| - 1]);
    }
  }

  lemma {:induction false} NotesCount(names: seq<string>)
    ensures CommandCount(Notes(names)) == 0
  {
    if names != [] {
      NotesCount(names[..|names| - 1]);
      assert Notes(names)[..|names| - 1] == Notes(names[..|names| - 1]);
    }
  }

  /** The trace of a tree starts as many commands as the tree holds. */
  lemma {:induction false} TraceCounts(nodes: seq<Node>)
    ensures CommandCount(Trace(nodes)) == Commands(nodes)
    decreases nodes
  {
    if nodes != [] {
      CountConcat(NodeTrace(nodes[0]), Trace(nodes[1..]));
      NodeTraceCounts(nodes[0]);
      TraceCounts(nodes[1..]);
    }
  }

  lemma {:induction false} NodeTraceCounts(node: Node)
    ensures CommandCount(NodeTrace(node)) == NodeCommands(node)
    decreases node
  {
    if node.Call? {
      CountConcat(Notes(Others(node.script, node.bodies)), BodyTrace(node.bodies));
      NotesCount(Others(node.script, node.bodies));
      BodyTraceCounts(node.bodies);
    }
  }

  lemma {:induction false} BodyTraceCounts(bodies: seq<Body>)
    ensures CommandCount(BodyTrace(bodies)) == BodyCommands(bodies)
    decreases bodies
  {
    if bodies != [] {
      CountConcat([Command] + Trace(bodies[0].nodes), BodyTrace(bodies[1..]));
      CountConcat([Command], Trace(bodies[0].nodes));
      assert [Command][..0] == [];
      assert CommandCount([Command]) == 1;
      TraceCounts(bodies[0].nodes);
      BodyTraceCounts(bodies[1..]);
    }
  }

  // ---------- every guarded full expansion is found ----------

  lemma {:induction false} InlineComplete(shell: Shell, scripts: Scripts, command: string, nodes: seq<Node>,
                                          stack: set<string>)
    requires Inlines(shell, scripts, command, nodes) && Guarded(nodes, stack)
    ensures Inline(shell, scripts, command, stack).result == Success(nodes)
    decreases nodes, 2
  {
    SegmentsComplete(shell, scripts, AndChain.Split(command).value, nodes, stack);
    assert [] + nodes == nodes;
  }

  lemma {:induction false} SegmentsComplete(shell: Shell, scripts: Scripts, segments: seq<string>, nodes: seq<Node>,
                                            stack: set<string>)
    requires InlinesSegments(shell, scripts, segments, nodes) && Guarded(nodes, stack)
    ensures InlineSegments(shell, scripts, segments, stack).result == Success(nodes)
    decreases nodes, 1
  {
    if segments != [] {
      SegmentComplete(shell, scripts, segments[0], nodes[0], stack);
      SegmentsComplete(shell, scripts, segments[1..], nodes[1..], stack);
      assert [nodes[0]] + nodes[1..] == nodes;
    }
  }

  lemma {:induction false} SegmentComplete(shell: Shell, scripts: Scripts, segment: string, node: Node,
                                           stack: set<string>)
    requires InlinesSegment(shell, scripts, segment, node) && GuardedNode(node, stack)
    ensures InlineSegment(shell, scripts, segment, stack).result == Success([node])
    decreases node, 0
  {
    var inv := shell.invocation(segment);
    if inv.Some? {
      CallIsPhases(shell, scripts, inv.value, node.bodies);
      PhasesComplete(shell, scripts, inv.value, Phases(scripts, inv.value), node.bodies, stack);
    }
  }

  lemma {:induction false} PhasesComplete(shell: Shell, scripts: Scripts, inv: Invocation, names: seq<string>,
                                          bodies: seq<Body>, stack: set<string>)
    requires inv.script in scripts && inv.script !in stack && forall k :: 0 <= k < |names| ==> names[k] in scripts
    requires InlinesPhases(shell, scripts, inv, names, bodies) && GuardedBodies(inv.script, bodies, stack)
    ensures InlinePhases(shell, scripts, inv, names, stack).result == Success(bodies)
    decreases bodies, 0
  {
    if names != [] {
      PhaseComplete(shell, scripts, inv, names[0], bodies[0], stack);
      PhasesComplete(shell, scripts, inv, names[1..], bodies[1..], stack);
      assert [bodies[0]] + bodies[1..] == bodies;
    }
  }

  lemma {:induction false} PhaseComplete(shell: Shell, scripts: Scripts, inv: Invocation, name: string, body: Body,
                                         stack: set<string>)
    requires inv.script in scripts && inv.script !in stack && name in scripts && name !in stack && body.name == name
    requires Inlines(shell, scripts, PhaseCommand(scripts, inv, name), body.nodes)
    requires Guarded(body.nodes, stack + {inv.script, name})
    ensures InlinePhase(shell, scripts, inv, name, stack).result == Success([body])
    decreases body, 0
  {
    InlineComplete(shell, scripts, PhaseCommand(scripts, inv, name), body.nodes, stack + {inv.script, name});
  }

  /** Without the limit, expansion succeeds exactly on commands with a guarded full expansion, and returns that. */
  lemma InlineIsExpansion(shell: Shell, scripts: Scripts, command: string, nodes: seq<Node>, stack: set<string>)
    ensures Inlines(shell, scripts, command, nodes) && Guarded(nodes, stack)
            <==> Inline(shell, scripts, command, stack).result == Success(nodes)
  {
    if Inline(shell, scripts, command, stack).result == Success(nodes) {
      InlineSound(shell, scripts, command, stack);
    }
    if Inlines(shell, scripts, command, nodes) && Guarded(nodes, stack) {
      InlineComplete(shell, scripts, command, nodes, stack);
    }
  }

  // ---------- no command reaches itself ----------

  /** Running `caller` runs `callee` as a phase of one of its segments. */
  predicate Calls(shell: Shell, scripts: Scripts, caller: string, callee: string) {
    var segments := AndChain.Split(caller);
    segments.Some?
    && exists k :: 0 <= k < |segments.value| && SegmentCalls(shell, scripts, segments.value[k], callee)
  }

  predicate SegmentCalls(shell: Shell, scripts: Scripts, segment: string, callee: string) {
    var inv := shell.invocation(segment);
    inv.Some? && inv.value.script in scripts
    && exists j :: 0 <= j < 3 && PhaseOf(scripts, inv.value, j).Some?
                   && callee == PhaseOf(scripts, inv.value, j).value.command
  }

  predicate Chain(shell: Shell, scripts: Scripts, chain: seq<string>) {
    |chain| <= 1 || (Calls(shell, scripts, chain[0], chain[1]) && Chain(shell, scripts, chain[1..]))
  }

  /** The expansion of a callee is a proper part of the expansion of its caller. */
  lemma CalleeIsSmaller(shell: Shell, scripts: Scripts, caller: string, nodes: seq<Node>, callee: string)
    returns (inner: seq<Node>)
    requires Inlines(shell, scripts, caller, nodes) && Calls(shell, scripts, caller, callee)
    ensures Inlines(shell, scripts, callee, inner) && Commands(inner) < Commands(nodes)
  {
    var segments := AndChain.Split(caller).value;
    var k :| 0 <= k < |segments| && SegmentCalls(shell, scripts, segments[k], callee);
    inner := SegmentInner(shell, scripts, segments, nodes, k, callee);
  }

  lemma {:induction false} SegmentInner(shell: Shell, scripts: Scripts, segments: seq<string>, nodes: seq<Node>, k: nat,
                                        callee: string)
    returns (inner: seq<Node>)
    requires InlinesSegments(shell, scripts, segments, nodes) && k < |segments|
    requires SegmentCalls(shell, scripts, segments[k], callee)
    ensures Inlines(shell, scripts, callee, inner) && Commands(inner) < Commands(nodes)
  {
    if k == 0 {
      var inv := shell.invocation(segments[0]).value;
      assert InlinesSegment(shell, scripts, segments[0], nodes[0]);
      assert InlinesCall(shell, scripts, inv, nodes[0].bodies);
      var j :| 0 <= j < 3 && PhaseOf(scripts, inv, j).Some? && callee == PhaseOf(scripts, inv, j).value.command;
      assert j < |nodes[0].bodies| by {
        assert PhaseOf(scripts, inv, |nodes[0].bodies|).None?;
      }
      inner := nodes[0].bodies[j].nodes;
      BodyIsPart(nodes[0].bodies, j);
    } else {
      inner := SegmentInner(shell, scripts, segments[1..], nodes[1..], k - 1, callee);
    }
  }

  lemma {:induction false} BodyIsPart(bodies: seq<Body>, j: nat)
    requires j < |bodies|
    ensures Commands(bodies[j].nodes) < BodyCommands(bodies)
    decreases j
  {
    if j > 0 {
      BodyIsPart(bodies[1..], j - 1);
    }
  }

  /** A command has one full expansion. */
  lemma {:induction false} SegmentsUnique(shell: Shell, scripts: Scripts, segments: seq<string>, a: seq<Node>,
                                          b: seq<Node>)
    requires InlinesSegments(shell, scripts, segments, a) && InlinesSegments(shell, scripts, segments, b)
    ensures a == b
    decreases a, 1
  {
    if segments != [] {
      SegmentsUnique(shell, scripts, segments[1..], a[1..], b[1..]);
      var inv := shell.invocation(segments[0]);
      if inv.Some? {
        CallIsPhases(shell, scripts, inv.value, a[0].bodies);
        CallIsPhases(shell, scripts, inv.value, b[0].bodies);
        PhasesUnique(shell, scripts, inv.value, Phases(scripts, inv.value), a[0].bodies, b[0].bodies);
      }
      assert a == [a[0]] + a[1..] && b == [b[0]] + b[1..];
    }
  }

  lemma {:induction false} PhasesUnique(shell: Shell, scripts: Scripts, inv: Invocation, names: seq<string>,
                                        a: seq<Body>, b: seq<Body>)
    requires InlinesPhases(shell, scripts, inv, names, a) && InlinesPhases(shell, scripts, inv, names, b)
    ensures a == b
    decreases a, 0
  {
    if names != [] {
      PhasesUnique(shell, scripts, inv, names[1..], a[1..], b[1..]);
      SegmentsUnique(shell, scripts, AndChain.Split(PhaseCommand(scripts, inv, names[0])).value, a[0].nodes,
                     b[0].nodes);
      assert a == [a[0]] + a[1..] && b == [b[0]] + b[1..];
    }
  }

  /** `last` is the expansion of the command at the end of the chain, smaller unless the chain is one command. */
  predicate Shrunk(shell: Shell, scripts: Scripts, chain: seq<string>, nodes: seq<Node>, last: seq<Node>) {
    chain != [] && Inlines(shell, scripts, chain[|chain| - 1], last)
    && if |chain| == 1 then last == nodes else Commands(last) < Commands(nodes)
  }

  lemma ShrinksFurther(shell: Shell, scripts: Scripts, chain: seq<string>, nodes: seq<Node>, inner: seq<Node>,
                       last: seq<Node>)
    requires |chain| > 1 && Commands(inner) < Commands(nodes) && Shrunk(shell, scripts, chain[1..], inner, last)
    ensures Shrunk(shell, scripts, chain, nodes, last)
  {
  }

  lemma {:induction false} ChainShrinks(shell: Shell, scripts: Scripts, chain: seq<string>, nodes: seq<Node>)
    returns (last: seq<Node>)
    requires chain != [] && Chain(shell, scripts, chain) && Inlines(shell, scripts, chain[0], nodes)
    ensures Shrunk(shell, scripts, chain, nodes, last)
  {
    if |chain| == 1 {
      last := nodes;
    } else {
      var inner := CalleeIsSmaller(shell, scripts, chain[0], nodes, chain[1]);
      last := ChainShrinks(shell, scripts, chain[1..], inner);
      ShrinksFurther(shell, scripts, chain, nodes, inner, last);
    }
  }

  /** When expansion succeeds, the commands it reaches call each other without any cycle. */
  lemma ExpansionIsAcyclic(shell: Shell, scripts: Scripts, command: string, stack: set<string>,
                           reach: seq<string>, cycle: seq<string>)
    requires Inline(shell, scripts, command, stack).result.Success?
    requires reach != [] && reach[0] == command && Chain(shell, scripts, reach)
    requires |cycle| > 1 && cycle[0] == reach[|reach| - 1] && Chain(shell, scripts, cycle)
    ensures cycle[|cycle| - 1] != cycle[0]
  {
    InlineSound(shell, scripts, command, stack);
    var nodes := ChainShrinks(shell, scripts, reach, Inline(shell, scripts, command, stack).result.value);
    var last := ChainShrinks(shell, scripts, cycle, nodes);
    if cycle[|cycle| - 1] == cycle[0] {
      SegmentsUnique(shell, scripts, AndChain.Split(cycle[0]).value, nodes, last);
    }
  }
}
