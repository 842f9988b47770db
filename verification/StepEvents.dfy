/**
 The step timeline of scripts/verify-exercised-tests.js: `collectStepEvents` lists what the steps of a job do, looking
 into local composite actions, which may use each other in a cycle.

 `Flatten` is the traversal with its guard. `Unfold` has no guard: it follows every use down to a given depth and
 notes the actions it went through. The first is shown to be the second without the uses that re-enter an action.
 */
module StepEvents {
  import opened Wrappers

  type Env = map<string, string>

  datatype Step =
    | NotAStep
    | Step(env: Env, run: Option<string>, uses: Option<string>, command: Option<string>)

  datatype StepEvent = Ran(run: string, env: Env) | Upload | Opaque(action: string)

  /**
   `resolve` finds the file of a local action, `composites` holds the steps of the files that are composite actions,
   and `assign` applies the environment a command sets for itself.
   */
  datatype World = World(resolve: string -> Option<string>, composites: map<string, seq<Step>>,
                         assign: (string, Env) -> Env)

  const COVERAGE_ACTIONS := {"./.github/actions/coverage", "./.github/actions/upload-coverage-artifact"}

  const RETRY_ACTION := "nick-fields/retry@"

  // ---------- one step ----------

  /** What a step is, before any action is entered. */
  datatype Meaning = Events(events: seq<StepEvent>) | Enters(file: string, action: string)

  function Interpret(w: World, step: Step, env: Env): Meaning {
    if step.NotAStep? then Events([])
    else
      var stepEnv := env + step.env;
      if step.run.Some? then Events([Ran(step.run.value, w.assign(step.run.value, stepEnv))])
      else if step.uses.None? then Events([])
      else if step.uses.value in COVERAGE_ACTIONS then Events([Upload])
      else if RETRY_ACTION <= step.uses.value then
        if step.command.None? then Events([])
        else Events([Ran(step.command.value, w.assign(step.command.value, stepEnv))])
      else
        match w.resolve(step.uses.value)
        case None => Events([])
        case Some(file) => Enters(file, step.uses.value)
  }

  // ---------- the traversal ----------

  function Flatten(w: World, step: Step, env: Env, visiting: set<string>): seq<StepEvent>
    decreases Left(w.composites.Keys, visiting), 0
  {
    match Interpret(w, step, env)
    case Events(events) => events
    case Enters(file, action) =>
      if file in visiting then []
      else if file !in w.composites then [Opaque(action)]
      else
        OneFewer(w.composites.Keys, visiting, file);
        FlattenSteps(w, w.composites[file], env + step.env, visiting + {file})
  }

  function FlattenSteps(w: World, steps: seq<Step>, env: Env, visiting: set<string>): seq<StepEvent>
    decreases Left(w.composites.Keys, visiting), 1, |steps|
  {
    if steps == [] then []
    else FlattenSteps(w, steps[..|steps| - 1], env, visiting) + Flatten(w, steps[|steps| - 1], env, visiting)
  }

  /** `collectStepEvents`, with the set of actions being expanded shared by the whole traversal. */
  class StepCollector {
    const w: World
    var visiting: set<string>

    constructor (w: World)
      ensures this.w == w && visiting == {}
    {
      this.w := w;
      visiting := {};
    }

    method CollectStepEvents(step: Step, env: Env) returns (events: seq<StepEvent>)
      modifies this
      ensures events == Flatten(w, step, env, old(visiting)) && visiting == old(visiting)
      decreases Left(w.composites.Keys, visiting), 0
    {
      if step.NotAStep? {
        return [];
      }
      var stepEnv := env + step.env;
      if step.run.Some? {
        return [Ran(step.run.value, w.assign(step.run.value, stepEnv))];
      }
      if step.uses.None? {
        return [];
      }
      if step.uses.value in COVERAGE_ACTIONS {
        return [Upload];
      }
      if RETRY_ACTION <= step.uses.value {
        if step.command.None? {
          return [];
        }
        return [Ran(step.command.value, w.assign(step.command.value, stepEnv))];
      }
      var actionFile := w.resolve(step.uses.value);
      if actionFile.None? || actionFile.value in visiting {
        return [];
      }
      if actionFile.value !in w.composites {
        return [Opaque(step.uses.value)];
      }
      OneFewer(w.composites.Keys, visiting, actionFile.value);
      visiting := visiting + {actionFile.value};
      events := CollectNested(w.composites[actionFile.value], stepEnv);
      visiting := visiting - {actionFile.value};
    }

    method CollectNested(steps: seq<Step>, env: Env) returns (events: seq<StepEvent>)
      modifies this
      ensures events == FlattenSteps(w, steps, env, old(visiting)) && visiting == old(visiting)
      decreases Left(w.composites.Keys, visiting), 1
    {
      events := [];
      for k := 0 to |steps|
        invariant events == FlattenSteps(w, steps[..k], env, old(visiting)) && visiting == old(visiting)
      {
        var nested := CollectStepEvents(steps[k], env);
        events := events + nested;
        assert steps[..k + 1][..k] == steps[..k];
      }
      assert steps[..|steps|] == steps;
    }
  }

  // ---------- the traversal without a guard ----------

  /** An event and the composite actions entered to reach it, outermost first. */
  datatype Item = Item(event: StepEvent, chain: seq<string>)

  /** The command a step runs: its own, or the one it hands to the retry action. */
  function CommandOf(step: Step): Option<string> {
    match step
    case NotAStep => None
    case Step(_, Some(run), _, _) => Some(run)
    case Step(_, None, Some(uses), command) => if "nick-fields/retry@" <= uses then command else None
    case Step(_, None, None, _) => None
  }

  predicate UploadsReport(step: Step) {
    step.Step? && step.run.None?
    && (step.uses == Some("./.github/actions/coverage")
        || step.uses == Some("./.github/actions/upload-coverage-artifact"))
  }

  /** The file of the local action a step uses. */
  function FileOf(w: World, step: Step): Option<string> {
    if step.NotAStep? || step.run.Some? || step.uses.None? || "nick-fields/retry@" <= step.uses.value then None
    else w.resolve(step.uses.value)
  }

  /** Everything a step does, entering actions `depth` deep whether or not they are being expanded. */
  function Unfold(w: World, step: Step, env: Env, depth: nat, chain: seq<string>): seq<Item>
    decreases depth, 0
  {
    if UploadsReport(step) then [Item(Upload, chain)]
    else
      match (CommandOf(step), FileOf(w, step))
      case (Some(command), _) => [Item(Ran(command, w.assign(command, env + step.env)), chain)]
      case (None, None) => []
      case (None, Some(file)) =>
        if file !in w.composites then [Item(Opaque(step.uses.value), chain)]
        else if depth == 0 then []
        else UnfoldSteps(w, w.composites[file], env + step.env, depth - 1, chain + [file])
  }

  function UnfoldSteps(w: World, steps: seq<Step>, env: Env, depth: nat, chain: seq<string>): seq<Item>
    decreases depth, 1, |steps|
  {
    if steps == [] then []
    else UnfoldSteps(w, steps[..|steps| - 1], env, depth, chain) + Unfold(w, steps[|steps| - 1], env, depth, chain)
  }

  /** The chain enters no action twice, and none of `visiting`. */
  predicate Simple(chain: seq<string>, visiting: set<string>) {
    (forall i, j :: 0 <= i < j < |chain| ==> chain[i] != chain[j])
    && forall i :: 0 <= i < |chain| ==> chain[i] !in visiting
  }

  function Select(items: seq<Item>, visiting: set<string>): seq<StepEvent> {
    if items == [] then []
    else
      var last := items[|items| - 1];
      Select(items[..|items| - 1], visiting) + if Simple(last.chain, visiting) then [last.event] else []
  }

  lemma {:induction false} SelectConcat(a: seq<Item>, b: seq<Item>, visiting: set<string>)
    ensures Select(a + b, visiting) == Select(a, visiting) + Select(b, visiting)
  {
    if b == [] {
      assert a + b == a;
    } else {
      assert (a + b)[..|a + b| - 1] == a + b[..|b| - 1];
      SelectConcat(a, b[..|b| - 1], visiting);
    }
  }

  function Items(events: seq<StepEvent>, chain: seq<string>): seq<Item> {
    seq(|events|, k requires 0 <= k < |events| => Item(events[k], chain))
  }

  /** The reading of a step by the traversal, in these terms. */
  lemma UnfoldReads(w: World, step: Step, env: Env, depth: nat, chain: seq<string>)
    ensures Unfold(w, step, env, depth, chain)
            == match Interpret(w, step, env)
               case Events(events) => Items(events, chain)
               case Enters(file, action) =>
                 if file !in w.composites then Items([Opaque(action)], chain)
                 else if depth == 0 then []
                 else UnfoldSteps(w, w.composites[file], env + step.env, depth - 1, chain + [file])
  {
  }

  lemma ItemsAppend(events: seq<StepEvent>, event: StepEvent, chain: seq<string>)
    ensures Items(events + [event], chain) == Items(events, chain) + [Item(event, chain)]
  {
  }

  lemma SelectOneMore(items: seq<Item>, item: Item, visiting: set<string>)
    ensures Select(items + [item], visiting)
            == Select(items, visiting) + if Simple(item.chain, visiting) then [item.event] else []
  {
    assert (items + [item])[..|items|] == items;
  }

  lemma {:induction false} SelectItems(events: seq<StepEvent>, chain: seq<string>, visiting: set<string>)
    ensures Select(Items(events, chain), visiting) == if Simple(chain, visiting) then events else []
  {
    if events != [] {
      var init, last := events[..|events| - 1], events[|events| - 1];
      SelectItems(init, chain, visiting);
      assert init + [last] == events;
      ItemsAppend(init, last, chain);
      SelectOneMore(Items(init, chain), Item(last, chain), visiting);
    }
  }

  /** Below a chain that is not simple nothing is selected. */
  lemma {:induction false} NothingBelow(w: World, step: Step, env: Env, depth: nat, chain: seq<string>,
                                        visiting: set<string>)
    requires !Simple(chain, visiting)
    ensures Select(Unfold(w, step, env, depth, chain), visiting) == []
    decreases depth, 0
  {
    UnfoldReads(w, step, env, depth, chain);
    match Interpret(w, step, env)
    case Events(events) => SelectItems(events, chain, visiting);
    case Enters(file, action) =>
      if file !in w.composites {
        SelectItems([Opaque(action)], chain, visiting);
      } else if depth > 0 {
        LongerIsNotSimple(chain, file, visiting);
        NothingBelowSteps(w, w.composites[file], env + step.env, depth - 1, chain + [file], visiting);
      }
  }

  lemma {:induction false} NothingBelowSteps(w: World, steps: seq<Step>, env: Env, depth: nat, chain: seq<string>,
                                             visiting: set<string>)
    requires !Simple(chain, visiting)
    ensures Select(UnfoldSteps(w, steps, env, depth, chain), visiting) == []
    decreases depth, 1, |steps|
  {
    if steps != [] {
      var init, last := steps[..|steps| - 1], steps[|steps| - 1];
      NothingBelowSteps(w, init, env, depth, chain, visiting);
      NothingBelow(w, last, env, depth, chain, visiting);
      SelectConcat(UnfoldSteps(w, init, env, depth, chain), Unfold(w, last, env, depth, chain), visiting);
    }
  }

  lemma LongerIsNotSimple(chain: seq<string>, file: string, visiting: set<string>)
    requires !Simple(chain, visiting)
    ensures !Simple(chain + [file], visiting)
  {
    var longer := chain + [file];
    assert forall i :: 0 <= i < |chain| ==> longer[i] == chain[i];
    if !(forall i :: 0 <= i < |chain| ==> chain[i] !in visiting) {
      var i :| 0 <= i < |chain| && chain[i] in visiting;
      assert longer[i] in visiting;
    } else {
      var i, j :| 0 <= i < j < |chain| && chain[i] == chain[j];
      assert longer[i] == longer[j];
    }
  }

  function Entered(chain: seq<string>): set<string> {
    set f | f in chain
  }

  lemma SimpleLonger(chain: seq<string>, file: string, visiting: set<string>)
    requires Simple(chain, visiting)
    ensures Simple(chain + [file], visiting) <==> file !in visiting + Entered(chain)
    ensures Entered(chain + [file]) == Entered(chain) + {file}
  {
    var longer := chain + [file];
    assert forall i :: 0 <= i < |chain| ==> longer[i] == chain[i];
    assert longer[|chain|] == file;
    if file in chain {
      var i :| 0 <= i < |chain| && chain[i] == file;
      assert longer[i] == longer[|chain|];
    }
  }

  /** `inside` is what is being expanded below `chain`: some actions of the table. */
  predicate Inside(w: World, chain: seq<string>, visiting: set<string>, inside: set<string>) {
    Simple(chain, visiting) && inside == visiting + Entered(chain) && inside <= w.composites.Keys
  }

  /**
   The guard drops exactly the uses that re-enter an action being expanded: the events of a step are, in order, those
   of the unguarded unfolding whose chain is simple. Any depth from the number of actions on gives the same.
   */
  lemma {:induction false} FlattenSelects(w: World, step: Step, env: Env, depth: nat, chain: seq<string>,
                                          visiting: set<string>, inside: set<string>)
    requires Inside(w, chain, visiting, inside) && depth >= Left(w.composites.Keys, inside)
    ensures Flatten(w, step, env, inside) == Select(Unfold(w, step, env, depth, chain), visiting)
    decreases depth, 1
  {
    UnfoldReads(w, step, env, depth, chain);
    match Interpret(w, step, env)
    case Events(events) => SelectItems(events, chain, visiting);
    case Enters(file, action) =>
      if file !in w.composites {
        SelectItems([Opaque(action)], chain, visiting);
      } else if file in inside {
        if depth > 0 {
          SelectReentered(w, file, env + step.env, depth, chain, visiting, inside);
        }
      } else {
        OneFewer(w.composites.Keys, inside, file);
        InsideLonger(w, chain, file, visiting, inside);
        SelectEntered(w, file, env + step.env, depth, chain, visiting, inside);
      }
  }

  lemma SelectReentered(w: World, file: string, env: Env, depth: nat, chain: seq<string>, visiting: set<string>,
                        inside: set<string>)
    requires Inside(w, chain, visiting, inside) && file in w.composites && file in inside && depth > 0
    ensures Select(UnfoldSteps(w, w.composites[file], env, depth - 1, chain + [file]), visiting) == []
  {
    SimpleLonger(chain, file, visiting);
    NothingBelowSteps(w, w.composites[file], env, depth - 1, chain + [file], visiting);
  }

  lemma {:induction false} SelectEntered(w: World, file: string, env: Env, depth: nat, chain: seq<string>,
                                         visiting: set<string>, inside: set<string>)
    requires file in w.composites && Inside(w, chain + [file], visiting, inside + {file})
    requires depth > Left(w.composites.Keys, inside + {file})
    ensures FlattenSteps(w, w.composites[file], env, inside + {file})
            == Select(UnfoldSteps(w, w.composites[file], env, depth - 1, chain + [file]), visiting)
    decreases depth, 0
  {
    FlattenStepsSelects(w, w.composites[file], env, depth - 1, chain + [file], visiting, inside + {file});
  }

  lemma InsideLonger(w: World, chain: seq<string>, file: string, visiting: set<string>, inside: set<string>)
    requires Inside(w, chain, visiting, inside) && file in w.composites && file !in inside
    ensures Inside(w, chain + [file], visiting, inside + {file})
  {
    SimpleLonger(chain, file, visiting);
  }

  lemma {:induction false} FlattenStepsSelects(w: World, steps: seq<Step>, env: Env, depth: nat, chain: seq<string>,
                                               visiting: set<string>, inside: set<string>)
    requires Inside(w, chain, visiting, inside) && depth >= Left(w.composites.Keys, inside)
    ensures FlattenSteps(w, steps, env, inside) == Select(UnfoldSteps(w, steps, env, depth, chain), visiting)
    decreases depth, 2, |steps|
  {
    if steps != [] {
      var init, last := steps[..|steps| - 1], steps[|steps| - 1];
      FlattenStepsSelects(w, init, env, depth, chain, visiting, inside);
      FlattenSelects(w, last, env, depth, chain, visiting, inside);
      SelectConcat(UnfoldSteps(w, init, env, depth, chain), Unfold(w, last, env, depth, chain), visiting);
    }
  }

  /** The steps of a job, each traversed with nothing being expanded. */
  lemma JobEvents(w: World, steps: seq<Step>, env: Env, depth: nat)
    requires depth >= |w.composites|
    ensures FlattenSteps(w, steps, env, {}) == Select(UnfoldSteps(w, steps, env, depth, []), {})
  {
    assert w.composites.Keys - {} == w.composites.Keys;
    FlattenStepsSelects(w, steps, env, depth, [], {}, {});
  }
}
