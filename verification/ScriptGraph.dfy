/**
 The script graph of scripts/verify-exercised-tests.js: the scripts of package.json call each other, possibly in
 cycles. Three loops of the file walk it: the search for scripts that collect coverage, the expansion of one invoked
 script, and the closure of all invoked scripts.
 */
module ScriptGraph {
  import opened Wrappers

  /** `extractScriptInvocations` only yields names of at least one character. */
  type Name = s: string | s != "" witness "x"

  /**
   `calls` lists the scripts a command invokes, `collects` says whether it runs a coverage collector, `globs` lists its
   file globs with the environment applied, and `files` expands a glob, or fails on one it cannot parse.
   */
  datatype Graph = Graph(
    scripts: map<string, string>, calls: string -> seq<Name>, collects: string -> bool,
    globs: string -> seq<string>, files: string -> Option<set<string>>)

  // ---------- reachability ----------

  function Next(g: Graph, name: string): seq<Name> {
    if name in g.scripts then g.calls(g.scripts[name]) else []
  }

  predicate Path(g: Graph, p: seq<string>) {
    p != [] && (|p| == 1 || (p[1] in Next(g, p[0]) && Path(g, p[1..])))
  }

  ghost predicate Reaches(g: Graph, a: string, b: string) {
    exists p :: Path(g, p) && p[0] == a && p[|p| - 1] == b
  }

  lemma {:induction false} PathAppend(g: Graph, p: seq<string>, c: string)
    requires Path(g, p) && c in Next(g, p[|p| - 1])
    ensures Path(g, p + [c])
  {
    if |p| > 1 {
      PathAppend(g, p[1..], c);
      assert (p + [c])[1..] == p[1..] + [c];
    } else {
      assert (p + [c])[1..] == [c];
    }
  }

  lemma ReachesSelf(g: Graph, a: string)
    ensures Reaches(g, a, a)
  {
    assert Path(g, [a]);
  }

  lemma ReachesFurther(g: Graph, a: string, b: string, c: string)
    requires Reaches(g, a, b) && c in Next(g, b)
    ensures Reaches(g, a, c)
  {
    var p :| Path(g, p) && p[0] == a && p[|p| - 1] == b;
    PathAppend(g, p, c);
    assert (p + [c])[0] == a && (p + [c])[|p|] == c;
  }

  lemma ReachesFirst(g: Graph, a: string, b: string, c: string)
    requires b in Next(g, a) && Reaches(g, b, c)
    ensures Reaches(g, a, c)
  {
    var p :| Path(g, p) && p[0] == b && p[|p| - 1] == c;
    PathPrepend(g, a, p);
    assert ([a] + p)[|p|] == c;
  }

  lemma PathPrepend(g: Graph, a: string, p: seq<string>)
    requires Path(g, p) && p[0] in Next(g, a)
    ensures Path(g, [a] + p) && ([a] + p)[0] == a
  {
    assert ([a] + p)[1..] == p;
  }

  /** A set closed under calls holds everything its members reach. */
  ghost predicate Closed(g: Graph, s: set<string>) {
    forall a, b :: a in s && b in Next(g, a) ==> b in s
  }

  lemma {:induction false} ClosedPath(g: Graph, s: set<string>, p: seq<string>)
    requires Closed(g, s) && Path(g, p) && p[0] in s
    ensures p[|p| - 1] in s
  {
    if |p| > 1 {
      ClosedPath(g, s, p[1..]);
    }
  }

  lemma ClosedReaches(g: Graph, s: set<string>, a: string, b: string)
    requires Closed(g, s) && a in s && Reaches(g, a, b)
    ensures b in s
  {
    var p :| Path(g, p) && p[0] == a && p[|p| - 1] == b;
    ClosedPath(g, s, p);
  }

  /** Every script some command calls. */
  function Called(g: Graph): set<string> {
    set name, callee | name in g.scripts && callee in g.calls(g.scripts[name]) :: callee
  }

  lemma NextIsCalled(g: Graph, a: string, b: string)
    requires b in Next(g, a)
    ensures b in Called(g)
  {
    assert a in g.scripts && b in g.calls(g.scripts[a]);
  }

  // ---------- scripts that collect coverage ----------

  /** From `name` a script that runs a collector can be reached. */
  ghost predicate Covers(g: Graph, name: string) {
    exists b :: Reaches(g, name, b) && b in g.scripts && g.collects(g.scripts[b])
  }

  /** The rule of the loop: a script counts when it collects or calls one that counts. */
  predicate Fires(g: Graph, name: string, s: set<string>) {
    name in g.scripts && (g.collects(g.scripts[name]) || exists k :: 0 <= k < |Next(g, name)| && Next(g, name)[k] in s)
  }

  lemma FiresCovers(g: Graph, name: string, s: set<string>)
    requires Fires(g, name, s) && forall n :: n in s ==> Covers(g, n)
    ensures Covers(g, name)
  {
    if g.collects(g.scripts[name]) {
      ReachesSelf(g, name);
    } else {
      var k :| 0 <= k < |Next(g, name)| && Next(g, name)[k] in s;
      var b :| Reaches(g, Next(g, name)[k], b) && b in g.scripts && g.collects(g.scripts[b]);
      ReachesFirst(g, name, Next(g, name)[k], b);
    }
  }

  lemma {:induction false} CoveringPathFires(g: Graph, s: set<string>, p: seq<string>)
    requires forall n :: Fires(g, n, s) ==> n in s
    requires Path(g, p) && p[|p| - 1] in g.scripts && g.collects(g.scripts[p[|p| - 1]])
    ensures p[0] in s
  {
    if |p| > 1 {
      CoveringPathFires(g, s, p[1..]);
      var k :| 0 <= k < |Next(g, p[0])| && Next(g, p[0])[k] == p[1];
      assert Fires(g, p[0], s);
    } else {
      assert Fires(g, p[0], s);
    }
  }

  /** Covering is the least set closed under the rule: every set closed under it holds all covering scripts. */
  lemma CoversIsLeast(g: Graph, s: set<string>, name: string)
    requires (forall n :: Fires(g, n, s) ==> n in s) && Covers(g, name)
    ensures name in s
  {
    var b :| Reaches(g, name, b) && b in g.scripts && g.collects(g.scripts[b]);
    var p :| Path(g, p) && p[0] == name && p[|p| - 1] == b;
    CoveringPathFires(g, s, p);
  }

  /** The order in which the entries of package.json are listed. */
  predicate Lists(g: Graph, order: seq<string>) {
    (forall k :: 0 <= k < |order| ==> order[k] in g.scripts) && forall n :: n in g.scripts ==> n in order
  }

  /** Every script of the set collects coverage. */
  ghost predicate Sound(g: Graph, s: set<string>) {
    s <= g.scripts.Keys && forall n :: n in s ==> Covers(g, n)
  }

  ghost predicate NothingFires(g: Graph, s: set<string>) {
    forall n :: Fires(g, n, s) ==> n in s
  }

  /** One round over all scripts. */
  method CoverageRound(g: Graph, order: seq<string>, before: set<string>)
    returns (coverageScripts: set<string>, foundCoverage: bool)
    requires Lists(g, order) && Sound(g, before)
    ensures Sound(g, coverageScripts) && before <= coverageScripts
    ensures foundCoverage ==> before < coverageScripts
    ensures !foundCoverage ==> coverageScripts == before && NothingFires(g, before)
  {
    coverageScripts, foundCoverage := before, false;
    for i := 0 to |order|
      invariant RoundAt(g, order, i, before, coverageScripts, foundCoverage)
    {
      var name := order[i];
      RoundTurns(g, order, i, before, coverageScripts, foundCoverage);
      if name in coverageScripts {
        continue;
      }
      if Fires(g, name, coverageScripts) {
        coverageScripts := coverageScripts + {name};
        foundCoverage := true;
      }
    }
    RoundEnds(g, order, before, coverageScripts, foundCoverage);
  }

  /** Where a round stands before script `i`. */
  ghost predicate RoundAt(g: Graph, order: seq<string>, i: nat, before: set<string>, now: set<string>,
                          foundCoverage: bool)
  {
    i <= |order| && Sound(g, now) && Found(before, now, foundCoverage)
    && (!foundCoverage ==> QuietUpTo(g, order, i, before))
  }

  lemma RoundTurns(g: Graph, order: seq<string>, i: nat, before: set<string>, now: set<string>, foundCoverage: bool)
    requires RoundAt(g, order, i, before, now, foundCoverage) && i < |order|
    ensures if order[i] in now || !Fires(g, order[i], now) then RoundAt(g, order, i + 1, before, now, foundCoverage)
            else RoundAt(g, order, i + 1, before, now + {order[i]}, true)
  {
    if order[i] !in now && Fires(g, order[i], now) {
      SoundMore(g, now, order[i]);
      FoundMore(before, now, foundCoverage, order[i]);
    }
  }

  lemma RoundEnds(g: Graph, order: seq<string>, before: set<string>, now: set<string>, foundCoverage: bool)
    requires Lists(g, order) && RoundAt(g, order, |order|, before, now, foundCoverage)
    ensures Sound(g, now) && before <= now
    ensures if foundCoverage then before < now else now == before && NothingFires(g, now)
  {
    if !foundCoverage {
      QuietRound(g, order, before);
    }
  }

  /** A round has found something exactly when it has grown the set. */
  predicate Found(before: set<string>, now: set<string>, foundCoverage: bool) {
    if foundCoverage then before < now else before == now
  }

  lemma FoundMore(before: set<string>, now: set<string>, foundCoverage: bool, name: string)
    requires Found(before, now, foundCoverage) && name !in now
    ensures Found(before, now + {name}, true)
  {
    assert name !in before && name in now + {name};
  }

  lemma SoundMore(g: Graph, s: set<string>, name: string)
    requires Sound(g, s) && Fires(g, name, s)
    ensures Sound(g, s + {name})
  {
    FiresCovers(g, name, s);
  }

  /** None of the first `n` scripts would join the set. */
  predicate QuietUpTo(g: Graph, order: seq<string>, n: nat, s: set<string>)
    requires n <= |order|
  {
    forall k :: 0 <= k < n ==> order[k] in s || !Fires(g, order[k], s)
  }

  lemma QuietRound(g: Graph, order: seq<string>, s: set<string>)
    requires Lists(g, order) && QuietUpTo(g, order, |order|, s)
    ensures NothingFires(g, s)
  {
    forall n | Fires(g, n, s)
      ensures n in s
    {
      var k :| 0 <= k < |order| && order[k] == n;
    }
  }

  /** The result is the same for every order, and a round is spent only on finding something new, except the last. */
  method FindCoverageScripts(g: Graph, order: seq<string>) returns (coverageScripts: set<string>, rounds: nat)
    requires Lists(g, order)
    ensures forall n :: n in coverageScripts <==> Covers(g, n)
    ensures rounds <= |coverageScripts| + 1 <= |g.scripts| + 1
  {
    coverageScripts, rounds := {}, 0;
    var foundCoverage := true;
    ghost var left := Left(g.scripts.Keys, coverageScripts);
    while foundCoverage
      invariant Sound(g, coverageScripts) && left == Left(g.scripts.Keys, coverageScripts)
      invariant rounds <= |coverageScripts| + (if foundCoverage then 0 else 1) && |coverageScripts| <= |g.scripts|
      invariant !foundCoverage ==> NothingFires(g, coverageScripts)
      decreases left, foundCoverage
    {
      ghost var before := coverageScripts;
      coverageScripts, foundCoverage := CoverageRound(g, order, coverageScripts);
      rounds := rounds + 1;
      RoundSizes(g, before, coverageScripts);
      left := Left(g.scripts.Keys, coverageScripts);
    }
    CoveringIsFound(g, coverageScripts);
  }

  lemma CoveringIsFound(g: Graph, s: set<string>)
    requires Sound(g, s) && NothingFires(g, s)
    ensures forall n :: n in s <==> Covers(g, n)
  {
    forall n | Covers(g, n)
      ensures n in s
    {
      CoversIsLeast(g, s, n);
    }
  }

  /** What a round changes about the sizes. */
  lemma RoundSizes(g: Graph, before: set<string>, after: set<string>)
    requires before <= after && after <= g.scripts.Keys
    ensures |before| <= |after| <= |g.scripts|
    ensures before < after ==> |before| < |after| && Left(g.scripts.Keys, after) < Left(g.scripts.Keys, before)
  {
    FewerLeft(g.scripts.Keys, before, after);
  }

  // ---------- expanding one invoked script ----------

  function GlobsOf(g: Graph, visited: seq<string>): seq<string> {
    if visited == [] then []
    else
      var last := visited[|visited| - 1];
      GlobsOf(g, visited[..|visited| - 1]) + if last in g.scripts then g.globs(g.scripts[last]) else []
  }

  /** The files of the globs that can be parsed. */
  function FilesOf(g: Graph, globs: seq<string>): set<string> {
    set glob, file | glob in globs && g.files(glob).Some? && file in g.files(glob).value :: file
  }

  lemma FilesOfAppend(g: Graph, globs: seq<string>, glob: string)
    ensures FilesOf(g, globs + [glob])
            == FilesOf(g, globs) + if g.files(glob).Some? then g.files(glob).value else {}
  {
    var some := if g.files(glob).Some? then g.files(glob).value else {};
    assert forall x :: x in globs + [glob] <==> x in globs || x == glob;
    forall file | file in FilesOf(g, globs) + some
      ensures file in FilesOf(g, globs + [glob])
    {
      if file in some {
        assert glob in globs + [glob];
      } else {
        var x :| x in globs && g.files(x).Some? && file in g.files(x).value;
        assert x in globs + [glob];
      }
    }
  }

  predicate NoRepeats(names: seq<string>) {
    forall i, j :: 0 <= i < j < |names| ==> names[i] != names[j]
  }

  method MatchGlobs(g: Graph, globs: seq<string>, cmd: string, files: set<string>)
    returns (allGlobs: seq<string>, allFiles: set<string>)
    requires files == FilesOf(g, globs)
    ensures allGlobs == globs + g.globs(cmd) && allFiles == FilesOf(g, allGlobs)
  {
    allGlobs, allFiles := globs, files;
    var tokens := g.globs(cmd);
    assert globs + tokens[..0] == globs;
    for k := 0 to |tokens|
      invariant allGlobs == globs + tokens[..k] && allFiles == FilesOf(g, allGlobs)
    {
      FilesOfAppend(g, allGlobs, tokens[k]);
      allGlobs := allGlobs + [tokens[k]];
      assert globs + tokens[..k + 1] == globs + tokens[..k] + [tokens[k]];
      var expanded := g.files(tokens[k]);
      if expanded.None? {
        continue;
      }
      allFiles := allFiles + expanded.value;
    }
    assert tokens[..|tokens|] == tokens;
  }

  /** What one visited script adds: nothing when there is no such script. */
  method ExpandScript(g: Graph, name: string, globs: seq<string>, files: set<string>)
    returns (allGlobs: seq<string>, allFiles: set<string>, nested: seq<Name>)
    requires files == FilesOf(g, globs)
    ensures allGlobs == globs + (if name in g.scripts then g.globs(g.scripts[name]) else [])
    ensures allFiles == FilesOf(g, allGlobs) && nested == Next(g, name)
  {
    if name !in g.scripts {
      return globs, files, [];
    }
    var cmd := g.scripts[name];
    allGlobs, allFiles := MatchGlobs(g, globs, cmd, files);
    nested := g.calls(cmd);
  }

  /** Every call of a seen script is seen or waits in the queue. */
  ghost predicate Pending(g: Graph, seen: set<string>, queue: seq<string>) {
    forall a, b :: a in seen && b in Next(g, a) ==> b in seen || b in queue
  }

  ghost predicate FromRoot(g: Graph, root: string, seen: set<string>, queue: seq<string>) {
    (forall n :: n in seen ==> Reaches(g, root, n)) && forall n :: n in queue ==> Reaches(g, root, n)
  }

  /** Everything the walk can meet. */
  function Universe(g: Graph, root: string): set<string> {
    Called(g) + {root}
  }

  lemma {:induction false} ReachedIsInUniverse(g: Graph, root: string, n: string)
    requires Reaches(g, root, n)
    ensures n in Universe(g, root)
  {
    forall a, b | a in Universe(g, root) && b in Next(g, a)
      ensures b in Universe(g, root)
    {
      NextIsCalled(g, a, b);
    }
    ClosedReaches(g, Universe(g, root), root, n);
  }

  lemma SkipFirst(g: Graph, root: string, seen: set<string>, name: string, rest: seq<string>)
    requires Pending(g, seen, [name] + rest) && FromRoot(g, root, seen, [name] + rest) && (name == "" || name in seen)
    ensures Pending(g, seen, rest) && FromRoot(g, root, seen, rest)
  {
    assert forall n :: n in [name] + rest <==> n == name || n in rest;
  }

  lemma VisitFirst(g: Graph, root: string, seen: set<string>, name: string, rest: seq<string>)
    requires Pending(g, seen, [name] + rest) && FromRoot(g, root, seen, [name] + rest) && name !in seen
    ensures Pending(g, seen + {name}, rest + Next(g, name)) && FromRoot(g, root, seen + {name}, rest + Next(g, name))
    ensures Left(Universe(g, root), seen + {name}) < Left(Universe(g, root), seen)
  {
    PendingMoves(g, seen, name, rest);
    FromRootMoves(g, root, seen, name, rest);
    ReachedIsInUniverse(g, root, name);
    OneFewer(Universe(g, root), seen, name);
  }

  lemma PendingMoves(g: Graph, seen: set<string>, name: string, rest: seq<string>)
    requires Pending(g, seen, [name] + rest)
    ensures Pending(g, seen + {name}, rest + Next(g, name))
  {
    assert forall n :: n in [name] + rest <==> n == name || n in rest;
    assert forall n :: n in rest + Next(g, name) <==> n in rest || n in Next(g, name);
  }

  lemma FromRootMoves(g: Graph, root: string, seen: set<string>, name: string, rest: seq<string>)
    requires FromRoot(g, root, seen, [name] + rest)
    ensures FromRoot(g, root, seen + {name}, rest + Next(g, name)) && Reaches(g, root, name)
  {
    assert forall n :: n in [name] + rest <==> n == name || n in rest;
    assert forall n :: n in rest + Next(g, name) <==> n in rest || n in Next(g, name);
    forall b | b in Next(g, name)
      ensures Reaches(g, root, b)
    {
      ReachesFurther(g, root, name, b);
    }
  }

  lemma FirstAndRest(queue: seq<string>)
    requires queue != []
    ensures queue == [queue[0]] + queue[1..]
  {
  }

  lemma PendingIsClosed(g: Graph, seen: set<string>)
    requires Pending(g, seen, [])
    ensures Closed(g, seen)
  {
  }

  lemma VisitedMore(g: Graph, visited: seq<string>, name: string)
    requires NoRepeats(visited) && name !in visited
    ensures NoRepeats(visited + [name]) && forall n :: n in visited + [name] <==> n in visited || n == name
    ensures GlobsOf(g, visited + [name])
            == GlobsOf(g, visited) + if name in g.scripts then g.globs(g.scripts[name]) else []
  {
    assert (visited + [name])[..|visited|] == visited;
  }

  /** It visits exactly the scripts reachable from its root, each once, and matches exactly their files. */
  method ExpandInvokedScript(g: Graph, scriptName: string)
    returns (files: set<string>, globs: seq<string>, visited: seq<string>)
    ensures NoRepeats(visited)
    ensures forall n :: n in visited <==> scriptName != "" && Reaches(g, scriptName, n)
    ensures globs == GlobsOf(g, visited) && files == FilesOf(g, globs)
  {
    visited, globs, files := [], [], {};
    var queue := [scriptName];
    var seen: set<string> := {};
    ReachesSelf(g, scriptName);
    while queue != []
      invariant NoRepeats(visited) && forall n :: n in visited <==> n in seen
      invariant Pending(g, seen, queue) && FromRoot(g, scriptName, seen, queue)
      invariant scriptName != "" ==> scriptName in seen || scriptName in queue
      invariant scriptName == "" ==> seen == {} && (queue == [""] || queue == [])
      invariant globs == GlobsOf(g, visited) && files == FilesOf(g, globs)
      decreases Left(Universe(g, scriptName), seen), |queue|
    {
      var name, rest := queue[0], queue[1..];
      FirstAndRest(queue);
      queue := rest;
      if name == "" || name in seen {
        SkipFirst(g, scriptName, seen, name, rest);
        continue;
      }
      VisitFirst(g, scriptName, seen, name, rest);
      VisitedMore(g, visited, name);
      seen := seen + {name};
      visited := visited + [name];
      var nested;
      globs, files, nested := ExpandScript(g, name, globs, files);
      queue := queue + nested;
    }
    PendingIsClosed(g, seen);
    forall n | scriptName != "" && Reaches(g, scriptName, n)
      ensures n in visited
    {
      ClosedReaches(g, seen, scriptName, n);
    }
  }

  // ---------- the closure of all invoked scripts ----------

  /** The calls not met before join the set and the queue. */
  method Enqueue(calls: seq<Name>, known: set<string>, queue: seq<string>)
    returns (invokedScripts: set<string>, longer: seq<string>)
    ensures invokedScripts == known + set n | n in calls
    ensures forall n :: n in longer <==> n in queue || n in invokedScripts - known
    ensures known < invokedScripts || (invokedScripts == known && longer == queue)
  {
    invokedScripts, longer := known, queue;
    for i := 0 to |calls|
      invariant invokedScripts == known + set n | n in calls[..i]
      invariant forall n :: n in longer <==> n in queue || n in invokedScripts - known
      invariant known <= invokedScripts && (invokedScripts == known ==> longer == queue)
    {
      assert calls[..i + 1] == calls[..i] + [calls[i]];
      if calls[i] !in invokedScripts {
        invokedScripts := invokedScripts + {calls[i]};
        longer := longer + [calls[i]];
      }
    }
    assert calls[..|calls|] == calls;
  }

  /** Some invoked script reaches `n`. */
  ghost predicate ReachedFrom(g: Graph, invoked: seq<Name>, n: string) {
    exists k :: 0 <= k < |invoked| && Reaches(g, invoked[k], n)
  }

  lemma CallsAreReached(g: Graph, invoked: seq<Name>, name: string)
    requires ReachedFrom(g, invoked, name)
    ensures forall b :: b in Next(g, name) ==> ReachedFrom(g, invoked, b) && b in Called(g)
  {
    var k :| 0 <= k < |invoked| && Reaches(g, invoked[k], name);
    forall b | b in Next(g, name)
      ensures ReachedFrom(g, invoked, b) && b in Called(g)
    {
      ReachesFurther(g, invoked[k], name, b);
      NextIsCalled(g, name, b);
    }
  }

  /** Every call of a known script is known, unless the script still waits in the queue. */
  ghost predicate Frontier(g: Graph, known: set<string>, queue: seq<string>) {
    (forall n :: n in queue ==> n in known)
    && forall a, b :: a in known && a !in queue && b in Next(g, a) ==> b in known
  }

  lemma FrontierMoves(g: Graph, known: set<string>, name: string, rest: seq<string>, more: set<string>,
                      queue: seq<string>)
    requires Frontier(g, known, [name] + rest) && known <= more && forall b :: b in Next(g, name) ==> b in more
    requires forall n :: n in queue <==> n in rest || n in more - known
    ensures Frontier(g, more, queue)
  {
    assert forall n :: n in [name] + rest <==> n == name || n in rest;
  }

  /** The closure loop of `main`: everything reachable from some invoked script. */
  method CloseInvoked(g: Graph, invoked: seq<Name>) returns (invokedScripts: set<string>)
    ensures forall n :: n in invokedScripts <==> ReachedFrom(g, invoked, n)
  {
    invokedScripts := set n | n in invoked;
    var queue: seq<string> := invoked;
    ghost var roots := invokedScripts;
    ghost var all := Called(g) + roots;
    ghost var left := Left(all, invokedScripts);
    RootsAreReached(g, invoked);
    while queue != []
      invariant roots <= invokedScripts <= all
      invariant forall n :: n in invokedScripts ==> ReachedFrom(g, invoked, n)
      invariant Frontier(g, invokedScripts, queue)
      invariant left == Left(all, invokedScripts)
      decreases left, |queue|
    {
      var name, rest := queue[0], queue[1..];
      FirstAndRest(queue);
      queue := rest;
      ghost var before := invokedScripts;
      if name !in g.scripts {
        FrontierMoves(g, before, name, rest, invokedScripts, queue);
        continue;
      }
      CallsAreReached(g, invoked, name);
      invokedScripts, queue := Enqueue(g.calls(g.scripts[name]), invokedScripts, queue);
      FrontierMoves(g, before, name, rest, invokedScripts, queue);
      FewerLeft(all, before, invokedScripts);
      left := Left(all, invokedScripts);
    }
    assert Closed(g, invokedScripts);
    forall n | ReachedFrom(g, invoked, n)
      ensures n in invokedScripts
    {
      var k :| 0 <= k < |invoked| && Reaches(g, invoked[k], n);
      ClosedReaches(g, invokedScripts, invoked[k], n);
    }
  }

  lemma RootsAreReached(g: Graph, invoked: seq<Name>)
    ensures forall n :: n in invoked ==> ReachedFrom(g, invoked, n)
  {
    forall n | n in invoked
      ensures ReachedFrom(g, invoked, n)
    {
      ReachesSelf(g, n);
    }
  }

  /** What an expansion visits from its root. */
  ghost predicate Visits(g: Graph, root: string, visited: seq<string>) {
    NoRepeats(visited) && forall n :: n in visited <==> Reaches(g, root, n)
  }

  /** The names of all visits together. */
  function Visited(visits: seq<seq<string>>): set<string> {
    set k, n | 0 <= k < |visits| && n in visits[k] :: n
  }

  /**
   The closure loop of `main` gives the union of what the expansions of the invoked scripts visit. (The source expands
   the `test:` scripts among them, each with its own environment; the scripts visited do not depend on it.)
   */
  method CloseAndExpand(g: Graph, invoked: seq<Name>)
    returns (invokedScripts: set<string>, visits: seq<seq<string>>, files: seq<set<string>>)
    ensures forall n :: n in invokedScripts <==> ReachedFrom(g, invoked, n)
    ensures |visits| == |files| == |invoked| && forall k :: 0 <= k < |invoked| ==>
              Visits(g, invoked[k], visits[k]) && files[k] == FilesOf(g, GlobsOf(g, visits[k]))
    ensures invokedScripts == Visited(visits)
  {
    invokedScripts := CloseInvoked(g, invoked);
    visits, files := [], [];
    for k := 0 to |invoked|
      invariant |visits| == |files| == k
      invariant forall j :: 0 <= j < k ==>
                  Visits(g, invoked[j], visits[j]) && files[j] == FilesOf(g, GlobsOf(g, visits[j]))
    {
      var matched, globs, visited := ExpandInvokedScript(g, invoked[k]);
      visits, files := visits + [visited], files + [matched];
    }
    ClosureIsUnion(g, invoked, invokedScripts, visits);
  }

  lemma ClosureIsUnion(g: Graph, invoked: seq<Name>, invokedScripts: set<string>, visits: seq<seq<string>>)
    requires forall n :: n in invokedScripts <==> ReachedFrom(g, invoked, n)
    requires |visits| == |invoked| && forall k :: 0 <= k < |invoked| ==> Visits(g, invoked[k], visits[k])
    ensures invokedScripts == Visited(visits)
  {
    forall n
      ensures n in invokedScripts <==> n in Visited(visits)
    {
      if n in invokedScripts {
        var k :| 0 <= k < |invoked| && Reaches(g, invoked[k], n);
        assert n in visits[k];
      }
      if n in Visited(visits) {
        var k :| 0 <= k < |visits| && n in visits[k];
        assert Reaches(g, invoked[k], n);
      }
    }
  }
}
