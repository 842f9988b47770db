/**
 The production dependencies of a Yarn lockfile, as scripts/check_licenses.js collects them: a worklist of patterns
 that grows while it is read.
 */
module YarnLicenses {
  import opened Wrappers

  /** The dependency tables of a manifest, in the order of their entries. */
  datatype Manifest = Manifest(dependencies: seq<Pattern>, optionalDependencies: seq<Pattern>)

  datatype Pattern = Pattern(name: string, range: string)

  type Lock = map<string, Manifest>

  function Key(p: Pattern): string {
    p.name + "@" + p.range
  }

  // ---------- names ----------

  function LastAt(s: string): (r: int)
    ensures -1 <= r < |s|
  {
    if s == "" then -1 else if s[|s| - 1] == '@' then |s| - 1 else LastAt(s[..|s| - 1])
  }

  function NormalizeDependencyName(name: string, range: string): string {
    if !("npm:" <= range) then name
    else
      var target := range[4..];
      var versionIndex := LastAt(target);
      if versionIndex > 0 then target[..versionIndex] else target
  }

  lemma {:induction false} LastAtOf(before: string, after: string)
    requires '@' !in after
    ensures LastAt(before + "@" + after) == |before|
    decreases |after|
  {
    var s := before + "@" + after;
    if after == "" {
      assert s[..|s| - 1] == before;
    } else {
      LastAtOf(before, after[..|after| - 1]);
      assert s[..|s| - 1] == before + "@" + after[..|after| - 1];
    }
  }

  lemma {:induction false} NoAt(s: string)
    requires '@' !in s
    ensures LastAt(s) == -1
  {
    if s != "" {
      NoAt(s[..|s| - 1]);
    }
  }

  /** An alias stands for its target, scoped or not, with or without a version; anything else for its own name. */
  lemma AliasTarget(name: string, target: string, version: string)
    requires target != "" && '@' !in version
    ensures NormalizeDependencyName(name, "npm:" + target + "@" + version) == target
    ensures '@' !in target[1..] ==> NormalizeDependencyName(name, "npm:" + target) == target
    ensures forall range :: !("npm:" <= range) ==> NormalizeDependencyName(name, range) == name
  {
    var range := "npm:" + target + "@" + version;
    assert range[..4] == "npm:" && range[4..] == target + "@" + version;
    LastAtOf(target, version);
    assert (target + "@" + version)[..|target|] == target;
    if '@' !in target[1..] {
      assert ("npm:" + target)[..4] == "npm:" && ("npm:" + target)[4..] == target;
      if target[0] == '@' {
        LastAtOf("", target[1..]);
        assert "" + "@" + target[1..] == target;
      } else {
        assert forall k :: 1 <= k < |target| ==> target[k] == target[1..][k - 1];
        NoAt(target);
      }
    }
  }

  // ---------- the dependency graph ----------

  /** An optional dependency, or a plain one whose name no optional one has. */
  predicate Wants(m: Manifest, q: Pattern) {
    q in m.optionalDependencies
    || (q in m.dependencies
        && forall k :: 0 <= k < |m.optionalDependencies| ==> m.optionalDependencies[k].name != q.name)
  }

  /** `plain` is, in order, the dependencies at `places`: those whose names no optional dependency has. */
  predicate KeptAt(m: Manifest, plain: seq<Pattern>, places: seq<nat>) {
    |places| == |plain|
    && (forall i :: 0 <= i < |places| ==> places[i] < |m.dependencies| && plain[i] == m.dependencies[places[i]])
    && (forall i, j :: 0 <= i < j < |places| ==> places[i] < places[j])
    && forall k :: 0 <= k < |m.dependencies| ==>
         (k in places <==> forall l :: 0 <= l < |m.optionalDependencies| ==>
                             m.optionalDependencies[l].name != m.dependencies[k].name)
  }

  /** The patterns a manifest adds: the plain dependencies it keeps, in order, then all optional ones. */
  ghost predicate Adds(m: Manifest, patterns: seq<Pattern>) {
    exists plain, places :: KeptAt(m, plain, places) && patterns == plain + m.optionalDependencies
  }

  ghost predicate AddsTo(patterns: seq<Pattern>, m: Manifest, more: seq<Pattern>) {
    exists asked :: Adds(m, asked) && more == patterns + asked
  }

  predicate Declares(table: seq<Pattern>, name: string) {
    exists k :: 0 <= k < |table| && table[k].name == name
  }

  function Plain(dependencies: seq<Pattern>, optional: seq<Pattern>): seq<Pattern> {
    if dependencies == [] then []
    else
      var last := dependencies[|dependencies| - 1];
      Plain(dependencies[..|dependencies| - 1], optional) + if Declares(optional, last.name) then [] else [last]
  }

  function Asked(m: Manifest): seq<Pattern> {
    Plain(m.dependencies, m.optionalDependencies) + m.optionalDependencies
  }

  lemma PlainOneMore(dependencies: seq<Pattern>, k: nat, optional: seq<Pattern>)
    requires k < |dependencies|
    ensures Plain(dependencies[..k + 1], optional)
            == Plain(dependencies[..k], optional)
               + if Declares(optional, dependencies[k].name) then [] else [dependencies[k]]
  {
    assert dependencies[..k + 1][..k] == dependencies[..k];
  }

  lemma {:induction false} PlainPlaces(m: Manifest, n: nat) returns (places: seq<nat>)
    requires n <= |m.dependencies|
    ensures KeptAt(m.(dependencies := m.dependencies[..n]), Plain(m.dependencies[..n], m.optionalDependencies), places)
  {
    if n == 0 {
      places := [];
    } else {
      places := PlainPlaces(m, n - 1);
      PlainOneMore(m.dependencies, n - 1, m.optionalDependencies);
      var kept := Plain(m.dependencies[..n - 1], m.optionalDependencies);
      if Declares(m.optionalDependencies, m.dependencies[n - 1].name) {
        KeptSkips(m, n - 1, kept, places);
        assert kept + [] == kept;
      } else {
        KeptTakes(m, n - 1, kept, places);
        places := places + [n - 1];
      }
    }
  }

  lemma KeptSkips(m: Manifest, n: nat, plain: seq<Pattern>, places: seq<nat>)
    requires n < |m.dependencies| && KeptAt(m.(dependencies := m.dependencies[..n]), plain, places)
    requires Declares(m.optionalDependencies, m.dependencies[n].name)
    ensures KeptAt(m.(dependencies := m.dependencies[..n + 1]), plain, places)
  {
    assert forall i :: 0 <= i < |places| ==> places[i] < n;
  }

  lemma KeptTakes(m: Manifest, n: nat, plain: seq<Pattern>, places: seq<nat>)
    requires n < |m.dependencies| && KeptAt(m.(dependencies := m.dependencies[..n]), plain, places)
    requires !Declares(m.optionalDependencies, m.dependencies[n].name)
    ensures KeptAt(m.(dependencies := m.dependencies[..n + 1]), plain + [m.dependencies[n]], places + [n])
  {
    assert forall i :: 0 <= i < |places| ==> places[i] < n;
    assert forall k :: k in places + [n] <==> k in places || k == n;
  }

  lemma AskedIsAdded(m: Manifest)
    ensures Adds(m, Asked(m))
  {
    assert m.dependencies[..|m.dependencies|] == m.dependencies;
    var places := PlainPlaces(m, |m.dependencies|);
    assert KeptAt(m, Plain(m.dependencies, m.optionalDependencies), places);
  }

  lemma AskedAddsTo(patterns: seq<Pattern>, m: Manifest)
    ensures AddsTo(patterns, m, patterns + Asked(m))
  {
    AskedIsAdded(m);
  }

  lemma WantedIsAsked(m: Manifest, q: Pattern)
    ensures q in Asked(m) <==> Wants(m, q)
  {
    AskedIsAdded(m);
    var plain, places :| KeptAt(m, plain, places) && Asked(m) == plain + m.optionalDependencies;
    if q in plain {
      var i :| 0 <= i < |plain| && plain[i] == q;
      assert places[i] in places;
    }
    if q in m.dependencies && Wants(m, q) && q !in m.optionalDependencies {
      var k :| 0 <= k < |m.dependencies| && m.dependencies[k] == q;
      var i :| 0 <= i < |places| && places[i] == k;
      assert plain[i] == q;
    }
  }

  method AddDependencyPatterns(patterns: seq<Pattern>, manifest: Manifest) returns (more: seq<Pattern>)
    ensures more == patterns + Asked(manifest)
    ensures AddsTo(patterns, manifest, more)
  {
    more := patterns;
    for k := 0 to |manifest.dependencies|
      invariant more == patterns + Plain(manifest.dependencies[..k], manifest.optionalDependencies)
    {
      var d := manifest.dependencies[k];
      PlainOneMore(manifest.dependencies, k, manifest.optionalDependencies);
      if !Declares(manifest.optionalDependencies, d.name) {
        more := more + [d];
      }
    }
    assert manifest.dependencies[..|manifest.dependencies|] == manifest.dependencies;
    ghost var plain := more;
    for k := 0 to |manifest.optionalDependencies|
      invariant more == plain + manifest.optionalDependencies[..k]
    {
      more := more + [manifest.optionalDependencies[k]];
    }
    AskedAddsTo(patterns, manifest);
  }

  /** `p` asks for `q`, through the lock entry of `p`. */
  predicate Asks(lock: Lock, p: Pattern, q: Pattern) {
    Key(p) in lock && Wants(lock[Key(p)], q)
  }

  /** A chain of requests that starts at the root manifest. */
  predicate Chain(lock: Lock, root: Manifest, chain: seq<Pattern>)
  {
    chain != []
    && if |chain| == 1 then Wants(root, chain[0])
       else Chain(lock, root, chain[..|chain| - 1]) && Asks(lock, chain[|chain| - 2], chain[|chain| - 1])
  }

  ghost predicate Reachable(lock: Lock, root: Manifest, p: Pattern) {
    exists chain :: Chain(lock, root, chain) && chain[|chain| - 1] == p
  }

  lemma RootReachable(lock: Lock, root: Manifest, p: Pattern)
    requires Wants(root, p)
    ensures Reachable(lock, root, p)
  {
    assert Chain(lock, root, [p]);
  }

  lemma AskedReachable(lock: Lock, root: Manifest, p: Pattern, q: Pattern)
    requires Reachable(lock, root, p) && Asks(lock, p, q)
    ensures Reachable(lock, root, q)
  {
    var chain :| Chain(lock, root, chain) && chain[|chain| - 1] == p;
    assert (chain + [q])[..|chain|] == chain;
    assert Chain(lock, root, chain + [q]);
  }

  /** Every reachable pattern has an entry in the lock. */
  ghost predicate Complete(lock: Lock, root: Manifest) {
    forall p :: Reachable(lock, root, p) ==> Key(p) in lock
  }

  // ---------- the worklist ----------

  function Named(p: Pattern): string {
    NormalizeDependencyName(p.name, p.range)
  }

  function NamesOf(patterns: seq<Pattern>): set<string> {
    set p | p in patterns :: Named(p)
  }

  /** One pattern for each reachable key, and none twice. */
  ghost predicate OnePerKey(lock: Lock, root: Manifest, picks: seq<Pattern>) {
    |KeysOf(picks)| == |picks|
    && (forall p :: p in picks ==> Reachable(lock, root, p))
    && forall key :: ReachableKey(lock, root, key) ==> key in KeysOf(picks)
  }

  ghost predicate ReachableKey(lock: Lock, root: Manifest, key: string) {
    exists p :: Reachable(lock, root, p) && Key(p) == key
  }

  function KeysOf(patterns: seq<Pattern>): set<string> {
    set p | p in patterns :: Key(p)
  }

  /** The patterns of the list all come from the root, and what the visited ones ask for is in the list. */
  ghost predicate Grown(lock: Lock, root: Manifest, patterns: seq<Pattern>, visited: set<string>) {
    (forall p :: p in patterns ==> Reachable(lock, root, p))
    && Elements(Asked(root)) <= Elements(patterns)
    && visited <= lock.Keys
    && forall key :: key in visited ==> Elements(Asked(lock[key])) <= Elements(patterns)
  }

  function Elements(patterns: seq<Pattern>): set<Pattern> {
    set p | p in patterns
  }

  lemma {:induction false} ChainIsListed(lock: Lock, root: Manifest, patterns: seq<Pattern>, visited: set<string>,
                                         chain: seq<Pattern>)
    requires Grown(lock, root, patterns, visited) && (forall p :: p in patterns ==> Key(p) in visited)
    requires Chain(lock, root, chain)
    ensures chain[|chain| - 1] in patterns
  {
    if |chain| > 1 {
      var init := chain[..|chain| - 1];
      ChainIsListed(lock, root, patterns, visited, init);
      AskedIsListed(lock, root, patterns, visited, init[|init| - 1], chain[|chain| - 1]);
    } else {
      WantedIsAsked(root, chain[0]);
      assert chain[0] in Elements(Asked(root)) && chain[0] in Elements(patterns);
    }
  }

  lemma AskedIsListed(lock: Lock, root: Manifest, patterns: seq<Pattern>, visited: set<string>, p: Pattern, q: Pattern)
    requires Grown(lock, root, patterns, visited) && Key(p) in visited && Asks(lock, p, q)
    ensures q in patterns
  {
    WantedIsAsked(lock[Key(p)], q);
    assert q in Elements(Asked(lock[Key(p)])) && q in Elements(patterns);
  }

  lemma AllListed(lock: Lock, root: Manifest, patterns: seq<Pattern>, visited: set<string>)
    requires Grown(lock, root, patterns, visited) && forall p :: p in patterns ==> Key(p) in visited
    ensures forall p :: Reachable(lock, root, p) ==> p in patterns
  {
    forall p | Reachable(lock, root, p)
      ensures p in patterns
    {
      var chain :| Chain(lock, root, chain) && chain[|chain| - 1] == p;
      ChainIsListed(lock, root, patterns, visited, chain);
    }
  }

  lemma VisitGrows(lock: Lock, root: Manifest, patterns: seq<Pattern>, visited: set<string>, p: Pattern)
    requires Grown(lock, root, patterns, visited) && p in patterns && Key(p) in lock && Key(p) !in visited
    ensures Grown(lock, root, patterns + Asked(lock[Key(p)]), visited + {Key(p)})
  {
    var more := patterns + Asked(lock[Key(p)]);
    assert forall q :: q in more <==> q in patterns || q in Asked(lock[Key(p)]);
    assert Elements(more) == Elements(patterns) + Elements(Asked(lock[Key(p)]));
    forall q | q in Asked(lock[Key(p)])
      ensures Reachable(lock, root, q)
    {
      WantedIsAsked(lock[Key(p)], q);
      AskedReachable(lock, root, p, q);
    }
  }

  class DependencySet {
    var names: set<string>

    constructor (names: set<string>)
      ensures this.names == names
    {
      this.names := names;
    }
  }

  /** The patterns that are the first of their key. */
  function Firsts(patterns: seq<Pattern>): seq<Pattern> {
    if patterns == [] then []
    else
      var init, last := patterns[..|patterns| - 1], patterns[|patterns| - 1];
      Firsts(init) + if Key(last) in KeysOf(init) then [] else [last]
  }

  lemma FirstsAppend(patterns: seq<Pattern>, p: Pattern)
    ensures Firsts(patterns + [p]) == Firsts(patterns) + if Key(p) in KeysOf(patterns) then [] else [p]
  {
    assert (patterns + [p])[..|patterns|] == patterns;
  }

  /** `picks` lists the patterns whose names were added so far. */
  ghost predicate Picked(picks: seq<Pattern>, patterns: seq<Pattern>, visited: set<string>) {
    |picks| == |visited| && visited == KeysOf(picks) && Elements(picks) <= Elements(patterns)
  }

  lemma PickMore(picks: seq<Pattern>, patterns: seq<Pattern>, visited: set<string>, p: Pattern, more: seq<Pattern>)
    requires Picked(picks, patterns, visited) && p in patterns && Key(p) !in visited
    ensures Picked(picks + [p], patterns + more, visited + {Key(p)})
    ensures NamesOf(picks + [p]) == NamesOf(picks) + {Named(p)}
  {
    AddOne(picks, p);
    assert p in Elements(patterns);
    assert Elements(picks + [p]) == Elements(picks) + {p};
    assert Elements(patterns + more) == Elements(patterns) + Elements(more);
  }

  lemma AddOne(picks: seq<Pattern>, p: Pattern)
    ensures NamesOf(picks + [p]) == NamesOf(picks) + {Named(p)}
    ensures KeysOf(picks + [p]) == KeysOf(picks) + {Key(p)}
  {
    assert forall q :: q in picks + [p] <==> q in picks || q == p;
  }

  /** The keys seen before `i` are visited, and the first pattern of each was picked. */
  predicate VisitedUpTo(patterns: seq<Pattern>, i: nat, visited: set<string>, picks: seq<Pattern>) {
    i <= |patterns| && KeysOf(patterns[..i]) == visited && Firsts(patterns[..i]) == picks
  }

  lemma VisitedOneMore(patterns: seq<Pattern>, more: seq<Pattern>, i: nat, visited: set<string>, picks: seq<Pattern>)
    requires i < |patterns| && VisitedUpTo(patterns, i, visited, picks)
    ensures VisitedUpTo(patterns + more, i + 1, visited + {Key(patterns[i])},
                        if Key(patterns[i]) in visited then picks else picks + [patterns[i]])
  {
    assert (patterns + more)[..i + 1] == patterns[..i] + [patterns[i]];
    AddOne(patterns[..i], patterns[i]);
    FirstsAppend(patterns[..i], patterns[i]);
  }

  /**
   What the list grows to, from position `i` on: the loop without the names. It ends early on a key without an entry.
   */
  function Growth(lock: Lock, patterns: seq<Pattern>, i: nat, visited: set<string>): seq<Pattern>
    requires i <= |patterns|
    decreases Left(lock.Keys, visited), |patterns| - i
  {
    if i == |patterns| then patterns
    else
      var key := Key(patterns[i]);
      if key in visited then Growth(lock, patterns, i + 1, visited)
      else if key !in lock then patterns
      else
        OneFewer(lock.Keys, visited, key);
        Growth(lock, patterns + Asked(lock[key]), i + 1, visited + {key})
  }

  /** All requests, in the order in which the worklist meets them. */
  function Requests(lock: Lock, root: Manifest): seq<Pattern> {
    Growth(lock, Asked(root), 0, {})
  }

  function Concat(parts: seq<seq<Pattern>>): seq<Pattern> {
    if parts == [] then [] else Concat(parts[..|parts| - 1]) + parts[|parts| - 1]
  }

  /** The first part is what the root adds, the others what the picks add through their lock entries. */
  ghost predicate PartsOf(lock: Lock, root: Manifest, picks: seq<Pattern>, parts: seq<seq<Pattern>>) {
    |parts| == |picks| + 1 && Adds(root, parts[0])
    && forall k :: 0 <= k < |picks| ==> Key(picks[k]) in lock && Adds(lock[Key(picks[k])], parts[k + 1])
  }

  /** The list is what the root adds followed by what each pick adds, in the order of the picks. */
  ghost predicate AddedBy(lock: Lock, root: Manifest, picks: seq<Pattern>, patterns: seq<Pattern>) {
    exists parts :: PartsOf(lock, root, picks, parts) && patterns == Concat(parts)
  }

  lemma RootAdds(lock: Lock, root: Manifest)
    ensures AddedBy(lock, root, [], Asked(root))
  {
    AskedIsAdded(root);
    var parts := [Asked(root)];
    assert Concat(parts[..0]) == [] && [] + Asked(root) == Asked(root);
    assert PartsOf(lock, root, [], parts) && Asked(root) == Concat(parts);
  }

  lemma PickAdds(lock: Lock, root: Manifest, picks: seq<Pattern>, patterns: seq<Pattern>, p: Pattern)
    requires AddedBy(lock, root, picks, patterns) && Key(p) in lock
    ensures AddedBy(lock, root, picks + [p], patterns + Asked(lock[Key(p)]))
  {
    AskedIsAdded(lock[Key(p)]);
    var parts :| PartsOf(lock, root, picks, parts) && patterns == Concat(parts);
    var more := parts + [Asked(lock[Key(p)])];
    assert more[..|parts|] == parts;
    assert PartsOf(lock, root, picks + [p], more);
  }

  /**
   Where the worklist stands: everything before `i` has been visited, and the rest of the loop will list `Requests`.
   */
  ghost predicate Worklist(lock: Lock, root: Manifest, patterns: seq<Pattern>, i: nat, visited: set<string>,
                           picks: seq<Pattern>)
  {
    Grown(lock, root, patterns, visited) && VisitedUpTo(patterns, i, visited, picks) && Picked(picks, patterns, visited)
    && Growth(lock, patterns, i, visited) == Requests(lock, root) && AddedBy(lock, root, picks, patterns)
  }

  lemma WorklistBegins(lock: Lock, root: Manifest)
    ensures Worklist(lock, root, Asked(root), 0, {}, []) && NamesOf([]) == {}
  {
    RootsReachable(lock, root);
    RootAdds(lock, root);
  }

  /** A key seen before is skipped. */
  lemma WorklistSkips(lock: Lock, root: Manifest, patterns: seq<Pattern>, i: nat, visited: set<string>,
                      picks: seq<Pattern>)
    requires Worklist(lock, root, patterns, i, visited, picks) && i < |patterns| && Key(patterns[i]) in visited
    ensures Worklist(lock, root, patterns, i + 1, visited, picks)
  {
    VisitedOneMore(patterns, [], i, visited, picks);
    assert patterns + [] == patterns && visited + {Key(patterns[i])} == visited;
  }

  /** A key without an entry ends the run. */
  lemma WorklistFails(lock: Lock, root: Manifest, patterns: seq<Pattern>, i: nat, visited: set<string>,
                      picks: seq<Pattern>)
    requires Worklist(lock, root, patterns, i, visited, picks) && i < |patterns| && Key(patterns[i]) !in lock
    ensures ReachableKey(lock, root, Key(patterns[i])) && !Complete(lock, root)
  {
    assert Reachable(lock, root, patterns[i]);
  }

  /** Any other key is visited. */
  lemma WorklistVisits(lock: Lock, root: Manifest, patterns: seq<Pattern>, i: nat, visited: set<string>,
                       picks: seq<Pattern>)
    requires Worklist(lock, root, patterns, i, visited, picks) && i < |patterns|
    requires var key := Key(patterns[i]); key !in visited && key in lock
    ensures var p := patterns[i];
            Worklist(lock, root, patterns + Asked(lock[Key(p)]), i + 1, visited + {Key(p)}, picks + [p])
            && NamesOf(picks + [p]) == NamesOf(picks) + {Named(p)}
  {
    var p := patterns[i];
    VisitGrows(lock, root, patterns, visited, p);
    PickAdds(lock, root, picks, patterns, p);
    PickMore(picks, patterns, visited, p, Asked(lock[Key(p)]));
    VisitedOneMore(patterns, Asked(lock[Key(p)]), i, visited, picks);
  }

  /** The same with the set of names: those there `before` and those of the picks. */
  ghost predicate Standing(lock: Lock, root: Manifest, patterns: seq<Pattern>, i: nat, visited: set<string>,
                           before: set<string>, names: set<string>)
  {
    exists picks :: Worklist(lock, root, patterns, i, visited, picks) && names == before + NamesOf(picks)
  }

  lemma StandingBegins(lock: Lock, root: Manifest, before: set<string>)
    ensures Standing(lock, root, Asked(root), 0, {}, before, before)
  {
    WorklistBegins(lock, root);
    assert before == before + NamesOf([]);
  }

  lemma OneMoreName(before: set<string>, names: set<string>, name: string)
    ensures before + names + {name} == before + (names + {name})
  {
  }

  lemma StandingTurns(lock: Lock, root: Manifest, patterns: seq<Pattern>, i: nat, visited: set<string>,
                      before: set<string>, names: set<string>)
    requires Standing(lock, root, patterns, i, visited, before, names) && i < |patterns|
    ensures var p := patterns[i];
            if Key(p) in visited then Standing(lock, root, patterns, i + 1, visited, before, names)
            else if Key(p) !in lock then ReachableKey(lock, root, Key(p)) && !Complete(lock, root)
            else Standing(lock, root, patterns + Asked(lock[Key(p)]), i + 1, visited + {Key(p)}, before,
                          names + {Named(p)})
  {
    var picks :| Worklist(lock, root, patterns, i, visited, picks) && names == before + NamesOf(picks);
    var p := patterns[i];
    if Key(p) in visited {
      WorklistSkips(lock, root, patterns, i, visited, picks);
    } else if Key(p) in lock {
      WorklistVisits(lock, root, patterns, i, visited, picks);
      OneMoreName(before, NamesOf(picks), Named(p));
    } else {
      WorklistFails(lock, root, patterns, i, visited, picks);
    }
  }

  /**
   `picks` are the first requests of their keys, one for each reachable key, and the requests are what the root and then
   each of them adds.
   */
  ghost predicate Finished(lock: Lock, root: Manifest, picks: seq<Pattern>) {
    picks == Firsts(Requests(lock, root)) && AddedBy(lock, root, picks, Requests(lock, root))
    && OnePerKey(lock, root, picks) && Complete(lock, root)
    && forall p :: p in Requests(lock, root) <==> Reachable(lock, root, p)
  }

  lemma WorklistEnds(lock: Lock, root: Manifest, patterns: seq<Pattern>, visited: set<string>, picks: seq<Pattern>)
    requires Worklist(lock, root, patterns, |patterns|, visited, picks)
    ensures Finished(lock, root, picks)
  {
    assert patterns[..|patterns|] == patterns;
    forall p | p in patterns
      ensures Key(p) in visited
    {
      assert Key(p) in KeysOf(patterns);
    }
    AllListed(lock, root, patterns, visited);
    PicksAreOnePerKey(lock, root, picks, patterns, visited);
  }

  lemma StandingEnds(lock: Lock, root: Manifest, patterns: seq<Pattern>, visited: set<string>, before: set<string>,
                     names: set<string>)
    requires Standing(lock, root, patterns, |patterns|, visited, before, names)
    ensures Finished(lock, root, Firsts(Requests(lock, root)))
    ensures names == before + NamesOf(Firsts(Requests(lock, root)))
  {
    var picks :| Worklist(lock, root, patterns, |patterns|, visited, picks) && names == before + NamesOf(picks);
    WorklistEnds(lock, root, patterns, visited, picks);
  }

  /** The same for the list alone: with a complete lock it lists exactly what is reachable. */
  lemma {:induction false} RequestsFinish(lock: Lock, root: Manifest, patterns: seq<Pattern>, i: nat,
                                          visited: set<string>, picks: seq<Pattern>)
    requires Worklist(lock, root, patterns, i, visited, picks) && Complete(lock, root)
    ensures Finished(lock, root, Firsts(Requests(lock, root)))
    decreases Left(lock.Keys, visited), |patterns| - i
  {
    if i == |patterns| {
      WorklistEnds(lock, root, patterns, visited, picks);
    } else {
      var p := patterns[i];
      if Key(p) in visited {
        WorklistSkips(lock, root, patterns, i, visited, picks);
        RequestsFinish(lock, root, patterns, i + 1, visited, picks);
      } else {
        assert Reachable(lock, root, p);
        WorklistVisits(lock, root, patterns, i, visited, picks);
        OneFewer(lock.Keys, visited, Key(p));
        RequestsFinish(lock, root, patterns + Asked(lock[Key(p)]), i + 1, visited + {Key(p)}, picks + [p]);
      }
    }
  }

  lemma CompleteFinishes(lock: Lock, root: Manifest)
    requires Complete(lock, root)
    ensures Finished(lock, root, Firsts(Requests(lock, root)))
  {
    WorklistBegins(lock, root);
    RequestsFinish(lock, root, Asked(root), 0, {}, []);
  }

  /**
   It fails exactly when some reachable pattern has no entry in the lock; otherwise it adds, for each reachable key, the
   normalized name of the first request with that key.
   */
  method AddYarnProductionDependencies(dependencies: DependencySet, lock: Lock, packageJson: Manifest)
    returns (missing: Option<string>)
    modifies dependencies
    ensures missing.None? <==> Complete(lock, packageJson)
    ensures missing.Some? ==> missing.value !in lock && ReachableKey(lock, packageJson, missing.value)
    ensures missing.None? ==>
              Finished(lock, packageJson, Firsts(Requests(lock, packageJson)))
              && dependencies.names == old(dependencies.names) + NamesOf(Firsts(Requests(lock, packageJson)))
  {
    missing := None;
    var patterns := AddDependencyPatterns([], packageJson);
    var visited: set<string> := {};
    var i := 0;
    assert patterns == Asked(packageJson);
    StandingBegins(lock, packageJson, dependencies.names);
    ghost var left := Left(lock.Keys, visited);
    while i < |patterns|
      invariant missing.None? && i <= |patterns|
      invariant Standing(lock, packageJson, patterns, i, visited, old(dependencies.names), dependencies.names)
      invariant left == Left(lock.Keys, visited)
      decreases left, |patterns| - i
    {
      StandingTurns(lock, packageJson, patterns, i, visited, old(dependencies.names), dependencies.names);
      missing, patterns, visited := VisitPattern(dependencies, lock, patterns, i, visited);
      if missing.Some? {
        return;
      }
      i := i + 1;
      left := Left(lock.Keys, visited);
    }
    StandingEnds(lock, packageJson, patterns, visited, old(dependencies.names), dependencies.names);
  }

  /** One turn of the loop. */
  method VisitPattern(dependencies: DependencySet, lock: Lock, patterns: seq<Pattern>, i: nat, visited: set<string>)
    returns (missing: Option<string>, more: seq<Pattern>, seen: set<string>)
    requires i < |patterns|
    modifies dependencies
    ensures var p := patterns[i];
            if Key(p) in visited then
              missing.None? && more == patterns && seen == visited && dependencies.names == old(dependencies.names)
            else if Key(p) !in lock then
              missing == Some(Key(p)) && dependencies.names == old(dependencies.names)
            else
              missing.None? && more == patterns + Asked(lock[Key(p)]) && seen == visited + {Key(p)}
              && dependencies.names == old(dependencies.names) + {Named(p)}
              && Left(lock.Keys, seen) < Left(lock.Keys, visited)
  {
    var pattern := Key(patterns[i]);
    if pattern in visited {
      return None, patterns, visited;
    }
    if pattern !in lock {
      return Some(pattern), patterns, visited;
    }
    OneFewer(lock.Keys, visited, pattern);
    dependencies.names := dependencies.names + {NormalizeDependencyName(patterns[i].name, patterns[i].range)};
    more := AddDependencyPatterns(patterns, lock[pattern]);
    missing, seen := None, visited + {pattern};
  }

  lemma RootsReachable(lock: Lock, root: Manifest)
    ensures Grown(lock, root, Asked(root), {})
  {
    forall p | p in Asked(root)
      ensures Reachable(lock, root, p)
    {
      WantedIsAsked(root, p);
      RootReachable(lock, root, p);
    }
  }

  lemma PicksAreOnePerKey(lock: Lock, root: Manifest, picks: seq<Pattern>, patterns: seq<Pattern>, visited: set<string>)
    requires Grown(lock, root, patterns, visited) && Picked(picks, patterns, visited)
    requires (forall p :: p in patterns ==> Key(p) in visited) && forall p :: Reachable(lock, root, p) ==> p in patterns
    ensures OnePerKey(lock, root, picks) && Complete(lock, root)
  {
    forall p | p in picks
      ensures Reachable(lock, root, p)
    {
      assert p in Elements(picks);
    }
    forall p | Reachable(lock, root, p)
      ensures Key(p) in visited && Key(p) in lock
    {
    }
  }

  // ---------- the names of all reachable patterns ----------

  /** As in every npm package name: an `@` at most in front. */
  predicate GoodName(name: string) {
    name != "" && '@' !in name[1..]
  }

  ghost predicate GoodNames(lock: Lock, root: Manifest) {
    (forall p :: Wants(root, p) ==> GoodName(p.name))
    && forall key, p :: key in lock && Wants(lock[key], p) ==> GoodName(p.name)
  }

  lemma KeyTellsPattern(p: Pattern, q: Pattern)
    requires GoodName(p.name) && GoodName(q.name) && Key(p) == Key(q)
    ensures p == q
  {
    if |p.name| < |q.name| {
      AtPosition(p, q);
    } else if |q.name| < |p.name| {
      AtPosition(q, p);
    } else {
      assert p.name == Key(p)[..|p.name|] == q.name;
      assert p.range == Key(p)[|p.name| + 1..] == q.range;
    }
  }

  lemma AtPosition(p: Pattern, q: Pattern)
    requires 0 < |p.name| < |q.name| && Key(p) == Key(q)
    ensures '@' in q.name[1..]
  {
    assert Key(p)[|p.name|] == '@' && Key(q)[|p.name|] == q.name[|p.name|];
    assert q.name[1..][|p.name| - 1] == '@';
  }

  lemma ReachableIsGood(lock: Lock, root: Manifest, p: Pattern)
    requires GoodNames(lock, root) && Reachable(lock, root, p)
    ensures GoodName(p.name)
  {
    var chain :| Chain(lock, root, chain) && chain[|chain| - 1] == p;
  }

  // ---------- when no name is lost ----------

  /** Some reachable key is requested under the normalized name `name` only. */
  ghost predicate HasOwnKey(lock: Lock, root: Manifest, name: string) {
    exists key :: ReachableKey(lock, root, key) && OnlyName(lock, root, key, name)
  }

  ghost predicate OnlyName(lock: Lock, root: Manifest, key: string, name: string) {
    forall q :: Reachable(lock, root, q) && Key(q) == key ==> Named(q) == name
  }

  /** The names of the picks are exactly the normalized names of the reachable patterns. */
  ghost predicate AddsAll(lock: Lock, root: Manifest, picks: seq<Pattern>) {
    forall n :: n in NamesOf(picks) <==> NameReachable(lock, root, n)
  }

  ghost predicate NameReachable(lock: Lock, root: Manifest, name: string) {
    exists p :: Reachable(lock, root, p) && Named(p) == name
  }

  lemma PickFor(lock: Lock, root: Manifest, picks: seq<Pattern>, key: string) returns (r: Pattern)
    requires OnePerKey(lock, root, picks) && ReachableKey(lock, root, key)
    ensures r in picks && Key(r) == key && Reachable(lock, root, r)
  {
    r :| r in picks && Key(r) == key;
  }

  lemma OwnKeyAdds(lock: Lock, root: Manifest, picks: seq<Pattern>, name: string)
    requires OnePerKey(lock, root, picks) && HasOwnKey(lock, root, name)
    ensures name in NamesOf(picks)
  {
    var key :| ReachableKey(lock, root, key) && OnlyName(lock, root, key, name);
    var r := PickFor(lock, root, picks, key);
    assert Named(r) == name;
  }

  /** Picking another pattern for every key, none of which is named `name`. */
  lemma {:induction false} Repick(lock: Lock, root: Manifest, picks: seq<Pattern>, name: string)
    returns (others: seq<Pattern>)
    requires AllReachable(lock, root, picks) && !HasOwnKey(lock, root, name)
    ensures |others| == |picks| && KeysOf(others) == KeysOf(picks)
    ensures AllReachable(lock, root, others) && name !in NamesOf(others)
  {
    if picks == [] {
      others := [];
    } else {
      var init, last := picks[..|picks| - 1], picks[|picks| - 1];
      assert AllReachable(lock, root, init);
      var rest := Repick(lock, root, init, name);
      assert Reachable(lock, root, last) && ReachableKey(lock, root, Key(last));
      var q := OtherName(lock, root, Key(last), name);
      others := rest + [q];
      AddOne(rest, q);
      AddOne(init, last);
      ReachableMore(lock, root, rest, q);
      assert init + [last] == picks;
    }
  }

  ghost predicate AllReachable(lock: Lock, root: Manifest, picks: seq<Pattern>) {
    forall p :: p in picks ==> Reachable(lock, root, p)
  }

  lemma ReachableMore(lock: Lock, root: Manifest, picks: seq<Pattern>, q: Pattern)
    requires AllReachable(lock, root, picks) && Reachable(lock, root, q)
    ensures AllReachable(lock, root, picks + [q])
  {
  }

  lemma OtherName(lock: Lock, root: Manifest, key: string, name: string) returns (q: Pattern)
    requires ReachableKey(lock, root, key) && !HasOwnKey(lock, root, name)
    ensures Reachable(lock, root, q) && Key(q) == key && Named(q) != name
  {
    assert !OnlyName(lock, root, key, name);
    q :| Reachable(lock, root, q) && Key(q) == key && Named(q) != name;
  }

  lemma OwnKeysAddAll(lock: Lock, root: Manifest, picks: seq<Pattern>)
    requires OnePerKey(lock, root, picks)
    requires forall p :: Reachable(lock, root, p) ==> HasOwnKey(lock, root, Named(p))
    ensures AddsAll(lock, root, picks)
  {
    forall n
      ensures n in NamesOf(picks) <==> NameReachable(lock, root, n)
    {
      if n in NamesOf(picks) {
        var p :| p in picks && Named(p) == n;
        assert Reachable(lock, root, p);
      }
      if NameReachable(lock, root, n) {
        OwnKeyAdds(lock, root, picks, n);
      }
    }
  }

  lemma WithoutOwnKeyLost(lock: Lock, root: Manifest, picks: seq<Pattern>, p: Pattern) returns (others: seq<Pattern>)
    requires OnePerKey(lock, root, picks) && Reachable(lock, root, p) && !HasOwnKey(lock, root, Named(p))
    ensures OnePerKey(lock, root, others) && !AddsAll(lock, root, others)
  {
    others := Repick(lock, root, picks, Named(p));
    assert NameReachable(lock, root, Named(p));
  }

  /**
   Whichever request of a key comes first, no name is lost: this holds if and only if every reachable pattern has its
   name on some key that is requested under no other name.
   */
  lemma AllNamesAddedIff(lock: Lock, root: Manifest)
    requires Complete(lock, root)
    ensures (forall picks :: OnePerKey(lock, root, picks) ==> AddsAll(lock, root, picks))
            <==> forall p :: Reachable(lock, root, p) ==> HasOwnKey(lock, root, Named(p))
  {
    CompleteFinishes(lock, root);
    var picks := Firsts(Requests(lock, root));
    if p :| Reachable(lock, root, p) && !HasOwnKey(lock, root, Named(p)) {
      var others := WithoutOwnKeyLost(lock, root, picks, p);
    } else {
      forall others | OnePerKey(lock, root, others)
        ensures AddsAll(lock, root, others)
      {
        OwnKeysAddAll(lock, root, others);
      }
    }
  }

  /** Names as npm has them are enough for that. */
  lemma GoodNamesOwnKeys(lock: Lock, root: Manifest, p: Pattern)
    requires GoodNames(lock, root) && Reachable(lock, root, p)
    ensures HasOwnKey(lock, root, Named(p))
  {
    assert ReachableKey(lock, root, Key(p));
    forall q | Reachable(lock, root, q) && Key(q) == Key(p)
      ensures q == p
    {
      ReachableIsGood(lock, root, p);
      ReachableIsGood(lock, root, q);
      KeyTellsPattern(p, q);
    }
    assert OnlyName(lock, root, Key(p), Named(p));
  }

  /** No earlier request has the key of request `j` and another name. */
  predicate Leads(requests: seq<Pattern>, j: nat)
    requires j < |requests|
  {
    forall k :: 0 <= k < j && Key(requests[k]) == Key(requests[j]) ==> Named(requests[k]) == Named(requests[j])
  }

  /** Some request named `name` leads its key. */
  predicate LedUnder(requests: seq<Pattern>, name: string) {
    exists j :: 0 <= j < |requests| && Named(requests[j]) == name && Leads(requests, j)
  }

  lemma {:induction false} FirstsAreLeaders(requests: seq<Pattern>, name: string)
    ensures name in NamesOf(Firsts(requests)) <==> LedUnder(requests, name)
  {
    if requests != [] {
      var init, last := requests[..|requests| - 1], requests[|requests| - 1];
      FirstsAreLeaders(init, name);
      assert init + [last] == requests;
      LedByOneMore(init, last, name);
      if Key(last) !in KeysOf(init) {
        AddOne(Firsts(init), last);
      } else {
        assert Firsts(init) + [] == Firsts(init);
      }
    }
  }

  lemma LedByOneMore(init: seq<Pattern>, last: Pattern, name: string)
    ensures LedUnder(init + [last], name)
            <==> LedUnder(init, name) || (Named(last) == name && Key(last) !in KeysOf(init))
  {
    var all := init + [last];
    assert all[..|init|] == init && all[|init|] == last;
    forall j | 0 <= j < |init|
      ensures Leads(all, j) <==> Leads(init, j)
    {
    }
    if LedUnder(init, name) {
      var j :| 0 <= j < |init| && Named(init[j]) == name && Leads(init, j);
      assert Leads(all, j);
    }
    if Key(last) !in KeysOf(init) {
      assert Leads(all, |init|);
    }
    if Leads(all, |init|) && Named(last) == name && Key(last) in KeysOf(init) {
      var k := FirstWith(init, Key(last));
      assert Named(all[k]) == Named(last) && Leads(init, k);
    }
  }

  lemma FirstWith(patterns: seq<Pattern>, key: string) returns (k: nat)
    requires key in KeysOf(patterns)
    ensures k < |patterns| && Key(patterns[k]) == key && forall i :: 0 <= i < k ==> Key(patterns[i]) != key
  {
    k := 0;
    while Key(patterns[k]) != key
      invariant k < |patterns| && (forall i :: 0 <= i < k ==> Key(patterns[i]) != key)
      invariant exists i :: k <= i < |patterns| && Key(patterns[i]) == key
      decreases |patterns| - k
    {
      k := k + 1;
    }
  }

  /**
   For the order of the worklist itself: the names added are exactly the normalized names of the reachable patterns if
   and only if each of these names leads some key, that is, is not behind another name on every key it is requested on.
   */
  lemma NamesOfWorklistIff(lock: Lock, root: Manifest)
    requires Complete(lock, root)
    ensures AddsAll(lock, root, Firsts(Requests(lock, root)))
            <==> forall p :: Reachable(lock, root, p) ==> LedUnder(Requests(lock, root), Named(p))
  {
    CompleteFinishes(lock, root);
    var requests := Requests(lock, root);
    forall n
      ensures n in NamesOf(Firsts(requests)) <==> LedUnder(requests, n)
      ensures LedUnder(requests, n) ==> NameReachable(lock, root, n)
    {
      FirstsAreLeaders(requests, n);
      if LedUnder(requests, n) {
        var j :| 0 <= j < |requests| && Named(requests[j]) == n && Leads(requests, j);
        assert requests[j] in requests;
      }
    }
    if AddsAll(lock, root, Firsts(requests)) {
      forall p | Reachable(lock, root, p)
        ensures LedUnder(requests, Named(p))
      {
        assert NameReachable(lock, root, Named(p));
      }
    }
  }

  /** Two requests that share a key. */
  const TWO_READINGS := Manifest([Pattern("a@b", "c"), Pattern("a", "b@c")], [])

  const ONE_ENTRY: Lock := map["a@b@c" := Manifest([], [])]

  lemma BothReadings()
    ensures Reachable(ONE_ENTRY, TWO_READINGS, Pattern("a@b", "c"))
    ensures Reachable(ONE_ENTRY, TWO_READINGS, Pattern("a", "b@c"))
    ensures Complete(ONE_ENTRY, TWO_READINGS)
  {
    RootReachable(ONE_ENTRY, TWO_READINGS, Pattern("a@b", "c"));
    RootReachable(ONE_ENTRY, TWO_READINGS, Pattern("a", "b@c"));
    forall p | Reachable(ONE_ENTRY, TWO_READINGS, p)
      ensures Key(p) in ONE_ENTRY
    {
      OnlyTwo(p);
      assert "a@b" + "@" + "c" == "a@b@c" && "a" + "@" + "b@c" == "a@b@c";
    }
  }

  /** Of two reachable patterns with one key only the first gives its name, in whichever order they come. */
  lemma EveryPickLosesName(picks: seq<Pattern>)
    requires OnePerKey(ONE_ENTRY, TWO_READINGS, picks)
    ensures !({"a@b", "a"} <= NamesOf(picks)) && !AddsAll(ONE_ENTRY, TWO_READINGS, picks)
  {
    var p, q := Pattern("a@b", "c"), Pattern("a", "b@c");
    forall x | x in picks
      ensures x == p || x == q
    {
      OnlyTwo(x);
    }
    SameKeyOnce(picks, p, q);
    BothReadings();
    assert NameReachable(ONE_ENTRY, TWO_READINGS, Named(p)) && NameReachable(ONE_ENTRY, TWO_READINGS, Named(q));
  }

  /** So the worklist misses a name for this manifest and this lock, although the lock is complete. */
  lemma SharedKeyLosesName()
    ensures Complete(ONE_ENTRY, TWO_READINGS)
    ensures NameReachable(ONE_ENTRY, TWO_READINGS, "a@b") && NameReachable(ONE_ENTRY, TWO_READINGS, "a")
    ensures !({"a@b", "a"} <= NamesOf(Firsts(Requests(ONE_ENTRY, TWO_READINGS))))
  {
    BothReadings();
    CompleteFinishes(ONE_ENTRY, TWO_READINGS);
    EveryPickLosesName(Firsts(Requests(ONE_ENTRY, TWO_READINGS)));
    BothNamed();
  }

  lemma BothNamed()
    ensures Named(Pattern("a@b", "c")) == "a@b" && Named(Pattern("a", "b@c")) == "a"
  {
  }

  lemma SameKeyOnce(picks: seq<Pattern>, p: Pattern, q: Pattern)
    requires |KeysOf(picks)| == |picks| && (forall x :: x in picks ==> x == p || x == q) && Key(p) == Key(q)
    requires Named(p) != Named(q)
    ensures !({Named(p), Named(q)} <= NamesOf(picks))
  {
    assert KeysOf(picks) <= {Key(p)};
    OneAtMost(KeysOf(picks), Key(p));
    assert Named(p) in NamesOf(picks) ==> Named(q) !in NamesOf(picks);
  }

  lemma OneAtMost(s: set<string>, x: string)
    requires s <= {x}
    ensures |s| <= 1
  {
    assert s == {} || s == {x};
  }

  lemma OnlyTwo(x: Pattern)
    requires Reachable(ONE_ENTRY, TWO_READINGS, x)
    ensures x == Pattern("a@b", "c") || x == Pattern("a", "b@c")
  {
    var chain :| Chain(ONE_ENTRY, TWO_READINGS, chain) && chain[|chain| - 1] == x;
  }
}
