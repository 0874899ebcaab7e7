/** Reverse dependencies between packages: a fixpoint loop over sets, and the reachability it must equal. */
module AffectedGraph {
  import opened Options

  datatype Deps = Deps(normal: seq<string>, dev: seq<string>, build: seq<string>)

  /** One entry of the `packages` record, in the record's own order. */
  datatype Package = Package(directory: string, deps: Deps)

  datatype PackageGraph = PackageGraph(packages: seq<Package>, fallback: Option<string>)

  /** A fallback counts only when its text is not empty: the source tests it for truth, not for null. */
  predicate Falls(fallback: Option<string>) {
    fallback.Some? && fallback.value != ""
  }

  function AllDeps(d: Deps): seq<string> {
    d.normal + d.dev + d.build
  }

  /** a names b as a dependency. */
  ghost predicate DependsOn(packages: seq<Package>, a: string, b: string) {
    exists i :: 0 <= i < |packages| && packages[i].directory == a && b in AllDeps(packages[i].deps)
  }

  /** A dependency path from a to b: each element depends on the next. */
  ghost predicate IsPath(packages: seq<Package>, path: seq<string>, a: string, b: string) {
    && 0 < |path| && path[0] == a && path[|path| - 1] == b
    && forall i :: 0 <= i < |path| - 1 ==> DependsOn(packages, path[i], path[i + 1])
  }

  ghost predicate Reaches(packages: seq<Package>, a: string, targets: set<string>) {
    exists path, b :: b in targets && IsPath(packages, path, a, b)
  }

  lemma ReachesItself(packages: seq<Package>, a: string, targets: set<string>)
    requires a in targets
    ensures Reaches(packages, a, targets)
  {
    assert IsPath(packages, [a], a, a);
  }

  lemma ReachesThrough(packages: seq<Package>, a: string, b: string, targets: set<string>)
    requires DependsOn(packages, a, b) && Reaches(packages, b, targets)
    ensures Reaches(packages, a, targets)
  {
    var path, t :| t in targets && IsPath(packages, path, b, t);
    var longer := [a] + path;
    forall i | 0 <= i < |longer| - 1 ensures DependsOn(packages, longer[i], longer[i + 1]) {
      if i > 0 { assert longer[i] == path[i - 1] && longer[i + 1] == path[i]; }
    }
    assert IsPath(packages, longer, a, t);
  }

  /** Nothing outside s depends on anything inside it. */
  ghost predicate Closed(packages: seq<Package>, s: set<string>) {
    forall a, b :: DependsOn(packages, a, b) && b in s ==> a in s
  }

  lemma {:induction false} ClosedContainsPaths(packages: seq<Package>, s: set<string>, path: seq<string>, a: string, b: string)
    requires Closed(packages, s) && b in s && IsPath(packages, path, a, b)
    ensures a in s
    decreases |path|
  {
    if |path| > 1 {
      var rest := path[1..];
      forall i | 0 <= i < |rest| - 1 ensures DependsOn(packages, rest[i], rest[i + 1]) {
        assert rest[i] == path[i + 1] && rest[i + 1] == path[i + 2];
      }
      ClosedContainsPaths(packages, s, rest, path[1], b);
      assert DependsOn(packages, a, path[1]);
    }
  }

  function Elements(s: seq<string>): set<string> {
    set x | x in s
  }

  function Directories(packages: seq<Package>): set<string> {
    set i | 0 <= i < |packages| :: packages[i].directory
  }

  /** The pass would add this package: some dependency is selected, it is not. */
  predicate Adds(entry: Package, selected: set<string>) {
    (exists dep :: dep in AllDeps(entry.deps) && dep in selected) && entry.directory !in selected
  }

  ghost predicate OnlyReaching(packages: seq<Package>, selected: set<string>, targets: set<string>) {
    forall a :: a in selected ==> Reaches(packages, a, targets)
  }

  lemma AddingKeepsReaching(packages: seq<Package>, i: nat, selected: set<string>, targets: set<string>)
    requires i < |packages| && Adds(packages[i], selected) && OnlyReaching(packages, selected, targets)
    ensures OnlyReaching(packages, selected + {packages[i].directory}, targets)
  {
    var dep :| dep in AllDeps(packages[i].deps) && dep in selected;
    assert DependsOn(packages, packages[i].directory, dep);
    ReachesThrough(packages, packages[i].directory, dep, targets);
  }

  /** A selection that no pass can grow holds everything with a path into it. */
  lemma SaturatedHoldsAllReaching(packages: seq<Package>, selected: set<string>, targets: set<string>)
    requires targets <= selected && forall i :: 0 <= i < |packages| ==> !Adds(packages[i], selected)
    ensures forall a :: Reaches(packages, a, targets) ==> a in selected
  {
    assert Closed(packages, selected);
    forall a | Reaches(packages, a, targets) ensures a in selected {
      var path, b :| b in targets && IsPath(packages, path, a, b);
      ClosedContainsPaths(packages, selected, path, a, b);
    }
  }

  /** The body of the outer loop: one walk over the entries, adding as it goes. */
  method Pass(packages: seq<Package>, start: set<string>, ghost targets: set<string>) returns (selected: set<string>, grew: bool)
    requires OnlyReaching(packages, start, targets)
    ensures start <= selected && OnlyReaching(packages, selected, targets)
    ensures selected <= start + Directories(packages) && (grew <==> selected != start)
    ensures !grew ==> forall i :: 0 <= i < |packages| ==> !Adds(packages[i], selected)
  {
    selected, grew := start, false;
    for n := 0 to |packages|
      invariant start <= selected <= start + Directories(packages)
      invariant OnlyReaching(packages, selected, targets)
      invariant grew <==> selected != start
      invariant !grew ==> forall i :: 0 <= i < n ==> !Adds(packages[i], selected)
    {
      if Adds(packages[n], selected) {
        AddingKeepsReaching(packages, n, selected, targets);
        assert packages[n].directory in Directories(packages);
        selected := selected + {packages[n].directory};
        grew := true;
      }
    }
  }

  /**
   Walks the entries until a whole walk adds none. The result is exactly the changed packages and
   the packages with a dependency path into them; a graph that could not be parsed selects nothing.
   */
  method DependentsOf(graph: PackageGraph, changed: seq<string>) returns (selected: set<string>)
    ensures Falls(graph.fallback) ==> selected == {}
    ensures !Falls(graph.fallback) ==> forall a :: a in selected <==> Reaches(graph.packages, a, Elements(changed))
  {
    if Falls(graph.fallback) {
      return {};
    }
    ghost var targets := Elements(changed);
    selected := Elements(changed);
    forall a | a in selected ensures Reaches(graph.packages, a, targets) {
      ReachesItself(graph.packages, a, targets);
    }
    var grew := true;
    while grew
      invariant targets <= selected && OnlyReaching(graph.packages, selected, targets)
      invariant !grew ==> forall i :: 0 <= i < |graph.packages| ==> !Adds(graph.packages[i], selected)
      decreases Directories(graph.packages) - selected, grew
    {
      ghost var before := selected;
      selected, grew := Pass(graph.packages, selected, targets);
      assert grew ==> exists x :: x in selected - before && x in Directories(graph.packages);
    }
    SaturatedHoldsAllReaching(graph.packages, selected, targets);
  }

  // ---- Union of the current and the previous graph ----

  /** `[...new Set([...a, ...b])]`: both lists in order, first occurrences only. */
  function Merge(a: seq<string>, b: seq<string>): (m: seq<string>)
    ensures Elements(m) == Elements(a) + Elements(b)
    ensures forall i, j :: 0 <= i < j < |m| ==> m[i] != m[j]
  {
    var all := a + b;
    assert Elements(all) == Elements(a) + Elements(b);
    Distinct(all)
  }

  function Distinct(s: seq<string>): (d: seq<string>)
    ensures Elements(d) == Elements(s)
    ensures forall i, j :: 0 <= i < j < |d| ==> d[i] != d[j]
  {
    if s == [] then []
    else
      var n := |s| - 1;
      var d := Distinct(s[..n]);
      assert s == s[..n] + [s[n]];
      assert forall x :: x in d <==> x in Elements(d);
      assert forall x :: x in s[..n] <==> x in Elements(s[..n]);
      if s[n] in d then d else d + [s[n]]
  }

  function MergeDeps(a: Deps, b: Deps): Deps {
    Deps(Merge(a.normal, b.normal), Merge(a.dev, b.dev), Merge(a.build, b.build))
  }

  function Slot(packages: seq<Package>, directory: string): (at: Option<nat>)
    ensures at.Some? ==> at.value < |packages| && packages[at.value].directory == directory
    ensures at.None? ==> forall i :: 0 <= i < |packages| ==> packages[i].directory != directory
  {
    if packages == [] then None
    else if packages[|packages| - 1].directory == directory then Some(|packages| - 1)
    else Slot(packages[..|packages| - 1], directory)
  }

  /** The keys of a record are distinct. */
  ghost predicate Distinguished(packages: seq<Package>) {
    forall i, j :: 0 <= i < j < |packages| ==> packages[i].directory != packages[j].directory
  }

  function Upsert(packages: seq<Package>, entry: Package): seq<Package> {
    var at := Slot(packages, entry.directory);
    if at.Some? then packages[at.value := Package(entry.directory, MergeDeps(packages[at.value].deps, entry.deps))]
    else packages + [Package(entry.directory, MergeDeps(Deps([], [], []), entry.deps))]
  }

  lemma MergedDeps(a: Deps, b: Deps, x: string)
    ensures x in AllDeps(MergeDeps(a, b)) <==> x in AllDeps(a) || x in AllDeps(b)
  {
    assert x in MergeDeps(a, b).normal <==> x in Elements(MergeDeps(a, b).normal);
    assert x in MergeDeps(a, b).dev <==> x in Elements(MergeDeps(a, b).dev);
    assert x in MergeDeps(a, b).build <==> x in Elements(MergeDeps(a, b).build);
  }

  /** Adding an entry adds exactly its own edges. */
  lemma UpsertAddsEdges(packages: seq<Package>, entry: Package, a: string, b: string)
    requires Distinguished(packages)
    ensures Distinguished(Upsert(packages, entry))
    ensures DependsOn(Upsert(packages, entry), a, b)
       <==> DependsOn(packages, a, b) || (a == entry.directory && b in AllDeps(entry.deps))
  {
    var next, at := Upsert(packages, entry), Slot(packages, entry.directory);
    var slot := if at.Some? then at.value else |packages|;
    var prior := if at.Some? then packages[slot].deps else Deps([], [], []);
    MergedDeps(prior, entry.deps, b);
    assert next[slot] == Package(entry.directory, MergeDeps(prior, entry.deps));
    assert forall i :: 0 <= i < |packages| && i != slot ==> next[i] == packages[i];
    if DependsOn(packages, a, b) {
      var i :| 0 <= i < |packages| && packages[i].directory == a && b in AllDeps(packages[i].deps);
      assert next[i].directory == a && b in AllDeps(next[i].deps);
    }
    if DependsOn(next, a, b) {
      var i :| 0 <= i < |next| && next[i].directory == a && b in AllDeps(next[i].deps);
      if i != slot { assert packages[i] == next[i]; }
    }
  }

  method UnionGraphs(current: PackageGraph, previous: PackageGraph) returns (union: PackageGraph)
    // Either graph's fallback widens the union, except that an empty text in the current graph hides the other's.
    ensures Falls(union.fallback) <==>
              Falls(current.fallback) || (Falls(previous.fallback) && current.fallback != Some(""))
    ensures Falls(current.fallback) || Falls(previous.fallback) ==> union.packages == []
    ensures !Falls(current.fallback) && !Falls(previous.fallback) ==> union.fallback.None? && Distinguished(union.packages)
    ensures !Falls(current.fallback) && !Falls(previous.fallback) ==> forall a, b ::
              DependsOn(union.packages, a, b) <==> DependsOn(current.packages, a, b) || DependsOn(previous.packages, a, b)
  {
    if Falls(current.fallback) || Falls(previous.fallback) {
      return PackageGraph([], if current.fallback.Some? then current.fallback else previous.fallback);
    }
    hide DependsOn;
    NoEdges();
    var packages := AddAll([], current.packages);
    packages := AddAll(packages, previous.packages);
    union := PackageGraph(packages, None);
  }

  lemma NoEdges()
    ensures forall a, b :: !DependsOn([], a, b)
  {
  }

  /** The loop over one graph's entries: each adds its own edges. */
  method AddAll(start: seq<Package>, added: seq<Package>) returns (packages: seq<Package>)
    requires Distinguished(start)
    ensures Distinguished(packages)
    ensures forall a, b :: DependsOn(packages, a, b) <==> DependsOn(start, a, b) || DependsOn(added, a, b)
  {
    hide DependsOn, Upsert, Distinguished;
    packages := start;
    NoEdges();
    assert added[..0] == [];
    for n := 0 to |added|
      invariant Distinguished(packages)
      invariant forall a, b :: DependsOn(packages, a, b) <==> DependsOn(start, a, b) || DependsOn(added[..n], a, b)
    {
      ghost var before := packages;
      packages := Upsert(packages, added[n]);
      forall a, b ensures DependsOn(packages, a, b) <==> DependsOn(start, a, b) || DependsOn(added[..n + 1], a, b) {
        UpsertAddsEdges(before, added[n], a, b);
        EdgesOfPrefix(added, n, a, b);
      }
      UpsertAddsEdges(before, added[n], "", "");
    }
    assert added[..|added|] == added;
  }

  lemma EdgesOfPrefix(packages: seq<Package>, n: nat, a: string, b: string)
    requires n < |packages|
    ensures DependsOn(packages[..n + 1], a, b)
       <==> DependsOn(packages[..n], a, b) || (packages[n].directory == a && b in AllDeps(packages[n].deps))
  {
    var longer, shorter := packages[..n + 1], packages[..n];
    assert forall i :: 0 <= i < n ==> longer[i] == shorter[i];
    assert longer[n] == packages[n];
    if DependsOn(shorter, a, b) {
      var i :| 0 <= i < n && shorter[i].directory == a && b in AllDeps(shorter[i].deps);
      assert longer[i] == shorter[i];
    }
    if DependsOn(longer, a, b) {
      var i :| 0 <= i <= n && longer[i].directory == a && b in AllDeps(longer[i].deps);
      if i < n { assert shorter[i] == longer[i]; }
    }
  }

  /** Reachability only grows with the edges and with the targets. */
  lemma ReachesMore(few: seq<Package>, many: seq<Package>, a: string, small: set<string>, large: set<string>)
    requires forall x, y :: DependsOn(few, x, y) ==> DependsOn(many, x, y)
    requires small <= large && Reaches(few, a, small)
    ensures Reaches(many, a, large)
  {
    var path, b :| b in small && IsPath(few, path, a, b);
    assert IsPath(many, path, a, b);
  }

  /** The union's closure contains the closure each graph has on its own. */
  lemma UnionClosureContainsBoth(current: seq<Package>, previous: seq<Package>, union: seq<Package>, a: string, targets: set<string>)
    requires forall x, y :: DependsOn(union, x, y) <==> DependsOn(current, x, y) || DependsOn(previous, x, y)
    requires Reaches(current, a, targets) || Reaches(previous, a, targets)
    ensures Reaches(union, a, targets)
  {
    if Reaches(current, a, targets) {
      ReachesMore(current, union, a, targets, targets);
    } else {
      ReachesMore(previous, union, a, targets, targets);
    }
  }
}
