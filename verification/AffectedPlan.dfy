/** Which packages, tests and contracts a change selects: ownership by path, merged so that it only widens. */
module AffectedPlan {
  import opened Options
  import opened AffectedGraph

  datatype Contract = Generated | Size | Quality | Ipc

  /** How far an owner widens the gate. */
  datatype Width = NotWide | Normal | Advance | Full

  datatype Level = LevelNormal | LevelAdvance | LevelFull

  datatype Owner = Owner(
    rustPackages: seq<string>, typescriptTests: seq<string>, contracts: seq<Contract>, width: Width, reason: string)

  datatype ChangeSet = ChangeSet(paths: seq<string>, fallback: Option<string>)

  datatype Plan = Plan(
    paths: seq<string>, fallback: Option<string>, rustPackages: set<string>, typescriptTests: seq<string>,
    contracts: seq<Contract>, reason: string)

  const MEDIA_TESTS: seq<string> := [
    "tests/media-http-api.test.ts",
    "tests/media-http-stream.test.ts",
    "tests/media-generation.test.tsx",
    "tests/media-recovery.test.tsx",
    "tests/feature-lab-preview.test.ts",
    "tests/feature-lab-preview.test.tsx"
  ]

  const AVATAR_TESTS: seq<string> := [
    "tests/light-avatar-background.test.tsx",
    "tests/feature-lab-preview.test.ts",
    "tests/feature-lab-preview.test.tsx"
  ]

  const SELECTED_ALLOWLIST: seq<string> := [
    "src/features/chat/avatar/LightAvatarBackground.tsx",
    "src/features/chat/avatar/lightAvatarBackground.css"
  ] + AVATAR_TESTS

  const MEDIA_CONTRACTS: seq<string> := [
    "src/features/media/mediaApi.ts",
    "src/features/media/mediaApiModel.ts",
    "src/features/media/mediaContracts.ts"
  ]

  const ALL_CONTRACTS: seq<Contract> := [Generated, Size, Quality, Ipc]

  predicate EndsWith(text: string, tail: string) {
    |tail| <= |text| && text[|text| - |tail|..] == tail
  }

  predicate Includes(text: string, part: string) {
    |part| <= |text| && (part <= text || (text != "" && Includes(text[1..], part)))
  }

  /** `replaceAll("\\", "/")`. */
  function Normalized(path: string): (n: string)
    ensures |n| == |path|
    ensures forall i :: 0 <= i < |path| ==> n[i] == if path[i] == '\\' then '/' else path[i]
  {
    seq(|path|, i requires 0 <= i < |path| => if path[i] == '\\' then '/' else path[i])
  }

  predicate IsWide(path: string) {
    || path == "package.json" || path == "vite.config.ts" || "tsconfig" <= path
    || path == "Cargo.lock" || EndsWith(path, "/Cargo.lock") || path == "bun.lock" || path == "src-tauri/build.rs"
    || "scripts/verify" <= path || "scripts/frontend-tests" <= path || "scripts/module-size" <= path
    || "scripts/serial-command" <= path || ".cargo/" <= path || Includes(path, "rust-toolchain")
  }

  function WideOwner(width: Width, reason: string): Owner {
    Owner([], [], ALL_CONTRACTS, width, reason)
  }

  function OwnersForPath(path: string): Owner {
    var p := Normalized(path);
    if IsWide(p) then WideOwner(Full, "shared build, lock, toolchain, or verify input")
    else if "services/feature-lab/" <= p || "scripts/feature-lab" <= p then
      WideOwner(Full, "feature-lab host, launcher, or vite input")
    else if p in SELECTED_ALLOWLIST then
      Owner([], AVATAR_TESTS, [], NotWide, "avatar drawing or its preview test; voice and inference stay out")
    else if p in MEDIA_CONTRACTS then
      Owner(["src-tauri", "services/feature-lab"], MEDIA_TESTS, [Ipc], NotWide,
            "shared media API; desktop and HTTP callers stay in scope")
    else if "crates/saaa-media/" <= p || "src-tauri/src/media_generation/" <= p then
      Owner(["crates/saaa-media", "services/feature-lab", "src-tauri"], MEDIA_TESTS, [Ipc], NotWide,
            "media execution and its desktop and lab callers")
    else if "src/features/media/" <= p || p in MEDIA_TESTS then
      Owner([], MEDIA_TESTS, [], NotWide, "media UI and HTTP client")
    else if "crates/saaa-provider-routing/" <= p || "src-tauri/src/providers/service_registry" <= p then
      Owner(["crates/saaa-provider-routing", "crates/saaa-media", "services/feature-lab", "src-tauri"], MEDIA_TESTS,
            [Quality, Ipc], NotWide, "shared provider routing")
    else if "crates/larm-session/" <= p then
      Owner(["crates/larm-session", "crates/saaa-media", "services/reasoning-mcp", "services/feature-lab", "src-tauri"],
            MEDIA_TESTS, [Ipc], NotWide, "larm-session and its dependents")
    else if EndsWith(p, ".sql") || Includes(p, "/persistence/schema") then WideOwner(Full, "stored schema")
    else if "src/" <= p || "tests/" <= p then
      Owner([], if EndsWith(p, ".test.ts") || EndsWith(p, ".test.tsx") then [p] else [], ALL_CONTRACTS, Advance,
            "unregistered frontend path")
    else WideOwner(Advance, "unregistered path")
  }

  function Rank(w: Width): nat {
    match w case NotWide => 0 case Normal => 1 case Advance => 2 case Full => 3
  }

  function Widest(paths: seq<string>): (w: Width)
    ensures forall p :: p in paths ==> Rank(OwnersForPath(p).width) <= Rank(w)
    ensures w == NotWide || exists p :: p in paths && OwnersForPath(p).width == w
  {
    hide OwnersForPath;
    if paths == [] then NotWide
    else
      var n := |paths| - 1;
      var widest, last := Widest(paths[..n]), OwnersForPath(paths[n]).width;
      assert paths == paths[..n] + [paths[n]];
      if Rank(last) > Rank(widest) then last else widest
  }

  /** `[...new Set(values)]` for any list. */
  function Unique<T(==,!new)>(s: seq<T>): (u: seq<T>)
    ensures forall x :: x in u <==> x in s
    ensures forall i, j :: 0 <= i < j < |u| ==> u[i] != u[j]
  {
    if s == [] then []
    else
      var n := |s| - 1;
      assert s == s[..n] + [s[n]];
      var u := Unique(s[..n]);
      if s[n] in u then u else u + [s[n]]
  }

  function FlatMap<T(!new)>(paths: seq<string>, f: Owner -> seq<T>): (all: seq<T>)
    ensures forall x :: x in all <==> exists p :: p in paths && x in f(OwnersForPath(p))
  {
    hide OwnersForPath;
    if paths == [] then []
    else
      var n := |paths| - 1;
      assert paths == paths[..n] + [paths[n]];
      FlatMap(paths[..n], f) + f(OwnersForPath(paths[n]))
  }

  function Reasons(paths: seq<string>): seq<string> {
    FlatMap(paths, (o: Owner) => [o.reason])
  }

  function Joined(parts: seq<string>): string {
    if parts == [] then "" else if |parts| == 1 then parts[0] else Joined(parts[..|parts| - 1]) + "; " + parts[|parts| - 1]
  }

  /** Merging owners keeps every package, test and contract of every path, adds no other, and takes the widest width. */
  function MergeOwners(paths: seq<string>): (merged: Owner)
    ensures forall x :: x in merged.rustPackages <==> exists p :: p in paths && x in OwnersForPath(p).rustPackages
    ensures forall x :: x in merged.typescriptTests <==> exists p :: p in paths && x in OwnersForPath(p).typescriptTests
    ensures forall x :: x in merged.contracts <==> exists p :: p in paths && x in OwnersForPath(p).contracts
    ensures merged.width == NotWide <==> forall p :: p in paths ==> OwnersForPath(p).width == NotWide
    ensures forall p :: p in paths ==> Rank(OwnersForPath(p).width) <= Rank(merged.width)
    ensures merged.width == NotWide || exists p :: p in paths && OwnersForPath(p).width == merged.width
  {
    hide OwnersForPath;
    Owner(
      Unique(FlatMap(paths, (o: Owner) => o.rustPackages)),
      Unique(FlatMap(paths, (o: Owner) => o.typescriptTests)),
      Unique(FlatMap(paths, (o: Owner) => o.contracts)),
      Widest(paths),
      Joined(Unique(Reasons(paths))))
  }

  function WidePlan(paths: seq<string>, reason: string): Plan {
    Plan(paths, Some(reason), {}, [], ALL_CONTRACTS, reason)
  }

  predicate AnyWide(paths: seq<string>) {
    exists p :: p in paths && OwnersForPath(p).width != NotWide
  }

  /**
   Selection never misses: either the plan widens, exactly when an input could not be read or some
   path widens, or it holds for every changed path the closure of its owner's packages and all its
   owner's tests and contracts, and nothing that no changed path asks for.
   */
  method PlanAffected(changes: ChangeSet, graph: PackageGraph) returns (plan: Plan)
    ensures plan.fallback.Some? <==> Falls(changes.fallback) || Falls(graph.fallback) || AnyWide(changes.paths)
    ensures plan.fallback.Some? ==> plan.contracts == ALL_CONTRACTS
    ensures plan.fallback.None? ==>
              forall a :: a in plan.rustPackages <==>
                exists p :: p in changes.paths && Reaches(graph.packages, a, Elements(OwnersForPath(p).rustPackages))
    ensures plan.fallback.None? ==>
              forall t :: t in plan.typescriptTests <==> exists p :: p in changes.paths && t in OwnersForPath(p).typescriptTests
    ensures plan.fallback.None? ==>
              forall c :: c in plan.contracts <==> exists p :: p in changes.paths && c in OwnersForPath(p).contracts
    ensures plan.paths == changes.paths
  {
    hide OwnersForPath;
    if Falls(changes.fallback) || Falls(graph.fallback) {
      return WidePlan(changes.paths,
          if changes.fallback.Some? then changes.fallback.value
          else if graph.fallback.Some? then graph.fallback.value else "unparsed input");
    }
    var owners := MergeOwners(changes.paths);
    if owners.width != NotWide {
      return WidePlan(changes.paths, owners.reason);
    }
    var selected := DependentsOf(graph, owners.rustPackages);
    forall a ensures a in selected <==>
                       exists p :: p in changes.paths && Reaches(graph.packages, a, Elements(OwnersForPath(p).rustPackages))
    {
      MergedClosure(graph.packages, changes.paths, owners, a);
    }
    plan := Plan(changes.paths, None, selected, owners.typescriptTests, owners.contracts, owners.reason);
  }

  /** A package reaches the merged owners' packages exactly when it reaches those of some path. */
  lemma MergedClosure(packages: seq<Package>, paths: seq<string>, owners: Owner, a: string)
    requires forall x :: x in owners.rustPackages <==> exists p :: p in paths && x in OwnersForPath(p).rustPackages
    ensures Reaches(packages, a, Elements(owners.rustPackages)) <==>
              exists p :: p in paths && Reaches(packages, a, Elements(OwnersForPath(p).rustPackages))
  {
    hide OwnersForPath;
    if Reaches(packages, a, Elements(owners.rustPackages)) {
      var path, b :| b in Elements(owners.rustPackages) && IsPath(packages, path, a, b);
      assert b in owners.rustPackages;
      var p :| p in paths && b in OwnersForPath(p).rustPackages;
      assert b in Elements(OwnersForPath(p).rustPackages);
    }
    forall p | p in paths && Reaches(packages, a, Elements(OwnersForPath(p).rustPackages))
      ensures Reaches(packages, a, Elements(owners.rustPackages))
    {
      ReachesMore(packages, packages, a, Elements(OwnersForPath(p).rustPackages), Elements(owners.rustPackages));
    }
  }

  /** Both graphs side by side have the edges of both. */
  lemma EdgesSideBySide(current: seq<Package>, previous: seq<Package>, a: string, b: string)
    ensures DependsOn(current + previous, a, b) <==> DependsOn(current, a, b) || DependsOn(previous, a, b)
  {
    var both := current + previous;
    if DependsOn(current, a, b) {
      var i :| 0 <= i < |current| && current[i].directory == a && b in AllDeps(current[i].deps);
      assert both[i] == current[i];
    }
    if DependsOn(previous, a, b) {
      var i :| 0 <= i < |previous| && previous[i].directory == a && b in AllDeps(previous[i].deps);
      assert both[|current| + i] == previous[i];
    }
  }

  lemma UnionReachesSideBySide(union: seq<Package>, current: seq<Package>, previous: seq<Package>, a: string, targets: set<string>)
    requires forall x, y :: DependsOn(union, x, y) <==> DependsOn(current, x, y) || DependsOn(previous, x, y)
    ensures Reaches(union, a, targets) <==> Reaches(current + previous, a, targets)
  {
    forall x, y ensures DependsOn(union, x, y) <==> DependsOn(current + previous, x, y) {
      EdgesSideBySide(current, previous, x, y);
    }
    hide DependsOn;
    if Reaches(union, a, targets) {
      ReachesMore(union, current + previous, a, targets, targets);
    }
    if Reaches(current + previous, a, targets) {
      ReachesMore(current + previous, union, a, targets, targets);
    }
  }

  /** What was read: the texts of the manifests now and before, or why they could not be read, and the graphs parsed from them. */
  datatype Manifests = Manifests(
    readFallback: Option<string>, previousFallback: Option<string>, current: PackageGraph, previous: PackageGraph)

  /** Why the gate widens. A parse failure of the previous manifests counts only unless an empty text of the current ones hides it. */
  predicate Widens(changes: ChangeSet, manifests: Manifests) {
    || Falls(changes.fallback) || Falls(manifests.readFallback) || Falls(manifests.previousFallback) || AnyWide(changes.paths)
    || Falls(manifests.current.fallback)
    || (Falls(manifests.previous.fallback) && manifests.current.fallback != Some(""))
  }

  /**
   `explainAffected`: widens exactly for these reasons; else the plan has exactly what reaches a changed path's
   packages through the edges of both graphs, or, when the current graph's empty text hides that the previous one
   could not be parsed, nothing beyond those packages themselves.
   */
  method ExplainAffected(changes: ChangeSet, manifests: Manifests) returns (plan: Plan)
    ensures plan.fallback.Some? <==> Widens(changes, manifests)
    ensures plan.fallback.None? && !Falls(manifests.previous.fallback) ==>
              forall a :: a in plan.rustPackages <==>
                exists p :: p in changes.paths
                  && Reaches(manifests.current.packages + manifests.previous.packages, a, Elements(OwnersForPath(p).rustPackages))
    ensures plan.fallback.None? && Falls(manifests.previous.fallback) ==>
              forall a :: a in plan.rustPackages <==> exists p :: p in changes.paths && a in OwnersForPath(p).rustPackages
  {
    hide OwnersForPath, Reaches, AnyWide, DependsOn;
    if Falls(manifests.readFallback) {
      plan := PlanAffected(changes, PackageGraph([], manifests.readFallback));
      return;
    }
    if Falls(manifests.previousFallback) {
      var fallback := if changes.fallback.Some? then changes.fallback else manifests.previousFallback;
      plan := PlanAffected(changes.(fallback := fallback), PackageGraph([], manifests.previousFallback));
      return;
    }
    var union := UnionGraphs(manifests.current, manifests.previous);
    plan := PlanAffected(changes, union);
    forall a, p | p in changes.paths
      ensures !Falls(manifests.previous.fallback) && !Falls(manifests.current.fallback) ==>
                (Reaches(union.packages, a, Elements(OwnersForPath(p).rustPackages)) <==>
                 Reaches(manifests.current.packages + manifests.previous.packages, a, Elements(OwnersForPath(p).rustPackages)))
      ensures union.packages == [] ==>
                (Reaches(union.packages, a, Elements(OwnersForPath(p).rustPackages)) <==> a in OwnersForPath(p).rustPackages)
    {
      if !Falls(manifests.previous.fallback) && !Falls(manifests.current.fallback) {
        UnionReachesSideBySide(union.packages, manifests.current.packages, manifests.previous.packages, a,
                               Elements(OwnersForPath(p).rustPackages));
      }
      ReachesWithoutEdges(a, Elements(OwnersForPath(p).rustPackages));
    }
  }

  lemma ReachesWithoutEdges(a: string, targets: set<string>)
    ensures Reaches([], a, targets) <==> a in targets
  {
    if a in targets {
      ReachesItself([], a, targets);
    }
    if Reaches([], a, targets) {
      var path, b :| b in targets && IsPath([], path, a, b);
      if |path| > 1 {
        assert !DependsOn([], path[0], path[1]);
      }
    }
  }

  /**
   The hidden failure is a real miss: the previous manifests could not be parsed, and yet a change that is not wide
   by its own paths does not widen the gate, because the current ones failed with an empty message.
   */
  lemma EmptyTextHidesAFailure(paths: seq<string>)
    requires !AnyWide(paths)
    ensures var parsed := Manifests(None, None, PackageGraph([], Some("")), PackageGraph([], Some("unsupported path")));
            Falls(parsed.previous.fallback) && !Widens(ChangeSet(paths, None), parsed)
  {
  }

  // ---- The narrow mode ----

  predicate SelectedAllowlistMatches(paths: seq<string>) {
    |paths| > 0 && forall p :: p in paths ==> p in SELECTED_ALLOWLIST
  }

  datatype Decision = Decision(holdFallback: bool, narrow: bool)

  function DecideSelectedExecution(level: Level, holdFallback: bool, paths: seq<string>, planFallback: Option<string>): Decision {
    var outside := planFallback.Some? || !SelectedAllowlistMatches(paths);
    if level == LevelFull || holdFallback || outside then Decision(true, false) else Decision(false, true)
  }
}
