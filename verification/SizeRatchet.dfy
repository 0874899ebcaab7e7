/** The size ratchet: what the check reports, what a registration may change, and what no history can undo. */
module SizeRatchet {
  import opened Options

  datatype Counts = Counts(total: nat, production: nat)

  datatype SizeRecord = SizeRecord(path: string, counts: Counts)

  type Baseline = map<string, Counts>

  datatype Failure =
    | Missing(path: string)
    | OverRatchet(path: string, measured: nat, ceiling: nat)
    | OverBudget(path: string, measured: nat, hard: nat)
    | StaleEntry(path: string)
    | ForbiddenSplit(path: string)

  const RUST_PRODUCTION: nat := 1_600
  const TSX: nat := 550
  const TYPESCRIPT: nat := 700
  const SCRIPT: nat := 1_000

  /** The growth rule: a ceiling that never falls below the registered size. */
  ghost predicate Ceiling(grow: nat -> nat) {
    forall n: nat :: n <= grow(n)
  }

  predicate EndsWith(text: string, tail: string) {
    |tail| <= |text| && text[|text| - |tail|..] == tail
  }

  function Measured(path: string, counts: Counts): nat {
    if EndsWith(path, ".rs") then counts.production else counts.total
  }

  function HardLimit(path: string): Option<nat> {
    if path == "src/App.tsx" then Some(450)
    else if path == "src-tauri/src/lib.rs" then Some(800)
    else if EndsWith(path, ".rs") then Some(RUST_PRODUCTION)
    else if EndsWith(path, ".tsx") then Some(TSX)
    else if "scripts/" <= path && EndsWith(path, ".ts") then Some(SCRIPT)
    else if EndsWith(path, ".ts") then Some(TYPESCRIPT)
    else None
  }

  predicate OverCeiling(r: SizeRecord, baseline: Baseline, grow: nat -> nat) {
    r.path in baseline && Measured(r.path, r.counts) > grow(Measured(r.path, baseline[r.path]))
  }

  /** Over its hard limit, and not already registered above it. */
  predicate OverHard(r: SizeRecord, baseline: Baseline) {
    var hard := HardLimit(r.path);
    && hard.Some? && Measured(r.path, r.counts) > hard.value
    && !(r.path in baseline && Measured(r.path, baseline[r.path]) > hard.value)
  }

  /** What the check has to say about one record. */
  predicate Blames(f: Failure, r: SizeRecord, baseline: Baseline, registered: bool, grow: nat -> nat) {
    match f
    case Missing(path) => path == r.path && registered && r.path !in baseline
    case OverRatchet(path, measured, ceiling) =>
      && path == r.path && OverCeiling(r, baseline, grow)
      && measured == Measured(r.path, r.counts) && ceiling == grow(Measured(r.path, baseline[r.path]))
    case OverBudget(path, measured, hard) =>
      path == r.path && OverHard(r, baseline) && measured == Measured(r.path, r.counts) && Some(hard) == HardLimit(r.path)
    case _ => false
  }

  ghost predicate Reported(f: Failure, records: seq<SizeRecord>, baseline: Baseline, registered: bool,
                           forbidden: seq<string>, grow: nat -> nat)
  {
    || (exists i :: 0 <= i < |records| && Blames(f, records[i], baseline, registered, grow))
    || (f.StaleEntry? && registered && f.path in baseline && Stale(f.path, records))
    || (f.ForbiddenSplit? && f.path in forbidden)
  }

  /** The body of the first loop: what is wrong with one record. */
  method EvaluateRecord(r: SizeRecord, baseline: Baseline, registered: bool, grow: nat -> nat) returns (found: seq<Failure>)
    ensures forall f :: f in found <==> Blames(f, r, baseline, registered, grow)
  {
    found := [];
    var measured := Measured(r.path, r.counts);
    if registered && r.path !in baseline {
      found := found + [Missing(r.path)];
    }
    if OverCeiling(r, baseline, grow) {
      found := found + [OverRatchet(r.path, measured, grow(Measured(r.path, baseline[r.path])))];
    }
    var hard := HardLimit(r.path);
    if hard.Some? && measured > hard.value {
      var allowed := r.path in baseline && Measured(r.path, baseline[r.path]) > hard.value;
      if !allowed {
        found := found + [OverBudget(r.path, measured, hard.value)];
      }
    }
  }

  predicate Stale(path: string, records: seq<SizeRecord>) {
    forall i :: 0 <= i < |records| ==> records[i].path != path
  }

  /** The loop over the entries that no record bears out. */
  method StaleEntries(records: seq<SizeRecord>, baseline: Baseline) returns (found: seq<Failure>)
    ensures forall f :: f in found <==> f.StaleEntry? && f.path in baseline && Stale(f.path, records)
  {
    found := [];
    var unseen := baseline.Keys;
    while unseen != {}
      invariant unseen <= baseline.Keys
      invariant forall f :: f in found <==> f.StaleEntry? && f.path in baseline.Keys - unseen && Stale(f.path, records)
    {
      var path :| path in unseen;
      unseen := unseen - {path};
      if Stale(path, records) {
        found := found + [StaleEntry(path)];
      }
    }
  }

  /** The failures are exactly the reportable ones. `forbidden` is what the include scan of the tree finds. */
  method Evaluate(records: seq<SizeRecord>, baseline: Baseline, registered: bool, forbidden: seq<string>, grow: nat -> nat)
      returns (failures: seq<Failure>)
    ensures forall f :: f in failures <==> Reported(f, records, baseline, registered, forbidden, grow)
  {
    hide Blames;
    failures := [];
    for n := 0 to |records|
      invariant forall f :: f in failures <==> exists i :: 0 <= i < n && Blames(f, records[i], baseline, registered, grow)
    {
      var found := EvaluateRecord(records[n], baseline, registered, grow);
      failures := failures + found;
    }
    if registered {
      var stale := StaleEntries(records, baseline);
      failures := failures + stale;
    }
    for n := 0 to |forbidden|
      invariant forall f :: f in failures <==> Reported(f, records, baseline, registered, forbidden[..n], grow)
    {
      failures := failures + [ForbiddenSplit(forbidden[n])];
      assert forbidden[..n + 1] == forbidden[..n] + [forbidden[n]];
    }
    assert forbidden[..|forbidden|] == forbidden;
  }

  /** A tree lists every file once. */
  ghost predicate OneRecordPerPath(records: seq<SizeRecord>) {
    forall i, j :: 0 <= i < j < |records| ==> records[i].path != records[j].path
  }

  ghost predicate Passes(records: seq<SizeRecord>, baseline: Baseline, registered: bool, forbidden: seq<string>, grow: nat -> nat) {
    forall f :: !Reported(f, records, baseline, registered, forbidden, grow)
  }

  lemma PassingBlamesNobody(records: seq<SizeRecord>, baseline: Baseline, registered: bool, forbidden: seq<string>,
                            grow: nat -> nat, i: nat, f: Failure)
    requires i < |records| && Passes(records, baseline, registered, forbidden, grow)
    ensures !Blames(f, records[i], baseline, registered, grow)
  {
    assert !Reported(f, records, baseline, registered, forbidden, grow);
  }

  ghost predicate Listed(records: seq<SizeRecord>, path: string) {
    exists i :: 0 <= i < |records| && records[i].path == path
  }

  ghost predicate ListedAs(records: seq<SizeRecord>, path: string, counts: Counts) {
    exists i :: 0 <= i < |records| && records[i].path == path && records[i].counts == counts
  }

  lemma ListedSnoc(records: seq<SizeRecord>, r: SizeRecord)
    ensures forall p :: Listed(records + [r], p) <==> Listed(records, p) || r.path == p
    ensures forall p, c :: ListedAs(records + [r], p, c) <==> ListedAs(records, p, c) || (r.path == p && r.counts == c)
  {
    var all := records + [r];
    assert all[|records|] == r && forall i :: 0 <= i < |records| ==> all[i] == records[i];
  }

  /** The entries a registration appends: every record whose path is new, later ones overriding earlier ones. */
  function Registered(records: seq<SizeRecord>, baseline: Baseline): (next: Baseline)
    ensures forall p :: p in baseline ==> p in next && next[p] == baseline[p]
    ensures forall p :: p in next <==> p in baseline || Listed(records, p)
    ensures forall p :: p in next && p !in baseline ==> ListedAs(records, p, next[p])
  {
    hide Listed, ListedAs;
    if records == [] then NothingListed(); baseline
    else
      var n := |records| - 1;
      var before := Registered(records[..n], baseline);
      ListedSnoc(records[..n], records[n]);
      assert records == records[..n] + [records[n]];
      if records[n].path in baseline then before else before[records[n].path := records[n].counts]
  }

  lemma NothingListed()
    ensures forall p :: !Listed([], p)
  {
  }

  /**
   `supplementBaseline`: refuses when the tree fails against the old values; otherwise every old entry
   is unchanged and the same tree now has at most stale entries to report.
   */
  method SupplementBaseline(records: seq<SizeRecord>, baseline: Baseline, forbidden: seq<string>, grow: nat -> nat)
      returns (next: Option<Baseline>)
    requires OneRecordPerPath(records) && Ceiling(grow)
    ensures next.Some? <==> Passes(records, baseline, false, forbidden, grow)
    ensures next.Some? ==> next.value == Registered(records, baseline)
    ensures next.Some? ==> forall f :: Reported(f, records, next.value, true, forbidden, grow) ==> f.StaleEntry?
  {
    var failures := Evaluate(records, baseline, false, forbidden, grow);
    if failures != [] {
      assert failures[0] in failures;
      return None;
    }
    var files := Registered(records, baseline);
    next := Some(files);
    forall f | Reported(f, records, files, true, forbidden, grow) ensures f.StaleEntry? {
      RegistrationLeavesOnlyStale(records, baseline, forbidden, grow, f);
    }
  }

  lemma RegistrationLeavesOnlyStale(records: seq<SizeRecord>, baseline: Baseline, forbidden: seq<string>, grow: nat -> nat, f: Failure)
    requires OneRecordPerPath(records) && Ceiling(grow) && Passes(records, baseline, false, forbidden, grow)
    requires Reported(f, records, Registered(records, baseline), true, forbidden, grow)
    ensures f.StaleEntry?
  {
    var next := Registered(records, baseline);
    if i :| 0 <= i < |records| && Blames(f, records[i], next, true, grow) {
      var r := records[i];
      assert r.path in next;
      PassingBlamesNobody(records, baseline, false, forbidden, grow, i, f);
    } else {
      assert !Reported(f, records, baseline, false, forbidden, grow);
    }
  }

  // ---- Histories ----

  /** A tree at one moment of a project's life, and whether a registration is run on it. */
  datatype Tree = Tree(records: seq<SizeRecord>, forbidden: seq<string>, register: bool)

  /** The baseline after the first k trees: each registration that succeeds supplements it, nothing else changes it. */
  ghost function BaselineAt(history: seq<Tree>, k: nat, initial: Baseline, grow: nat -> nat): Baseline
    requires k <= |history|
  {
    if k == 0 then initial
    else
      var before, tree := BaselineAt(history, k - 1, initial, grow), history[k - 1];
      if tree.register && Passes(tree.records, before, false, tree.forbidden, grow) then Registered(tree.records, before)
      else before
  }

  /** No sequence of edits and registrations changes an entry that exists, so none raises its ceiling. */
  lemma {:induction false} EntriesNeverChange(history: seq<Tree>, j: nat, k: nat, initial: Baseline, grow: nat -> nat, path: string)
    requires j <= k <= |history| && path in BaselineAt(history, j, initial, grow)
    ensures path in BaselineAt(history, k, initial, grow)
    ensures BaselineAt(history, k, initial, grow)[path] == BaselineAt(history, j, initial, grow)[path]
    decreases k
  {
    if j < k {
      EntriesNeverChange(history, j, k - 1, initial, grow, path);
    }
  }

  /** An entry that a registration added is within the hard budget of its path. */
  lemma {:induction false} RegisteredWithinBudget(history: seq<Tree>, k: nat, initial: Baseline, grow: nat -> nat, path: string)
    requires k <= |history| && path !in initial && path in BaselineAt(history, k, initial, grow)
    ensures HardLimit(path).Some? ==> Measured(path, BaselineAt(history, k, initial, grow)[path]) <= HardLimit(path).value
  {
    if k > 0 {
      var before, tree := BaselineAt(history, k - 1, initial, grow), history[k - 1];
      if path in before {
        RegisteredWithinBudget(history, k - 1, initial, grow, path);
      } else if HardLimit(path).Some? {
        var i :| 0 <= i < |tree.records| && tree.records[i].path == path
                 && tree.records[i].counts == Registered(tree.records, before)[path];
        var r := tree.records[i];
        var f := OverBudget(path, Measured(path, r.counts), HardLimit(path).value);
        PassingBlamesNobody(tree.records, before, false, tree.forbidden, grow, i, f);
      }
    }
  }

  /** A file first registered this way is within its hard budget in every later tree that passes the check. */
  lemma RegisteredFilesStayWithinBudget(history: seq<Tree>, k: nat, initial: Baseline, grow: nat -> nat, tree: Tree, i: nat)
    requires k <= |history| && i < |tree.records| && tree.records[i].path !in initial
    requires Passes(tree.records, BaselineAt(history, k, initial, grow), true, tree.forbidden, grow)
    ensures HardLimit(tree.records[i].path).Some? ==>
              Measured(tree.records[i].path, tree.records[i].counts) <= HardLimit(tree.records[i].path).value
  {
    var baseline, r := BaselineAt(history, k, initial, grow), tree.records[i];
    PassingBlamesNobody(tree.records, baseline, true, tree.forbidden, grow, i, Missing(r.path));
    RegisteredWithinBudget(history, k, initial, grow, r.path);
    if HardLimit(r.path).Some? {
      var f := OverBudget(r.path, Measured(r.path, r.counts), HardLimit(r.path).value);
      PassingBlamesNobody(tree.records, baseline, true, tree.forbidden, grow, i, f);
    }
  }
}
