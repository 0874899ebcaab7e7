/**
 The cache of the compiled dictionary: callers load outside the lock, so a load may be overtaken by a
 publication, and the revision that tells may wrap around.
 */
module DictionaryCache {
  import opened Options

  const REVISIONS: nat := 0x1_0000_0000_0000_0000

  type Dictionary = seq<(string, string)>

  /** A compiled dictionary and where it came from: the nth publication, or the load of a caller. */
  datatype Snapshot = Published(n: nat, published: Dictionary) | Loaded(caller: nat, loaded: Dictionary)

  datatype CacheState = CacheState(revision: nat, snapshot: Option<Snapshot>)

  /** What the second critical section of a caller makes of its load. */
  function Settled(s: CacheState, loaded: Snapshot, seen: nat): (CacheState, Snapshot) {
    if s.snapshot.Some? then (s, s.snapshot.value)
    else (if s.revision == seen then s.(snapshot := Some(loaded)) else s, loaded)
  }

  function Publication(s: CacheState, snapshot: Snapshot): CacheState {
    CacheState((s.revision + 1) % REVISIONS, Some(snapshot))
  }

  /** The critical sections, on the fields behind the mutex. */
  class Cache {
    var revision: nat
    var snapshot: Option<Snapshot>

    ghost function View(): CacheState
      reads this
    {
      CacheState(revision, snapshot)
    }

    constructor ()
      ensures View() == CacheState(0, None)
    {
      revision, snapshot := 0, None;
    }

    method Peek() returns (found: Option<Snapshot>, seen: nat)
      ensures found == snapshot && seen == revision
    {
      found, seen := snapshot, revision;
    }

    method Settle(loaded: Snapshot, seen: nat) returns (r: Snapshot)
      modifies this
      ensures (View(), r) == Settled(old(View()), loaded, seen)
    {
      if snapshot.Some? {
        return snapshot.value;
      }
      if revision == seen {
        snapshot := Some(loaded);
      }
      r := loaded;
    }

    method PublishCompiled(compiled: Snapshot)
      modifies this
      ensures View() == Publication(old(View()), compiled)
    {
      revision := (revision + 1) % REVISIONS;
      snapshot := Some(compiled);
    }
  }

  datatype Caller =
    | Ready
    | Loading(seen: nat)                        // has found the cache empty, reads the database
    | Holding(seen: nat, dictionary: Dictionary) // has compiled what it read, not yet back at the lock
    | Returned(snapshot: Snapshot)
    | Failed

  datatype Machine = Machine(cache: CacheState, callers: seq<Caller>, publications: nat)

  datatype Step =
    | Publish(dictionary: Dictionary)
    | Begin(c: nat)
    | Load(c: nat, read: Option<Dictionary>)
    | Finish(c: nat)

  predicate Enabled(m: Machine, step: Step) {
    match step
    case Publish(_) => true
    case Begin(c) => c < |m.callers| && m.callers[c].Ready?
    case Load(c, _) => c < |m.callers| && m.callers[c].Loading?
    case Finish(c) => c < |m.callers| && m.callers[c].Holding?
  }

  function Next(m: Machine, step: Step): Machine
    requires Enabled(m, step)
  {
    match step
    case Publish(d) =>
      m.(cache := Publication(m.cache, Published(m.publications + 1, d)), publications := m.publications + 1)
    case Begin(c) =>
      var caller := if m.cache.snapshot.Some? then Returned(m.cache.snapshot.value) else Loading(m.cache.revision);
      m.(callers := m.callers[c := caller])
    case Load(c, read) =>
      m.(callers := m.callers[c := if read.Some? then Holding(m.callers[c].seen, read.value) else Failed])
    case Finish(c) =>
      var (cache, snapshot) := Settled(m.cache, Loaded(c, m.callers[c].dictionary), m.callers[c].seen);
      m.(cache := cache, callers := m.callers[c := Returned(snapshot)])
  }

  /** While the cache is empty nothing has been published, so no load is stale; once filled it holds the last publication, if any. */
  ghost predicate Coherent(m: Machine) {
    && (m.cache.snapshot.None? ==> m.publications == 0 && m.cache.revision == 0)
    && (m.cache.snapshot.Some? && m.publications > 0 ==> m.cache.snapshot.value.Published? && m.cache.snapshot.value.n == m.publications)
    && (m.publications == 0 && m.cache.snapshot.Some? ==> m.cache.snapshot.value.Loaded?)
    && (forall c :: 0 <= c < |m.callers| && m.callers[c].Loading? ==> m.publications == 0 ==> m.callers[c].seen == 0)
    && (forall c :: 0 <= c < |m.callers| && m.callers[c].Holding? ==> m.publications == 0 ==> m.callers[c].seen == 0)
  }

  lemma StepKeepsCoherent(m: Machine, step: Step)
    requires Coherent(m) && Enabled(m, step)
    ensures Coherent(Next(m, step))
    ensures m.publications <= Next(m, step).publications && |Next(m, step).callers| == |m.callers|
    ensures m.cache.snapshot.Some? ==> Next(m, step).cache.snapshot.Some?
    ensures m.cache.snapshot.Some? && !step.Publish? ==> Next(m, step).cache == m.cache
  {
  }

  datatype Run = Run(steps: seq<Step>, states: seq<Machine>)

  ghost predicate Valid(run: Run) {
    && |run.states| == |run.steps| + 1
    && run.states[0].cache == CacheState(0, None) && run.states[0].publications == 0
    && (forall c :: 0 <= c < |run.states[0].callers| ==> run.states[0].callers[c].Ready?)
    && (forall k {:trigger run.steps[k]} :: 0 <= k < |run.steps| ==>
          Enabled(run.states[k], run.steps[k]) && run.states[k + 1] == Next(run.states[k], run.steps[k]))
  }

  lemma {:induction false} RunIsCoherent(run: Run, k: nat)
    requires Valid(run) && k < |run.states|
    ensures Coherent(run.states[k])
  {
    if k > 0 {
      RunIsCoherent(run, k - 1);
      StepKeepsCoherent(run.states[k - 1], run.steps[k - 1]);
    }
  }

  /** Once filled, the cache stays filled, and between publications it keeps what it holds. */
  lemma {:induction false} NeverEmptyAgain(run: Run, i: nat, j: nat)
    requires Valid(run) && i <= j < |run.states| && run.states[i].cache.snapshot.Some?
    ensures run.states[j].cache.snapshot.Some? && run.states[i].publications <= run.states[j].publications
    ensures (forall k :: i <= k < j ==> !run.steps[k].Publish?) ==> run.states[j].cache == run.states[i].cache
    decreases j
  {
    if i < j {
      NeverEmptyAgain(run, i, j - 1);
      RunIsCoherent(run, j - 1);
      StepKeepsCoherent(run.states[j - 1], run.steps[j - 1]);
    }
  }

  /**
   After the nth publication the cache holds that dictionary or a later published one: no load, however old
   and whatever the revision has wrapped to, replaces it.
   */
  lemma PublishedStays(run: Run, i: nat, j: nat)
    requires Valid(run) && i < |run.steps| && run.steps[i].Publish? && i < j < |run.states|
    ensures run.states[j].cache.snapshot.Some? && run.states[j].cache.snapshot.value.Published?
    ensures run.states[i].publications < run.states[j].cache.snapshot.value.n == run.states[j].publications
  {
    hide Settled;
    NeverEmptyAgain(run, i + 1, j);
    RunIsCoherent(run, j);
  }

  lemma {:induction false} ReturnedBy(run: Run, c: nat, j: nat) returns (k: nat)
    requires Valid(run) && j < |run.states| && c < |run.states[j].callers| && run.states[j].callers[c].Returned?
    ensures k < j && (run.steps[k] == Begin(c) || run.steps[k] == Finish(c))
    ensures c < |run.states[k + 1].callers| && run.states[k + 1].callers[c] == run.states[j].callers[c]
    decreases j
  {
    hide Settled, Publication;
    if j > 0 {
      RunIsCoherent(run, j - 1);
      StepKeepsCoherent(run.states[j - 1], run.steps[j - 1]);
      if run.states[j - 1].callers[c].Returned? {
        k := ReturnedBy(run, c, j - 1);
      } else {
        k := j - 1;
      }
    }
  }

  /** A caller always returns what the cache holds at that moment: a load that does not get installed is never returned. */
  lemma ReturnsWhatIsHeld(m: Machine, step: Step)
    requires Coherent(m) && Enabled(m, step) && (step.Begin? || step.Finish?)
    ensures var t := Next(m, step);
            t.callers[step.c].Returned? ==> t.cache.snapshot == Some(t.callers[step.c].snapshot)
    ensures step.Finish? ==> Next(m, step).callers[step.c].Returned?
  {
  }

  /** A call begun after a publication returns that dictionary or a later published one. */
  lemma CallAfterPublication(run: Run, i: nat, b: nat, c: nat, j: nat)
    requires Valid(run) && i < b < j < |run.states|
    requires run.steps[i].Publish? && run.steps[b] == Begin(c)
    ensures c < |run.states[j].callers| && run.states[j].callers[c].Returned?
    ensures run.states[j].callers[c].snapshot.Published?
    ensures run.states[i].publications < run.states[j].callers[c].snapshot.n <= run.states[b].publications
  {
    hide Settled, Publication;
    PublishedStays(run, i, b);
    assert Enabled(run.states[b], run.steps[b]);
    ReturnedStays(run, c, b + 1, j);
  }

  lemma {:induction false} ReturnedStays(run: Run, c: nat, i: nat, j: nat)
    requires Valid(run) && i <= j < |run.states| && c < |run.states[i].callers| && run.states[i].callers[c].Returned?
    ensures c < |run.states[j].callers| && run.states[j].callers[c] == run.states[i].callers[c]
    decreases j
  {
    hide Settled, Publication;
    if i < j {
      ReturnedStays(run, c, i, j - 1);
      assert Enabled(run.states[j - 1], run.steps[j - 1]);
    }
  }

  /** Without a publication all callers that return are given one and the same dictionary, the one the cache holds. */
  lemma AllCallersAgree(run: Run, c: nat, j: nat)
    requires Valid(run) && j < |run.states| && c < |run.states[j].callers| && run.states[j].callers[c].Returned?
    requires forall k :: 0 <= k < j ==> !run.steps[k].Publish?
    ensures run.states[j].cache.snapshot == Some(run.states[j].callers[c].snapshot)
  {
    hide Settled, Publication;
    var k := ReturnedBy(run, c, j);
    RunIsCoherent(run, k);
    ReturnsWhatIsHeld(run.states[k], run.steps[k]);
    NeverEmptyAgain(run, k + 1, j);
  }
}
