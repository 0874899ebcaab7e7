/**
 The verified-run gate: plan, run the steps, compare the inputs before and after, try at most twice.
 The inputs live in a world that keeps changing while the gate runs.
 */
module VerifyGate {
  import opened Options
  import opened AffectedPlan

  /** What the included inputs hold at one moment; fingerprints and scans are taken to tell contents apart. */
  type Content = nat

  type Step = string

  datatype Fingerprint = Unmeasured | Measured(value: Content)

  datatype Verdict = Ok | Retry | Stale | NotMeasured

  datatype Mode = Manual | Shadow | Selected | SelectedFallback

  datatype Outcome = Exit(code: int) | Thrown

  /**
   Everything the environment decides at one point of the run: the writes it makes to the inputs, how many
   change events it loses and how many it delivers, whether the watcher gets into trouble and whether that is
   reported, whether the inputs can be read, and how a step ends.
   */
  datatype Moment = Moment(
    writes: seq<Content>, lost: nat, delivered: nat, dropped: nat, broken: bool, reported: bool, readable: bool,
    status: int, stop: nat, thrown: bool)

  /** How a step that was run ended. */
  datatype Ending = Ending(step: Step, status: int, stop: nat, thrown: bool) {
    predicate Passed() {
      status == 0 && stop == 0 && !thrown
    }

    /** The code the gate leaves with; an interruption comes first, and a step that threw has no status of its own. */
    function Code(): int {
      if stop != 0 then stop else if !thrown && status > 0 then status else 1
    }
  }

  function Smaller(a: nat, b: nat): nat {
    if a < b then a else b
  }

  /** How many contents there have been, how many change events are on their way, and whether some are lost. */
  datatype Traffic = Traffic(writes: nat, pending: nat, trouble: bool)

  /** Time passes without a delivery: every write leaves an event on its way, or trouble. */
  predicate Leads(a: Traffic, b: Traffic) {
    && a.writes <= b.writes && (a.trouble ==> b.trouble)
    && b.pending <= a.pending + (b.writes - a.writes)
    && (b.trouble || b.pending == a.pending + (b.writes - a.writes))
  }

  /** The contents the inputs have had, the reads and steps that were made, and the environment's remaining decisions. */
  class World {
    var history: seq<Content>
    var ran: seq<Ending>
    var readings: seq<Option<Content>>
    var pending: nat
    var trouble: bool
    var script: seq<Moment>

    ghost predicate Valid()
      reads this
    {
      history != []
    }

    constructor (initial: Content, script: seq<Moment>)
      ensures Valid() && history == [initial] && pending == 0 && !trouble && ran == [] && readings == []
    {
      this.history, this.ran, this.readings := [initial], [], [];
      this.pending, this.trouble := 0, false;
      this.script := script;
    }

    ghost function Flow(): Traffic
      reads `history, `pending, `trouble
    {
      Traffic(|history|, pending, trouble)
    }

    function Now(): Content
      requires Valid()
      reads this
    {
      history[|history| - 1]
    }

    /**
     The environment acts: every write to an included input leaves one change event pending. Events may be
     lost, but not without trouble that is going to be reported.
     */
    method Advance() returns (m: Moment)
      requires Valid()
      modifies `history, `pending, `trouble, `script
      ensures Valid() && old(history) <= history && Leads(old(Flow()), Flow())
    {
      if script == [] {
        return Moment([], 0, 0, 0, false, false, true, 0, 0, false);
      }
      m := script[0];
      script := script[1..];
      history := history + m.writes;
      var lost := Smaller(m.lost, pending + |m.writes|);
      pending := pending + |m.writes| - lost;
      trouble := trouble || m.broken || lost > 0;
    }

    /** Reads the inputs as they are at that moment, if they can be read. */
    method Read() returns (content: Option<Content>)
      requires Valid()
      modifies `history, `pending, `trouble, `script, `readings
      ensures Valid() && old(history) <= history && Leads(old(Flow()), Flow())
      ensures readings == old(readings) + [content] && (content.Some? ==> content.value == Now())
    {
      var m := Advance();
      content := if m.readable then Some(Now()) else None;
      readings := readings + [content];
    }

    /** Runs a step; how it ends is the environment's to decide, and is noted. */
    method Execute(step: Step) returns (m: Moment)
      requires Valid()
      modifies `history, `pending, `trouble, `script, `ran
      ensures Valid() && old(history) <= history && Leads(old(Flow()), Flow())
      ensures ran == old(ran) + [Ending(step, m.status, m.stop, m.thrown)]
    {
      m := Advance();
      ran := ran + [Ending(step, m.status, m.stop, m.thrown)];
    }
  }

  /** What the watch reports of itself. */
  datatype WatchDetail = WatchDetail(
    available: bool, generationStart: nat, generationEnd: nat, overflow: bool, failed: bool, scanned: bool, scanMatched: bool)
  {
    /** The watch was there all the time, and neither its events nor its scans show a change. */
    predicate Calm() {
      available && !overflow && !failed && scanned && scanMatched && generationStart == generationEnd
    }

    predicate Broken() {
      !available || overflow || failed || !scanned
    }
  }

  /** `startInputWatch`: a generation counter fed by change events, and scans at both ends of the window. */
  class InputWatch {
    const maxEvents: nat
    const available: bool
    var generation: nat
    var generationStart: nat
    var generationEnd: nat
    var overflow: bool
    var failed: bool
    var scanned: bool
    var scanMatched: bool
    var baseline: Option<Content>

    constructor (available: bool)
      ensures this.available == available && maxEvents == 10_000 && generation == 0 && generationStart == 0
      ensures failed == !available && !overflow && !scanned && !scanMatched && baseline.None?
    {
      this.maxEvents := 10_000;
      this.available := available;
      generation, generationStart, generationEnd := 0, 0, 0;
      overflow, failed := false, !available;
      scanned, scanMatched := false, false;
      baseline := None;
    }

    /**
     The watcher's callback for n change events, and for its trouble. One that could not be started hears
     nothing; past its limit it may drop events without a word.
     */
    method Deliver(world: World, n: nat, dropped: nat, report: bool)
      requires n <= world.pending
      modifies `generation, `overflow, `failed, world`pending, world`trouble
      ensures world.pending == old(world.pending) - n && world.trouble == (old(world.trouble) && !report)
      ensures generation <= old(generation) + n
      ensures available && !old(overflow) ==> generation == old(generation) + n
      ensures !available ==> generation == old(generation)
      ensures overflow == (old(overflow) || (available && n > 0 && generation >= maxEvents))
      ensures failed == (old(failed) || (report && old(world.trouble)))
    {
      if available {
        generation := generation + (if overflow then n - Smaller(dropped, n) else n);
        if n > 0 && generation >= maxEvents {
          overflow := true;
        }
      }
      world.pending := world.pending - n;
      if report && world.trouble {
        failed, world.trouble := true, false;
      }
    }

    /** Opens the window: remembers the generation, then scans. */
    method Begin(world: World) returns (ok: bool)
      requires world.Valid()
      modifies `generationStart, `scanned, `scanMatched, `baseline, `failed
      modifies world`history, world`pending, world`trouble, world`script, world`readings
      ensures world.Valid() && old(world.history) <= world.history && Leads(old(world.Flow()), world.Flow())
      ensures generationStart == generation && !scanned && !scanMatched
      ensures world.readings == old(world.readings) + [baseline] && (baseline.Some? ==> baseline.value == world.Now())
      ensures ok == baseline.Some? && failed == (old(failed) || !ok)
    {
      scanned, scanMatched := false, false;
      generationStart := generation;
      baseline := world.Read();
      if baseline.None? {
        failed := true;
      }
      ok := baseline.Some?;
    }

    method FinalScan(world: World) returns (end: Option<Content>)
      requires world.Valid()
      modifies `generationEnd, `scanned, `scanMatched, `failed
      modifies world`history, world`pending, world`trouble, world`script, world`readings
      ensures world.Valid() && old(world.history) <= world.history && Leads(old(world.Flow()), world.Flow())
      ensures world.readings == old(world.readings) + [end] && (end.Some? ==> end.value == world.Now())
      ensures scanned <==> baseline.Some? && end.Some?
      ensures scanMatched <==> baseline.Some? && baseline == end
      ensures generationEnd == generation && failed == (old(failed) || end.None?)
    {
      end := world.Read();
      generationEnd := generation;
      scanMatched := baseline.Some? && end.Some? && baseline == end;
      scanned := baseline.Some? && end.Some?;
      if end.None? {
        failed := true;
      }
    }

    /** `detail()`: the end of the window still moves once the final scan is done. */
    function Detail(): WatchDetail
      reads this
    {
      WatchDetail(available, generationStart, if scanned then generation else generationEnd, overflow, failed, scanned, scanMatched)
    }
  }

  class Context {
    var mode: Mode
    var requireWatch: bool
    var watcherAttached: bool
    var frozenFallback: bool
    var refuseUnwatched: bool
    var scanFailed: bool

    constructor (mode: Mode, requireWatch: bool)
      ensures this.mode == mode && this.requireWatch == requireWatch
      ensures !watcherAttached && !frozenFallback && !refuseUnwatched && !scanFailed
    {
      this.mode := mode;
      this.requireWatch := requireWatch;
      watcherAttached, frozenFallback, refuseUnwatched, scanFailed := false, false, false, false;
    }

    /** A narrow run is refused when the inputs were not under observation before it was planned. */
    predicate RefusedNarrow()
      reads this
    {
      mode == Selected && (!watcherAttached || scanFailed || refuseUnwatched)
    }
  }

  /** What `explainAffected` reads from the inputs. */
  datatype Explained = Explained(paths: seq<string>, fallback: Option<string>)

  /** How the steps are chosen; the functions stand for reading the tree with that content. */
  datatype Planner =
    | Fixed(steps: seq<Step>)
    | ByChange(level: Level, explain: Content -> Explained, wide: Content -> seq<Step>, narrow: Content -> Option<seq<Step>>)

  /**
   One finished attempt. The positions count contents: no write happened between two equal positions.
   `ranFrom` counts the steps run before it, `opening` is what the scan read that opened the window.
   */
  datatype Attempt = Attempt(
    mode: Mode, attached: bool, steps: seq<Step>, ranFrom: nat, before: Fingerprint, after: Fingerprint,
    opening: Option<Content>, detail: Option<WatchDetail>,
    openedAt: nat, scannedAt: nat, beforeAt: nat, plannedAt: nat, closedAt: nat, afterAt: nat)

  function StaleDecision(before: Fingerprint, after: Fingerprint, attempt: int): Verdict {
    if before.Unmeasured? || after.Unmeasured? then NotMeasured
    else if before.value == after.value then Ok
    else if attempt < 2 then Retry
    else Stale
  }

  /** The position is the number of contents there had been when the fingerprint was taken. */
  method CaptureInputFingerprint(world: World) returns (mark: Fingerprint, at: nat)
    requires world.Valid()
    modifies world`history, world`pending, world`trouble, world`script, world`readings
    ensures world.Valid() && old(world.history) <= world.history && Leads(old(world.Flow()), world.Flow())
    ensures world.readings == old(world.readings) + [if mark.Measured? then Some(mark.value) else None]
    ensures at == |world.history| && (mark.Measured? ==> mark.value == world.history[at - 1])
  {
    var content := world.Read();
    mark := if content.Some? then Measured(content.value) else Unmeasured;
    at := |world.history|;
  }

  predicate NarrowChoice(planner: Planner, content: Content) {
    planner.ByChange? &&
    var e := planner.explain(content);
    DecideSelectedExecution(planner.level, false, e.paths, e.fallback).narrow
  }

  /** `selectedPlan`: narrow only when the change allows it and the watcher is attached; once wide, wide for good. */
  method SelectedPlan(world: World, context: Context, planner: Planner) returns (steps: Option<seq<Step>>)
    requires world.Valid() && planner.ByChange?
    modifies world`history, world`pending, world`trouble, world`script
    modifies context`mode, context`requireWatch, context`frozenFallback, context`refuseUnwatched
    ensures world.Valid() && old(world.history) <= world.history && Leads(old(world.Flow()), world.Flow())
    ensures context.mode == Selected || context.mode == SelectedFallback
    ensures context.mode == SelectedFallback <==> context.frozenFallback
    ensures context.frozenFallback <==> old(context.frozenFallback) || !NarrowChoice(planner, world.Now())
    ensures context.frozenFallback ==> steps == Some(planner.wide(world.Now()))
    ensures context.mode == Selected && !context.watcherAttached ==> context.refuseUnwatched
    ensures context.mode == Selected && !context.RefusedNarrow() ==> steps == planner.narrow(world.Now())
  {
    var m := world.Advance();
    if context.frozenFallback {
      context.mode := SelectedFallback;
      context.requireWatch := false;
      return Some(planner.wide(world.Now()));
    }
    var e := planner.explain(world.Now());
    var decision := DecideSelectedExecution(planner.level, false, e.paths, e.fallback);
    context.frozenFallback := decision.holdFallback;
    context.mode := if decision.narrow then Selected else SelectedFallback;
    context.requireWatch := decision.narrow;
    if decision.narrow && !context.watcherAttached {
      context.mode := Selected;
      context.refuseUnwatched := true;
      return Some([]);
    }
    steps := if decision.narrow then planner.narrow(world.Now()) else Some(planner.wide(world.Now()));
  }

  method Plan(world: World, context: Context, planner: Planner) returns (steps: Option<seq<Step>>)
    requires world.Valid()
    modifies world`history, world`pending, world`trouble, world`script
    modifies context`mode, context`requireWatch, context`frozenFallback, context`refuseUnwatched
    ensures world.Valid() && old(world.history) <= world.history && Leads(old(world.Flow()), world.Flow())
    ensures planner.Fixed? ==> context.mode == old(context.mode) && steps == Some(planner.steps)
    ensures planner.ByChange? ==> (context.mode == SelectedFallback <==> context.frozenFallback)
    ensures planner.ByChange? ==> context.mode == Selected || context.mode == SelectedFallback
    ensures planner.ByChange? && old(context.frozenFallback) ==> context.frozenFallback
    ensures !context.RefusedNarrow() && steps.Some? ==> PlannedFor(planner, context.mode, steps.value, world.Now())
  {
    if planner.Fixed? {
      return Some(planner.steps);
    }
    steps := SelectedPlan(world, context, planner);
  }

  /** These are the steps the planner chooses in this mode when the inputs hold this content. */
  predicate PlannedFor(planner: Planner, mode: Mode, steps: seq<Step>, content: Content) {
    match planner
    case Fixed(fixed) => steps == fixed
    case ByChange(_, _, wide, narrow) =>
      if mode == Selected then NarrowChoice(planner, content) && narrow(content) == Some(steps)
      else mode == SelectedFallback && steps == wide(content)
  }

  /** Every event that is not on its way has been counted, unless the watch is known to be deaf or will be. */
  ghost predicate Coupled(world: World, watch: InputWatch, attachedAt: int)
    reads world, watch
  {
    && watch.generation + world.pending <= |world.history| - attachedAt
    && (watch.available && !watch.failed && !watch.overflow && !world.trouble ==>
          watch.generation + world.pending == |world.history| - attachedAt)
  }

  /** From position `from` on exactly these steps were run, in order, and each of them passed. */
  ghost predicate AllPassed(ran: seq<Ending>, from: nat, steps: seq<Step>) {
    && from + |steps| <= |ran|
    && forall i :: from <= i < from + |steps| ==> ran[i].step == steps[i - from] && ran[i].Passed()
  }

  /** From position `from` on the first of these steps were run; all but the last passed, and it failed with this code. */
  ghost predicate StoppedAt(ran: seq<Ending>, from: nat, steps: seq<Step>, code: int) {
    && from < |ran| <= from + |steps| && AllPassed(ran, from, steps[..|ran| - 1 - from])
    && ran[|ran| - 1].step == steps[|ran| - 1 - from] && !ran[|ran| - 1].Passed() && code == ran[|ran| - 1].Code()
  }

  lemma NothingRunYet(ran: seq<Ending>, steps: seq<Step>)
    ensures AllPassed(ran, |ran|, steps[..0])
  {
  }

  lemma StopsHere(before: seq<Ending>, after: seq<Ending>, from: nat, steps: seq<Step>, k: nat)
    requires k < |steps| && |before| == from + k && AllPassed(before, from, steps[..k])
    requires |after| == |before| + 1 && before <= after && after[|before|].step == steps[k] && !after[|before|].Passed()
    ensures StoppedAt(after, from, steps, after[|before|].Code())
  {
    assert |after| - 1 - from == k;
    assert forall i :: from <= i < from + k ==> after[i] == before[i] && after[i].step == steps[..k][i - from];
  }

  lemma PassesHere(before: seq<Ending>, after: seq<Ending>, from: nat, steps: seq<Step>, k: nat)
    requires k < |steps| && |before| == from + k && AllPassed(before, from, steps[..k])
    requires |after| == |before| + 1 && before <= after && after[|before|].step == steps[k] && after[|before|].Passed()
    ensures AllPassed(after, from, steps[..k + 1])
  {
    assert forall i :: from <= i < from + k ==> after[i] == before[i] && after[i].step == steps[..k][i - from];
  }

  /** Runs the steps in order and stops at the first that does not pass, with its code, which is never zero. */
  method RunSteps(world: World, watch: InputWatch?, steps: seq<Step>, ghost attachedAt: int) returns (failed: Option<int>)
    requires world.Valid() && (watch != null ==> Coupled(world, watch, attachedAt))
    modifies world`history, world`pending, world`trouble, world`script, world`ran
    modifies watch
    ensures watch != null ==> watch.generationStart == old(watch.generationStart) && watch.baseline == old(watch.baseline)
    ensures watch != null ==> watch.scanned == old(watch.scanned) && watch.scanMatched == old(watch.scanMatched)
    ensures world.Valid() && old(world.history) <= world.history && old(world.ran) <= world.ran
    ensures watch != null ==> Coupled(world, watch, attachedAt)
    ensures failed.None? ==> AllPassed(world.ran, |old(world.ran)|, steps) && |world.ran| == |old(world.ran)| + |steps|
    ensures failed.Some? ==> StoppedAt(world.ran, |old(world.ran)|, steps, failed.value) && failed.value != 0
  {
    hide AllPassed, StoppedAt;
    failed := None;
    ghost var from := |world.ran|;
    NothingRunYet(world.ran, steps);
    for k := 0 to |steps|
      invariant world.Valid() && old(world.history) <= world.history && old(world.ran) <= world.ran
      invariant watch != null ==> Coupled(world, watch, attachedAt)
      invariant |world.ran| == from + k && AllPassed(world.ran, from, steps[..k])
      invariant watch != null ==> watch.generationStart == old(watch.generationStart) && watch.baseline == old(watch.baseline)
      invariant watch != null ==> watch.scanned == old(watch.scanned) && watch.scanMatched == old(watch.scanMatched)
    {
      ghost var before := world.ran;
      var m := world.Execute(steps[k]);
      if watch != null {
        watch.Deliver(world, Smaller(m.delivered, world.pending), m.dropped, m.reported);
      }
      var status := if m.thrown then 1 else m.status;
      if status != 0 || m.stop != 0 || m.thrown {
        failed := Some(if m.stop != 0 then m.stop else if status > 0 then status else 1);
        StopsHere(before, world.ran, from, steps, k);
        return;
      }
      PassesHere(before, world.ran, from, steps, k);
    }
    assert steps[..|steps|] == steps;
  }

  /** `setImmediate`: whatever was on its way when the gate yielded arrives before it goes on. */
  method Yield(world: World, watch: InputWatch, ghost attachedAt: int)
    requires world.Valid() && Coupled(world, watch, attachedAt)
    modifies world`history, world`pending, world`trouble, world`script
    modifies watch`generation, watch`overflow, watch`failed
    ensures world.Valid() && old(world.history) <= world.history && Coupled(world, watch, attachedAt)
    ensures watch.available && !watch.failed && !watch.overflow ==> watch.generation >= |old(world.history)| - attachedAt
    ensures old(watch.failed) ==> watch.failed
  {
    watch.Deliver(world, world.pending, 0, true);
    var m := world.Advance();
    watch.Deliver(world, Smaller(m.delivered, world.pending), m.dropped, m.reported);
  }

  /** What the log says of one attempt that ran all its steps. */
  ghost predicate Honest(a: Attempt, planner: Planner, history: seq<Content>, ran: seq<Ending>) {
    && AllPassed(ran, a.ranFrom, a.steps)
    && 0 < a.beforeAt <= a.plannedAt <= a.closedAt <= a.afterAt <= |history|
    && (a.before.Measured? ==> a.before.value == history[a.beforeAt - 1])
    && (a.after.Measured? ==> a.after.value == history[a.afterAt - 1])
    && PlannedFor(planner, a.mode, a.steps, history[a.plannedAt - 1])
    && (a.mode == Selected ==> Watched(a, history))
  }

  /** Narrow steps: a watch that could be started had opened its window, with a good scan, before they were planned. */
  ghost predicate Watched(a: Attempt, history: seq<Content>)
    requires a.beforeAt <= |history|
  {
    && a.attached && a.detail.Some? && a.detail.value.available
    && 0 < a.openedAt <= a.scannedAt <= a.beforeAt && a.opening == Some(history[a.scannedAt - 1])
  }

  /** No write to the inputs from the opening of the window to its final scan. */
  predicate Untouched(a: Attempt) {
    a.openedAt == a.scannedAt == a.beforeAt == a.plannedAt == a.closedAt
  }

  /** What was settled before an attempt starts: its steps, the fingerprint before them, and the open window. */
  datatype Start = Start(
    steps: seq<Step>, before: Fingerprint, openedAt: nat, scannedAt: nat, beforeAt: nat, plannedAt: nat)

  datatype Judgement = Failed(code: int) | Rejected | Changed | Passed

  /** The window was opened at `openedAt` and scanned at `scannedAt`, by a watch that could be started. */
  ghost predicate WindowOpen(world: World, watch: InputWatch, openedAt: nat, scannedAt: nat, attachedAt: int)
    reads world, watch
  {
    && watch.available && 0 < openedAt <= scannedAt <= |world.history|
    && watch.baseline == Some(world.history[scannedAt - 1]) && watch.generationStart <= openedAt - attachedAt
  }

  /** What the context may say about the watch: attached only to one whose window is open. */
  ghost predicate WatchFits(world: World, context: Context, watch: InputWatch?, openedAt: nat, scannedAt: nat, attachedAt: int)
    reads world, context, watch
  {
    && (watch != null ==> Coupled(world, watch, attachedAt))
    && (context.watcherAttached ==>
          watch != null && !context.scanFailed && WindowOpen(world, watch, openedAt, scannedAt, attachedAt))
  }

  /** The start is one the gate may run: planned from these contents, and a narrow one under an open watch. */
  ghost predicate Ready(world: World, context: Context, planner: Planner, start: Start, openedAt: nat, scannedAt: nat)
    reads world, context
  {
    && 0 < start.beforeAt <= start.plannedAt <= |world.history|
    && (start.before.Measured? ==> start.before.value == world.history[start.beforeAt - 1])
    && PlannedFor(planner, context.mode, start.steps, world.history[start.plannedAt - 1])
    && start.openedAt == openedAt && start.scannedAt == scannedAt
    && (context.mode == Selected ==> context.watcherAttached && scannedAt <= start.beforeAt)
  }

  /** Captures the fingerprint, plans, and refuses a narrow plan that nobody watched being made. */
  method Prepare(world: World, context: Context, watch: InputWatch?, planner: Planner, openedAt: nat, scannedAt: nat,
                 ghost attachedAt: int)
      returns (start: Option<Start>, outcome: Outcome)
    requires world.Valid() && WatchFits(world, context, watch, openedAt, scannedAt, attachedAt)
    modifies world`history, world`pending, world`trouble, world`script, world`readings
    modifies context`mode, context`requireWatch, context`frozenFallback, context`refuseUnwatched
    ensures world.Valid() && old(world.history) <= world.history
    ensures WatchFits(world, context, watch, openedAt, scannedAt, attachedAt)
    ensures start.Some? ==> Ready(world, context, planner, start.value, openedAt, scannedAt)
    ensures context.RefusedNarrow() || (context.mode == Selected && context.scanFailed) ==> start.None?
    ensures start.None? ==> outcome == Thrown || (outcome == Exit(2) && context.RefusedNarrow())
    ensures planner.Fixed? ==> context.mode == old(context.mode)
    ensures ModeFits(context, planner)
    ensures planner.ByChange? && old(context.frozenFallback) ==> context.frozenFallback
  {
    var before, beforeAt := CaptureInputFingerprint(world);
    var planned := Plan(world, context, planner);
    if planned.None? {
      return None, Thrown;
    }
    if context.RefusedNarrow() {
      return None, Exit(2);
    }
    start := Some(Start(planned.value, before, openedAt, scannedAt, beforeAt, |world.history|));
    outcome := Exit(2);
  }

  /** What a finished attempt that ran all its steps shows. */
  ghost predicate Deserves(a: Attempt, attempt: int, judgement: Judgement) {
    match judgement
    case Passed => a.before.Measured? && a.before == a.after && (a.mode == Selected ==> a.detail.Some? && a.detail.value.Calm())
    case Changed =>
      && attempt < 2 && a.before.Measured? && a.after.Measured?
      && (a.mode == Selected ==> a.detail.Some? && !a.detail.value.Broken())
      && (a.before != a.after || (a.mode == Selected && !a.detail.value.Calm()))
    case Rejected =>
      || a.before.Unmeasured? || a.after.Unmeasured?
      || (a.mode == Selected && (a.detail.None? || a.detail.value.Broken()))
      || (attempt >= 2 && (a.before != a.after || (a.mode == Selected && !a.detail.value.Calm())))
    case Failed(_) => false
  }

  /** One attempt: the steps, the closing scan and fingerprint, and what they show. */
  method RunAttempt(world: World, context: Context, watch: InputWatch?, planner: Planner, start: Start,
                    openedAt: nat, scannedAt: nat, attempt: int, ghost attachedAt: int)
      returns (judgement: Judgement, entry: Attempt)
    requires world.Valid() && Ready(world, context, planner, start, openedAt, scannedAt)
    requires WatchFits(world, context, watch, openedAt, scannedAt, attachedAt)
    modifies world`history, world`pending, world`trouble, world`script, world`ran, world`readings
    modifies watch
    ensures world.Valid() && old(world.history) <= world.history && old(world.ran) <= world.ran
    ensures WatchFits(world, context, watch, openedAt, scannedAt, attachedAt)
    ensures context.mode == Selected ==> watch != null
    ensures judgement.Failed? <==> !AllPassed(world.ran, |old(world.ran)|, start.steps)
    ensures judgement.Failed? ==> judgement.code != 0 && StoppedAt(world.ran, |old(world.ran)|, start.steps, judgement.code)
    ensures !judgement.Failed? ==> Honest(entry, planner, world.history, world.ran) && entry.mode == context.mode
    ensures !judgement.Failed? ==> entry.ranFrom == |old(world.ran)| && |world.ran| == entry.ranFrom + |entry.steps|
    ensures !judgement.Failed? ==> entry.steps == start.steps && entry.detail == DetailOf(watch)
    ensures !judgement.Failed? ==> Deserves(entry, attempt, judgement)
    ensures judgement.Passed? && entry.mode == Selected ==> Untouched(entry)
  {
    hide PlannedFor, AllPassed, StoppedAt;
    var narrow := context.mode == Selected;
    var ranFrom := |world.ran|;
    var failed := RunSteps(world, watch, start.steps, attachedAt);
    entry := Attempt(context.mode, context.watcherAttached, start.steps, ranFrom, start.before, Unmeasured, None, None,
                     start.openedAt, start.scannedAt, start.beforeAt, start.plannedAt, 0, 0);
    if failed.Some? {
      StoppedIsNotPassed(world.ran, ranFrom, start.steps, failed.value);
      return Failed(failed.value), entry;
    }
    var after, closedAt, afterAt := Close(world, watch, narrow, attachedAt);
    var decision := StaleDecision(start.before, after, attempt);
    var watchBroken := narrow && (watch == null || watch.Detail().Broken());
    var inputChanged := decision == Retry || decision == Stale
                        || (narrow && watch != null && (!watch.scanMatched || watch.generationStart != watch.Detail().generationEnd));
    entry := entry.(after := after, closedAt := closedAt, afterAt := afterAt,
                    opening := if watch == null then None else watch.baseline,
                    detail := if watch == null then None else Some(watch.Detail()));
    if watchBroken || (inputChanged && attempt >= 2) || decision == NotMeasured || decision == Stale {
      judgement := Rejected;
    } else {
      judgement := if inputChanged then Changed else Passed;
    }
  }

  lemma StoppedIsNotPassed(ran: seq<Ending>, from: nat, steps: seq<Step>, code: int)
    requires StoppedAt(ran, from, steps, code)
    ensures !AllPassed(ran, from, steps)
  {
    assert from <= |ran| - 1 < from + |steps| && !ran[|ran| - 1].Passed();
  }

  /** The end of an attempt: the final scan, the fingerprint, and the yield that lets queued events arrive. */
  method Close(world: World, watch: InputWatch?, narrow: bool, ghost attachedAt: int)
      returns (after: Fingerprint, closedAt: nat, afterAt: nat)
    requires world.Valid() && (watch != null ==> Coupled(world, watch, attachedAt))
    modifies world`history, world`pending, world`trouble, world`script, world`readings
    modifies watch
    ensures world.Valid() && old(world.history) <= world.history && (watch != null ==> Coupled(world, watch, attachedAt))
    ensures watch != null ==> watch.generationStart == old(watch.generationStart) && watch.baseline == old(watch.baseline)
    ensures |old(world.history)| <= closedAt <= afterAt <= |world.history|
    ensures after.Measured? ==> after.value == world.history[afterAt - 1]
    ensures narrow && watch != null && watch.available && !watch.failed && !watch.overflow ==>
              watch.generation >= closedAt - attachedAt
    ensures narrow && watch != null && watch.scanMatched ==> watch.baseline == Some(world.history[closedAt - 1])
  {
    if narrow && watch != null {
      var _ := watch.FinalScan(world);
    }
    closedAt := |world.history|;
    after, afterAt := CaptureInputFingerprint(world);
    if narrow && watch != null {
      Yield(world, watch, attachedAt);
    }
  }

  /** A run that once falls back to the wide plan never narrows again. */
  ghost predicate Latched(log: seq<Attempt>) {
    forall i, j :: 0 <= i < j < |log| && log[i].mode != Selected ==> log[j].mode == SelectedFallback
  }

  ghost predicate AllHonest(log: seq<Attempt>, planner: Planner, history: seq<Content>, ran: seq<Ending>) {
    forall i :: 0 <= i < |log| ==> Honest(log[i], planner, history, ran)
  }

  lemma HonestyLasts(log: seq<Attempt>, planner: Planner, history: seq<Content>, ran: seq<Ending>,
                     longer: seq<Content>, more: seq<Ending>)
    requires AllHonest(log, planner, history, ran) && history <= longer && ran <= more
    ensures AllHonest(log, planner, longer, more)
  {
    forall i | 0 <= i < |log| ensures Honest(log[i], planner, longer, more) {
      assert Honest(log[i], planner, history, ran);
    }
  }

  /** A log whose last attempt ran in this mode; a fallback anywhere freezes the context. */
  ghost predicate Sound(log: seq<Attempt>, planner: Planner, history: seq<Content>, ran: seq<Ending>, frozen: bool) {
    && AllHonest(log, planner, history, ran)
    && (planner.ByChange? ==> Latched(log) && forall i :: 0 <= i < |log| && log[i].mode != Selected ==> frozen)
  }

  lemma SoundLogGrows(log: seq<Attempt>, entry: Attempt, planner: Planner, history: seq<Content>, ran: seq<Ending>,
                      longer: seq<Content>, more: seq<Ending>, frozen: bool)
    requires Sound(log, planner, history, ran, frozen) && history <= longer && ran <= more
    requires Honest(entry, planner, longer, more)
    requires planner.ByChange? ==> (entry.mode != Selected <==> frozen) && (frozen ==> entry.mode == SelectedFallback)
    ensures Sound(log + [entry], planner, longer, more, frozen)
  {
    HonestyLasts(log, planner, history, ran, longer, more);
  }

  lemma SoundLogLasts(log: seq<Attempt>, planner: Planner, history: seq<Content>, ran: seq<Ending>,
                      longer: seq<Content>, more: seq<Ending>, frozen: bool, later: bool)
    requires Sound(log, planner, history, ran, frozen) && history <= longer && ran <= more
    requires planner.ByChange? && frozen ==> later
    ensures Sound(log, planner, longer, more, later)
  {
    HonestyLasts(log, planner, history, ran, longer, more);
  }

  /** The fields that a plan by change keeps in step. */
  ghost predicate ModeFits(context: Context, planner: Planner)
    reads context
  {
    planner.ByChange? ==>
      (context.mode != Selected <==> context.frozenFallback) && (context.frozenFallback ==> context.mode == SelectedFallback)
  }

  method OpenWatch(world: World, context: Context)
      returns (watch: InputWatch?, openedAt: nat, scannedAt: nat, ghost attachedAt: int)
    requires world.Valid() && !context.watcherAttached
    modifies world`history, world`pending, world`trouble, world`script, world`readings
    modifies context`watcherAttached, context`scanFailed
    ensures world.Valid() && old(world.history) <= world.history && (watch == null || fresh(watch))
    ensures watch == null <==> !context.requireWatch
    ensures WatchFits(world, context, watch, openedAt, scannedAt, attachedAt)
    ensures watch != null ==> context.watcherAttached == (watch.available && watch.baseline.Some?)
    ensures watch != null ==> context.scanFailed == watch.baseline.None?
  {
    var m := world.Advance();
    watch, openedAt, scannedAt, attachedAt := null, 0, 0, 0;
    if context.requireWatch {
      m := world.Advance();
      watch := new InputWatch(m.readable);
      // A watcher reports only what happens after it is attached.
      world.pending, world.trouble := 0, false;
      attachedAt, openedAt := |world.history|, |world.history|;
      var ok := watch.Begin(world);
      scannedAt := |world.history|;
      context.watcherAttached := watch.available && ok;
      context.scanFailed := !ok;
    }
  }

  /** A narrow attempt whose inputs changed opens a new window before the next plan. */
  method Reopen(world: World, context: Context, watch: InputWatch?, openedAt: nat, scannedAt: nat, ghost attachedAt: int)
      returns (reopenedAt: nat, rescannedAt: nat)
    requires world.Valid() && WatchFits(world, context, watch, openedAt, scannedAt, attachedAt)
    requires context.mode == Selected ==> watch != null
    modifies world`history, world`pending, world`trouble, world`script, world`readings
    modifies context`watcherAttached, context`scanFailed
    modifies watch
    ensures world.Valid() && old(world.history) <= world.history
    ensures WatchFits(world, context, watch, reopenedAt, rescannedAt, attachedAt)
    ensures context.mode == Selected ==>
              && context.watcherAttached == (watch.available && !watch.failed && !watch.overflow && watch.baseline.Some?)
              && context.scanFailed == watch.baseline.None? && reopenedAt == |old(world.history)|
  {
    reopenedAt, rescannedAt := openedAt, scannedAt;
    if context.mode == Selected {
      reopenedAt := |world.history|;
      var ok := watch.Begin(world);
      rescannedAt := |world.history|;
      context.scanFailed := !ok;
      context.watcherAttached := watch.available && !watch.failed && !watch.overflow && ok;
    }
  }

  /** The inputs changed during the first attempt: a new window if it was narrow, then a new plan. */
  method PrepareAgain(world: World, context: Context, watch: InputWatch?, planner: Planner, openedAt: nat, scannedAt: nat,
                      ghost attachedAt: int)
      returns (reopenedAt: nat, rescannedAt: nat, start: Option<Start>, outcome: Outcome)
    requires world.Valid() && WatchFits(world, context, watch, openedAt, scannedAt, attachedAt)
    requires context.mode == Selected ==> watch != null
    modifies world`history, world`pending, world`trouble, world`script, world`readings
    modifies context, watch
    ensures world.Valid() && old(world.history) <= world.history
    ensures WatchFits(world, context, watch, reopenedAt, rescannedAt, attachedAt)
    ensures start.Some? ==> Ready(world, context, planner, start.value, reopenedAt, rescannedAt)
    ensures start.None? ==> outcome != Exit(0)
    ensures ModeFits(context, planner) && (planner.ByChange? && old(context.frozenFallback) ==> context.frozenFallback)
  {
    hide *;
    reopenedAt, rescannedAt := Reopen(world, context, watch, openedAt, scannedAt, attachedAt);
    start, outcome := Prepare(world, context, watch, planner, reopenedAt, rescannedAt, attachedAt);
  }

  /**
   Zero means: the last attempt ran every step it planned, each of them passed, and the inputs were measured
   and equal before and after. In the narrow mode a watch was there from before the planning to the end
   without loss or error, its scans agree, and nothing wrote to the inputs at any point of the window; so the
   narrow steps were chosen for exactly the inputs they checked.
   */
  method RunVerification(world: World, context: Context, planner: Planner) returns (outcome: Outcome, log: seq<Attempt>)
    requires world.Valid()
    requires !context.watcherAttached && !context.frozenFallback && !context.refuseUnwatched && !context.scanFailed
    modifies world, context
    ensures old(world.history) <= world.history && old(world.ran) <= world.ran && |log| <= 2
    ensures AllHonest(log, planner, world.history, world.ran)
    ensures planner.ByChange? ==> Latched(log)
    ensures outcome == Exit(0) ==> log != [] && log[|log| - 1].before.Measured? && log[|log| - 1].before == log[|log| - 1].after
    ensures outcome == Exit(0) ==> log[|log| - 1].ranFrom + |log[|log| - 1].steps| == |world.ran|
    ensures outcome == Exit(0) && log[|log| - 1].mode == Selected ==>
              Untouched(log[|log| - 1]) && log[|log| - 1].detail.Some? && log[|log| - 1].detail.value.Calm()
  {
    log := [];
    hide *;
    var watch, openedAt, scannedAt, attachedAt := OpenWatch(world, context);
    var start;
    start, outcome := Prepare(world, context, watch, planner, openedAt, scannedAt, attachedAt);
    var attempt := 1;
    assert Sound(log, planner, world.history, world.ran, context.frozenFallback) by {
      EmptyLogIsSound(planner, world.history, world.ran, context.frozenFallback);
    }
    while attempt <= 2 && start.Some?
      invariant 1 <= attempt <= 3 && |log| == attempt - 1
      invariant world.Valid() && old(world.history) <= world.history && old(world.ran) <= world.ran
      invariant watch == null || fresh(watch)
      invariant WatchFits(world, context, watch, openedAt, scannedAt, attachedAt)
      invariant start.Some? ==> Ready(world, context, planner, start.value, openedAt, scannedAt)
      invariant start.None? ==> outcome != Exit(0)
      invariant ModeFits(context, planner)
      invariant Sound(log, planner, world.history, world.ran, context.frozenFallback)
    {
      ghost var history, ran := world.history, world.ran;
      var judgement, entry := RunAttempt(world, context, watch, planner, start.value, openedAt, scannedAt, attempt, attachedAt);
      if judgement.Failed? {
        SoundLogLasts(log, planner, history, ran, world.history, world.ran, context.frozenFallback, context.frozenFallback);
        SoundLogSays(log, planner, world.history, world.ran, context.frozenFallback);
        return Exit(judgement.code), log;
      }
      ModeFitsSays(context, planner);
      SoundLogGrows(log, entry, planner, history, ran, world.history, world.ran, context.frozenFallback);
      log := log + [entry];
      SoundLogSays(log, planner, world.history, world.ran, context.frozenFallback);
      DeservesSays(entry, attempt, judgement);
      if judgement.Rejected? {
        return Exit(2), log;
      }
      if judgement.Passed? {
        return Exit(0), log;
      }
      history, ran := world.history, world.ran;
      ghost var frozen := context.frozenFallback;
      openedAt, scannedAt, start, outcome := PrepareAgain(world, context, watch, planner, openedAt, scannedAt, attachedAt);
      SoundLogLasts(log, planner, history, ran, world.history, world.ran, frozen, context.frozenFallback);
      attempt := attempt + 1;
    }
    SoundLogSays(log, planner, world.history, world.ran, context.frozenFallback);
    if start.Some? {
      outcome := Exit(2);
    }
  }

  lemma EmptyLogIsSound(planner: Planner, history: seq<Content>, ran: seq<Ending>, frozen: bool)
    ensures Sound([], planner, history, ran, frozen)
  {
  }

  lemma SoundLogSays(log: seq<Attempt>, planner: Planner, history: seq<Content>, ran: seq<Ending>, frozen: bool)
    requires Sound(log, planner, history, ran, frozen)
    ensures AllHonest(log, planner, history, ran) && (planner.ByChange? ==> Latched(log))
  {
  }

  lemma DeservesSays(a: Attempt, attempt: int, judgement: Judgement)
    requires Deserves(a, attempt, judgement)
    ensures judgement.Changed? ==> attempt < 2
    ensures judgement.Passed? ==> a.before.Measured? && a.before == a.after
    ensures judgement.Passed? && a.mode == Selected ==> a.detail.Some? && a.detail.value.Calm()
  {
  }

  lemma ModeFitsSays(context: Context, planner: Planner)
    requires ModeFits(context, planner)
    ensures planner.ByChange? ==>
              (context.mode != Selected <==> context.frozenFallback) && (context.frozenFallback ==> context.mode == SelectedFallback)
  {
  }

  ghost function DetailOf(watch: InputWatch?): Option<WatchDetail>
    reads watch
  {
    if watch == null then None else Some(watch.Detail())
  }
}
