/**
 The project-wide build lock: any number of verification processes, each able to be killed between
 any two of its steps, sharing a database lock and an owner file. A group is a process group that a
 process spawned for one build step.
 */
module BuildLock {
  import opened Options

  type Pid = nat
  type Group = nat

  /** Where a process stands in acquiring the lock, running build steps and releasing. */
  datatype Proc =
    | Waiting                            // in the retry loop
    | Opened                             // holds the database lock, has not looked at the owner file
    | Clear                              // found the recorded group dead, has not saved its own record
    | Owning(group: Option<Group>)       // saved; `group` is the group in its own copy of the record
    | Spawned(child: Group)              // started a build group, not yet recorded
    | Unrecorded(child: Group)           // recording failed; killing the group and waiting for it
    | Tracking(child: Group)             // the owner file names the group
    | Draining(child: Group)             // sent SIGKILL, waits for the group to vanish
    | Inherited                          // runs inside an outer build group
    | Finished
    | Dead

  /** The owner file: the token is the process that wrote it until release blanks it. */
  datatype Owner = Owner(token: Option<Pid>, group: Option<Group>)

  datatype Machine = Machine(
    procs: seq<Proc>, database: Option<Pid>, file: Option<Owner>,
    live: set<Group>, used: set<Group>, tracked: set<Group>)

  datatype Step =
    | Begin(p: Pid)
    | Check(p: Pid)
    | Save(p: Pid, ok: bool)
    | Spawn(p: Pid, g: Group)
    | Track(p: Pid, ok: bool)
    | Kill(p: Pid)
    | Untrack(p: Pid, ok: bool)
    | InspectionFails(p: Pid)
    | Release(p: Pid, saved: bool)
    | Inherit(p: Pid, token: Pid)
    | GroupDies(g: Group)
    | Die(p: Pid)

  function Recorded(m: Machine): Option<Group> {
    if m.file.Some? then m.file.value.group else None
  }

  predicate RecordedLive(m: Machine) {
    Recorded(m).Some? && Recorded(m).value in m.live
  }

  predicate Alive(p: Proc) {
    p != Dead
  }

  /** The build group a process is looking after, recorded or not. */
  function Child(p: Proc): Option<Group> {
    match p
    case Spawned(g) => Some(g)
    case Unrecorded(g) => Some(g)
    case Tracking(g) => Some(g)
    case Draining(g) => Some(g)
    case _ => None
  }

  predicate Actor(m: Machine, step: Step) {
    step.GroupDies? || step.p < |m.procs|
  }

  predicate Enabled(m: Machine, step: Step) {
    && Actor(m, step)
    && match step
       case Begin(p) => m.procs[p] == Waiting && m.database.None?
       case Check(p) => m.procs[p] == Opened
       case Save(p, _) => m.procs[p] == Clear
       // A failed step ends the whole run, so a group left over from one is never spawned beside.
       case Spawn(p, g) => m.procs[p] == Owning(None) && g !in m.used
       case Track(p, _) => m.procs[p].Spawned?
       case Kill(p) => m.procs[p].Tracking?
       case Untrack(p, _) => (m.procs[p].Draining? || m.procs[p].Unrecorded?) && m.procs[p].child !in m.live
       case InspectionFails(p) => m.procs[p].Opened? || m.procs[p].Draining? || m.procs[p].Unrecorded?
       case Release(p, _) => m.procs[p].Owning?
       case Inherit(p, token) =>
         && m.procs[p] == Waiting && m.file.Some? && m.file.value.token == Some(token) && token < |m.procs|
         && (Alive(m.procs[token]) || RecordedLive(m))
       case GroupDies(g) => g in m.live
       case Die(p) => Alive(m.procs[p])
  }

  function Moved(m: Machine, p: Pid, to: Proc): Machine
    requires p < |m.procs|
  {
    m.(procs := m.procs[p := to])
  }

  /** The owner record as process p rewrites it. */
  function Written(m: Machine, token: Option<Pid>, group: Option<Group>): Machine {
    m.(file := Some(Owner(token, group)))
  }

  function Next(m: Machine, step: Step): Machine
    requires Enabled(m, step)
  {
    match step
    case Begin(p) => Moved(m, p, Opened).(database := Some(p))
    case Check(p) =>
      if RecordedLive(m) then Moved(m, p, Waiting).(database := None) else Moved(m, p, Clear)
    case Save(p, ok) =>
      if ok then Written(Moved(m, p, Owning(None)), Some(p), None)
      else Moved(m, p, Finished).(database := None)
    case Spawn(p, g) => Moved(m, p, Spawned(g)).(live := m.live + {g}, used := m.used + {g})
    case Track(p, ok) =>
      var g := m.procs[p].child;
      if ok then Written(Moved(m, p, Tracking(g)), Some(p), Some(g)).(tracked := m.tracked + {g})
      else Moved(m, p, Unrecorded(g))
    case Kill(p) => Moved(m, p, Draining(m.procs[p].child))
    case Untrack(p, ok) =>
      // The process's own copy forgets the group even when the file still names it.
      if ok then Written(Moved(m, p, Owning(None)), Some(p), None) else Moved(m, p, Owning(None))
    case InspectionFails(p) =>
      // Before acquisition the exception abandons the lock; afterwards it leaves the group in the record.
      if m.procs[p].Opened? then Moved(m, p, Finished).(database := None)
      else Moved(m, p, Owning(Some(m.procs[p].child)))
    case Release(p, saved) =>
      var freed := Moved(m, p, Finished).(database := None);
      if saved then Written(freed, None, m.procs[p].group) else freed
    case Inherit(p, _) => Moved(m, p, Inherited)
    case GroupDies(g) => m.(live := m.live - {g})
    case Die(p) => Moved(m, p, Dead).(database := if m.database == Some(p) then None else m.database)
  }

  predicate Initial(m: Machine) {
    && (forall p :: 0 <= p < |m.procs| ==> m.procs[p] == Waiting)
    && m.database.None? && m.file.None? && m.live == {} && m.used == {} && m.tracked == {}
  }

  /** Steps and the machine between them; states[k] is the machine before step k. */
  datatype Run = Run(steps: seq<Step>, states: seq<Machine>)

  ghost predicate Valid(run: Run) {
    && |run.states| == |run.steps| + 1 && Initial(run.states[0])
    && forall k {:trigger run.steps[k]} :: 0 <= k < |run.steps| ==>
         Enabled(run.states[k], run.steps[k]) && run.states[k + 1] == Next(run.states[k], run.steps[k])
  }

  // ---- The invariant ----

  predicate HoldsDatabase(p: Proc) {
    p.Opened? || p.Clear? || p.Owning? || Child(p).Some?
  }

  /** Groups that finished `track` and are still running. */
  function Builds(m: Machine): set<Group> {
    m.live * m.tracked
  }

  function AtMost(g: Option<Group>): set<Group> {
    if g.Some? then {g.value} else {}
  }

  /** What the database holder knows about the builds that may be running. */
  predicate Knows(m: Machine, p: Proc) {
    match p
    case Clear => Builds(m) == {} && !RecordedLive(m)
    case Owning(group) => Builds(m) <= AtMost(group) && (Recorded(m) == group || !RecordedLive(m))
    case Spawned(g) => Builds(m) == {} && g !in m.tracked && !RecordedLive(m)
    case Unrecorded(g) => Builds(m) == {} && g !in m.tracked && !RecordedLive(m)
    case Tracking(g) => Builds(m) <= {g} && Recorded(m) == Some(g)
    case Draining(g) => Builds(m) <= {g} && Recorded(m) == Some(g)
    case _ => true
  }

  /** The database lock has one holder, and exactly the processes past `Begin` hold it. */
  ghost predicate OneHolder(m: Machine) {
    && (m.database.Some? ==> m.database.value < |m.procs|)
    && (forall p :: 0 <= p < |m.procs| ==> (HoldsDatabase(m.procs[p]) <==> m.database == Some(p)))
    && (m.file.Some? && m.file.value.token.Some? ==> m.file.value.token.value < |m.procs|)
  }

  /** The groups a process remembers. */
  function Remembers(p: Proc): set<Group> {
    if p.Owning? then AtMost(p.group) else AtMost(Child(p))
  }

  /** Group ids are never reused. */
  ghost predicate OnlyUsed(m: Machine) {
    && m.live <= m.used && m.tracked <= m.used && AtMost(Recorded(m)) <= m.used
    && (forall p :: 0 <= p < |m.procs| ==> Remembers(m.procs[p]) <= m.used)
  }

  /** A running tracked build is always the one named in the owner file. */
  ghost predicate Named(m: Machine) {
    && Builds(m) <= AtMost(Recorded(m))
    && (forall p :: 0 <= p < |m.procs| ==> Knows(m, m.procs[p]))
  }

  ghost predicate Inv(m: Machine) {
    OneHolder(m) && OnlyUsed(m) && Named(m)
  }

  lemma StepKeepsHolder(m: Machine, step: Step)
    requires OneHolder(m) && Enabled(m, step)
    ensures OneHolder(Next(m, step))
  {
    if !step.GroupDies? {
      MoverHolds(m, step);
      hide Next, Enabled;
    }
  }

  /** A step changes one process only, which takes the database when it is free and gives it back only itself. */
  lemma MoverHolds(m: Machine, step: Step)
    requires OneHolder(m) && Enabled(m, step) && !step.GroupDies?
    ensures var n := Next(m, step);
      && n.procs == m.procs[step.p := n.procs[step.p]]
      && (HoldsDatabase(n.procs[step.p]) <==> n.database == Some(step.p))
      && (n.database == m.database || (n.database.None? && m.database == Some(step.p)) || (m.database.None? && n.database == Some(step.p)))
      && (n.file.Some? && n.file.value.token.Some? ==> n.file.value.token == Some(step.p) || n.file == m.file)
  {
  }

  lemma StepKeepsUsed(m: Machine, step: Step)
    requires OnlyUsed(m) && Enabled(m, step)
    ensures OnlyUsed(Next(m, step))
  {
    if !step.GroupDies? {
      MoverRemembers(m, step);
      hide Next, Enabled;
    }
  }

  /** What a step adds to what its process remembers, or to the file, is in use. */
  lemma MoverRemembers(m: Machine, step: Step)
    requires OnlyUsed(m) && Enabled(m, step) && !step.GroupDies?
    ensures var n := Next(m, step);
      && n.procs == m.procs[step.p := n.procs[step.p]] && Remembers(n.procs[step.p]) <= n.used
      && m.used <= n.used && n.live <= n.used && n.tracked <= n.used && AtMost(Recorded(n)) <= n.used
  {
    assert Remembers(m.procs[step.p]) <= m.used;
  }

  predicate Works(m: Machine, step: Step) {
    !step.GroupDies? && step.p < |m.procs| && HoldsDatabase(m.procs[step.p])
  }

  /** Beside a process that holds the database nobody is past its check of the owner file. */
  lemma WorksAlone(m: Machine, step: Step)
    requires OneHolder(m) && Works(m, step)
    ensures forall p :: 0 <= p < |m.procs| && p != step.p ==> !HoldsDatabase(m.procs[p])
  {
  }

  /** A process that does not hold the database knows nothing that a step could break. */
  lemma WorkKeepsNamed(m: Machine, step: Step)
    requires Inv(m) && Enabled(m, step) && Works(m, step)
    ensures Named(Next(m, step))
  {
    WorksAlone(m, step);
    assert Knows(m, m.procs[step.p]);
    hide OneHolder;
    match step
    case Spawn(p, g) => assert Builds(Next(m, step)) == Builds(m);
    case _ =>
  }

  lemma StepKeepsNamed(m: Machine, step: Step)
    requires Inv(m) && Enabled(m, step)
    ensures Named(Next(m, step))
  {
    if Works(m, step) {
      WorkKeepsNamed(m, step);
    }
  }

  lemma StepKeepsInv(m: Machine, step: Step)
    requires Inv(m) && Enabled(m, step)
    ensures Inv(Next(m, step))
  {
    StepKeepsHolder(m, step);
    StepKeepsUsed(m, step);
    StepKeepsNamed(m, step);
  }

  lemma {:induction false} RunKeepsInv(run: Run, k: nat)
    requires Valid(run) && k <= |run.steps|
    ensures Inv(run.states[k])
  {
    if k > 0 {
      hide Inv, Next, Enabled;
      RunKeepsInv(run, k - 1);
      StepKeepsInv(run.states[k - 1], run.steps[k - 1]);
    } else {
      assert Builds(run.states[0]) == {};
    }
  }

  // ---- Safety over whole runs ----

  /** At most one tracked build group is alive, and it is the one in the owner file. */
  lemma MutualExclusion(run: Run, k: nat, g: Group, h: Group)
    requires Valid(run) && k <= |run.steps| && g in Builds(run.states[k]) && h in Builds(run.states[k])
    ensures g == h && Recorded(run.states[k]) == Some(g)
  {
    RunKeepsInv(run, k);
  }

  /** A process that has just acquired the lock starts with no tracked build alive, whoever died before. */
  lemma AcquisitionWaitsForOldBuild(run: Run, k: nat)
    requires Valid(run) && k < |run.steps| && run.steps[k].Save? && run.steps[k].ok
    ensures Builds(run.states[k + 1]) == {} && run.states[k + 1].database == Some(run.steps[k].p)
  {
    RunKeepsInv(run, k);
    assert Knows(run.states[k], run.states[k].procs[run.steps[k].p]);
  }

  predicate Saved(p: Proc) {
    p.Owning? || Child(p).Some?
  }

  /** The token in the owner file is that of the process working under the lock. */
  ghost predicate TokenNamesOwner(m: Machine) {
    && (forall p :: 0 <= p < |m.procs| && Saved(m.procs[p]) ==> m.file.Some? && m.file.value.token == Some(p))
    && (m.file.Some? && m.file.value.token.Some? ==>
          var t := m.file.value.token.value;
          t < |m.procs| && (Saved(m.procs[t]) || m.procs[t] == Dead || m.procs[t] == Finished))
  }

  lemma WorkKeepsToken(m: Machine, step: Step)
    requires OneHolder(m) && TokenNamesOwner(m) && Enabled(m, step) && Works(m, step)
    ensures TokenNamesOwner(Next(m, step))
  {
    WorksAlone(m, step);
    hide OneHolder;
  }

  lemma StepKeepsToken(m: Machine, step: Step)
    requires OneHolder(m) && TokenNamesOwner(m) && Enabled(m, step)
    ensures TokenNamesOwner(Next(m, step))
  {
    if Works(m, step) {
      WorkKeepsToken(m, step);
    } else {
      hide OneHolder;
    }
  }

  lemma {:induction false} RunKeepsToken(run: Run, k: nat)
    requires Valid(run) && k <= |run.steps|
    ensures TokenNamesOwner(run.states[k])
  {
    if k > 0 {
      RunKeepsToken(run, k - 1);
      RunKeepsInv(run, k - 1);
      hide Next, Enabled, TokenNamesOwner;
      StepKeepsToken(run.states[k - 1], run.steps[k - 1]);
    }
  }

  /**
   An inherited lock is only granted inside the build that owns it: unless the owner has finished
   with a release that could not be saved, no other process is past its check of the owner file.
   */
  lemma InheritedGrantIsSafe(run: Run, k: nat, q: Pid)
    requires Valid(run) && k < |run.steps| && run.steps[k].Inherit?
    requires run.states[k].procs[run.steps[k].token] != Finished
    requires q < |run.states[k].procs| && q != run.steps[k].token
    ensures run.states[k].procs[q] != Clear && !Saved(run.states[k].procs[q])
  {
    RunKeepsInv(run, k);
    RunKeepsToken(run, k);
    var m := run.states[k];
    assert Knows(m, m.procs[q]);
  }

  // ---- Every live group, recorded or not ----

  /** The step ends a process's hold on the lock while it looks after a live group the owner file does not name. */
  predicate Loses(m: Machine, step: Step) {
    && Actor(m, step) && (step.Die? || (step.Release? && !step.saved))
    && !(Remembers(m.procs[step.p]) * m.live <= AtMost(Recorded(m)))
  }

  predicate Careful(m: Machine, p: Proc) {
    match p
    case Clear => m.live == {}
    case Owning(group) => m.live <= AtMost(group)
    case Spawned(g) => m.live <= {g}
    case Unrecorded(g) => m.live <= {g}
    case Tracking(g) => m.live <= {g}
    case Draining(g) => m.live <= {g}
    case _ => true
  }

  /** No live group has escaped from both the owner file and the lock holder. */
  ghost predicate NothingLost(m: Machine) {
    && (forall p :: 0 <= p < |m.procs| ==> Careful(m, m.procs[p]))
    && ((forall p :: 0 <= p < |m.procs| ==> !Saved(m.procs[p])) ==> m.live <= AtMost(Recorded(m)))
  }

  lemma StepLosesNothing(m: Machine, step: Step)
    requires Inv(m) && NothingLost(m) && Enabled(m, step) && !Loses(m, step)
    ensures NothingLost(Next(m, step))
  {
    if step.GroupDies? {
      hide OneHolder, OnlyUsed, Named;
    } else if Works(m, step) {
      WorkLosesNothing(m, step);
    } else {
      IdleLosesNothing(m, step);
    }
  }

  /** A process that does not hold the database changes nothing that counts. */
  lemma IdleLosesNothing(m: Machine, step: Step)
    requires OneHolder(m) && NothingLost(m) && Enabled(m, step) && !Works(m, step) && !step.GroupDies?
    ensures NothingLost(Next(m, step))
  {
    MoverHolds(m, step);
    var n := Next(m, step);
    assert n.live == m.live && n.file == m.file && !Saved(n.procs[step.p]);
    hide Next, Enabled, OneHolder;
    assert forall p :: 0 <= p < |m.procs| ==> (Saved(n.procs[p]) <==> Saved(m.procs[p]));
  }

  lemma MoverLosesNothing(m: Machine, step: Step)
    requires Named(m) && NothingLost(m) && Enabled(m, step) && !Loses(m, step) && Works(m, step)
    requires forall p :: 0 <= p < |m.procs| && p != step.p ==> !HoldsDatabase(m.procs[p])
    ensures var n := Next(m, step);
            Careful(n, n.procs[step.p]) && (!Saved(n.procs[step.p]) ==> n.live <= AtMost(Recorded(n)))
  {
    assert Careful(m, m.procs[step.p]) && Knows(m, m.procs[step.p]);
    if !Saved(m.procs[step.p]) {
      assert m.procs[step.p].Opened? || m.procs[step.p].Clear?;
    }
  }

  lemma WorkLosesNothing(m: Machine, step: Step)
    requires Inv(m) && NothingLost(m) && Enabled(m, step) && !Loses(m, step) && Works(m, step)
    ensures NothingLost(Next(m, step))
  {
    WorksAlone(m, step);
    MoverHolds(m, step);
    MoverLosesNothing(m, step);
    hide Next, Enabled, OneHolder, OnlyUsed, Named, Loses;
  }

  lemma {:induction false} RunLosesNothing(run: Run, k: nat)
    requires Valid(run) && k <= |run.steps|
    requires forall j {:trigger run.steps[j]} :: 0 <= j < k ==> !Loses(run.states[j], run.steps[j])
    ensures NothingLost(run.states[k])
  {
    if k > 0 {
      hide Inv, Next, Enabled, Loses, NothingLost;
      RunLosesNothing(run, k - 1);
      RunKeepsInv(run, k - 1);
      StepLosesNothing(run.states[k - 1], run.steps[k - 1]);
    }
  }

  /** At most one build group of any kind is alive, as long as no step loses one. */
  lemma OneBuildUnlessLost(run: Run, k: nat, g: Group, h: Group)
    requires Valid(run) && k <= |run.steps|
    requires forall j {:trigger run.steps[j]} :: 0 <= j < k ==> !Loses(run.states[j], run.steps[j])
    requires g in run.states[k].live && h in run.states[k].live
    ensures g == h
  {
    RunKeepsInv(run, k);
    RunLosesNothing(run, k);
    var m := run.states[k];
    if p :| 0 <= p < |m.procs| && Saved(m.procs[p]) {
      assert Careful(m, m.procs[p]);
    }
  }

  ghost predicate Path(m: Machine, steps: seq<Step>, n: Machine)
    decreases |steps|
  {
    if steps == [] then m == n
    else Enabled(m, steps[0]) && Path(Next(m, steps[0]), steps[1..], n)
  }

  lemma PathCons(m: Machine, step: Step, rest: seq<Step>, n: Machine)
    requires Enabled(m, step) && Path(Next(m, step), rest, n)
    ensures Path(m, [step] + rest, n)
  {
    assert ([step] + rest)[1..] == rest;
  }

  /** A waiting process that finds the lock free and no recorded group alive starts a build. */
  lemma FreeLockStartsABuild(m: Machine, q: Pid, h: Group) returns (steps: seq<Step>, n: Machine)
    requires q < |m.procs| && m.procs[q] == Waiting && m.database.None? && !RecordedLive(m) && h !in m.used
    ensures Path(m, steps, n) && |steps| == 5
    ensures n.live == m.live + {h} && h in n.tracked && n.database == Some(q)
  {
    var m2 := Next(m, Begin(q));
    var m3 := Next(m2, Check(q));
    var m4 := Next(m3, Save(q, true));
    var m5 := Next(m4, Spawn(q, h));
    n := Next(m5, Track(q, true));
    hide Path;
    assert Path(n, [], n) by { PathNil(n); }
    PathCons(m5, Track(q, true), [], n);
    PathCons(m4, Spawn(q, h), [Track(q, true)] + [], n);
    PathCons(m3, Save(q, true), [Spawn(q, h)] + ([Track(q, true)] + []), n);
    PathCons(m2, Check(q), [Save(q, true)] + ([Spawn(q, h)] + ([Track(q, true)] + [])), n);
    steps := [Begin(q)] + ([Check(q)] + ([Save(q, true)] + ([Spawn(q, h)] + ([Track(q, true)] + []))));
    PathCons(m, Begin(q), [Check(q)] + ([Save(q, true)] + ([Spawn(q, h)] + ([Track(q, true)] + []))), n);
  }

  lemma PathNil(m: Machine)
    ensures Path(m, [], m)
  {
  }

  /** And a lost group is a real hole: any waiting process can then start a second build beside it. */
  lemma LostGroupLetsASecondBuildIn(run: Run, k: nat, step: Step, q: Pid, h: Group)
      returns (steps: seq<Step>, n: Machine, g: Group)
    requires Valid(run) && k <= |run.steps|
    requires Enabled(run.states[k], step) && Loses(run.states[k], step)
    requires q < |run.states[k].procs| && run.states[k].procs[q] == Waiting && h !in run.states[k].used
    ensures Path(run.states[k], steps, n) && |steps| == 6 && steps[0] == step
    ensures g in n.live && h in Builds(n) && g != h
  {
    var m := run.states[k];
    RunKeepsInv(run, k);
    assert Knows(m, m.procs[step.p]);
    g :| g in Remembers(m.procs[step.p]) && g in m.live && g !in AtMost(Recorded(m));
    var m1 := Next(m, step);
    assert m1.procs[q] == Waiting && m1.database.None? && !RecordedLive(m1) && m1.live == m.live;
    assert h !in m1.used;
    var rest;
    rest, n := FreeLockStartsABuild(m1, q, h);
    steps := [step] + rest;
    PathCons(m, step, rest, n);
  }

  /** A process past its check of the owner file starts a build. */
  lemma ClearProcessStartsABuild(m: Machine, q: Pid, h: Group) returns (steps: seq<Step>, n: Machine)
    requires q < |m.procs| && m.procs[q] == Clear && h !in m.used
    ensures Path(m, steps, n) && |steps| == 3 && |n.procs| == |m.procs|
    ensures n.procs == m.procs[q := Tracking(h)] && h in Builds(n)
  {
    var m1 := Next(m, Save(q, true));
    var m2 := Next(m1, Spawn(q, h));
    n := Next(m2, Track(q, true));
    hide Path;
    PathNil(n);
    PathCons(m2, Track(q, true), [], n);
    PathCons(m1, Spawn(q, h), [Track(q, true)] + [], n);
    PathCons(m, Save(q, true), [Spawn(q, h)] + ([Track(q, true)] + []), n);
    steps := [Save(q, true)] + ([Spawn(q, h)] + ([Track(q, true)] + []));
  }

  /** Beside a waiting process that takes the free lock, another one may still inherit it from the token left behind. */
  lemma LeftTokenIsInherited(m: Machine, p: Pid, q: Pid, r: Pid) returns (steps: seq<Step>, n: Machine)
    requires p < |m.procs| && q < |m.procs| && r < |m.procs| && q != r
    requires m.procs[p] == Finished && m.procs[q] == Waiting && m.procs[r] == Waiting
    requires m.database.None? && !RecordedLive(m) && m.file.Some? && m.file.value.token == Some(p)
    ensures steps == [Begin(q), Check(q), Inherit(r, p)] && Path(m, steps, n)
    ensures n.procs == m.procs[q := Clear][r := Inherited] && n.used == m.used
  {
    var m1 := Next(m, Begin(q));
    var m2 := Next(m1, Check(q));
    n := Next(m2, Inherit(r, p));
    hide Path;
    PathNil(n);
    PathCons(m2, Inherit(r, p), [], n);
    PathCons(m1, Check(q), [Inherit(r, p)] + [], n);
    PathCons(m, Begin(q), [Check(q)] + ([Inherit(r, p)] + []), n);
    steps := [Begin(q)] + ([Check(q)] + ([Inherit(r, p)] + []));
  }

  /** The owner is done and gives the lock back, but cannot save that it has. */
  lemma UnsavedRelease(run: Run, k: nat, p: Pid) returns (n: Machine)
    requires Valid(run) && k <= |run.steps| && p < |run.states[k].procs| && run.states[k].procs[p] == Owning(None)
    ensures Enabled(run.states[k], Release(p, false)) && n == Next(run.states[k], Release(p, false))
    ensures n.procs == run.states[k].procs[p := Finished] && n.used == run.states[k].used
    ensures n.database.None? && !RecordedLive(n) && n.file.Some? && n.file.value.token == Some(p)
  {
    var m := run.states[k];
    RunKeepsInv(run, k);
    RunKeepsToken(run, k);
    assert Knows(m, m.procs[p]);
    n := Next(m, Release(p, false));
  }

  lemma {:induction false} PathJoins(m: Machine, first: seq<Step>, n: Machine, second: seq<Step>, o: Machine)
    requires Path(m, first, n) && Path(n, second, o)
    ensures Path(m, first + second, o)
    decreases |first|
  {
    if first == [] {
      assert first + second == second;
    } else {
      PathJoins(Next(m, first[0]), first[1..], n, second, o);
      assert first + second == [first[0]] + (first[1..] + second);
      PathCons(m, first[0], first[1..] + second, o);
    }
  }

  /**
   The exception is real: when the owner's release is not saved, a waiting process may still inherit the lock
   from it while another process passes its check and starts a build of its own.
   */
  lemma UnsavedReleaseLetsAnInheritorIn(run: Run, k: nat, p: Pid, q: Pid, r: Pid, h: Group)
      returns (steps: seq<Step>, n: Machine)
    requires Valid(run) && k <= |run.steps|
    requires p < |run.states[k].procs| && run.states[k].procs[p] == Owning(None)
    requires q < |run.states[k].procs| && r < |run.states[k].procs| && q != r
    requires run.states[k].procs[q] == Waiting && run.states[k].procs[r] == Waiting && h !in run.states[k].used
    ensures Path(run.states[k], steps, n) && [Release(p, false), Begin(q), Check(q), Inherit(r, p)] <= steps
    ensures |n.procs| == |run.states[k].procs| && n.procs[r] == Inherited && n.procs[q] == Tracking(h) && h in Builds(n)
  {
    var m := run.states[k];
    var released := UnsavedRelease(run, k, p);
    var second, third := LeftTokenIsInherited(released, p, q, r);
    var rest;
    rest, n := ClearProcessStartsABuild(third, q, h);
    hide Next, Enabled, Builds, Path;
    PathCons(m, Release(p, false), second, third);
    PathJoins(m, [Release(p, false)] + second, third, rest, n);
    steps := [Release(p, false)] + second + rest;
  }
}
