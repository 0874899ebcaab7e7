/**
 Cancelling a run: a lock around accepting an action, a flag, and a notification. Any number of cancelling
 threads, acting threads and waiting tasks take their steps in any order.
 */
module RunCancellation {
  import opened Options

  datatype Thread =
    // cancel
    | CancelReady | CancelLocked | CancelFlipped | CancelWoken | CancelNotified | CancelDone
    // with_active
    | ActReady | ActLocked | ActPassed | Acting | ActDone | ActRejected | ActUnavailable
    // cancelled: `seen` counts the earlier wake-ups of all waiters when the future was made; `notified` is its own
    | WaitReady | WaitCreated(seen: nat) | WaitEnabled(seen: nat, notified: bool)
    | WaitAsleep(seen: nat, notified: bool) | WaitReturned | WaitDropped

  /** `wakeUps` counts the wake-ups of all waiters; `permit` is a single notification nobody was there to take. */
  datatype Shared = Shared(holder: Option<nat>, poisoned: bool, cancelled: bool, wakeUps: nat, permit: bool)

  datatype Machine = Machine(threads: seq<Thread>, shared: Shared)

  /**
   A step of thread t. `panics` makes an action end in a panic, `drops` drops a waiting future, and `chosen`
   is the waiter that a single notification goes to.
   */
  datatype Step = Step(t: nat, panics: bool, drops: bool, chosen: Option<nat>)

  predicate Waiting(t: Thread) {
    t.WaitEnabled? || t.WaitAsleep?
  }

  predicate CanWake(s: Shared, t: Thread)
    requires Waiting(t)
  {
    t.notified || s.wakeUps > t.seen
  }

  /** A waiter that nothing has woken yet. */
  predicate Unnotified(m: Machine, w: nat) {
    w < |m.threads| && Waiting(m.threads[w]) && !CanWake(m.shared, m.threads[w])
  }

  predicate TakesLock(t: Thread) {
    t.CancelReady? || t.ActReady?
  }

  predicate Over(t: Thread) {
    t.CancelDone? || t.ActDone? || t.ActRejected? || t.ActUnavailable? || t.WaitReturned? || t.WaitDropped?
  }

  predicate Enabled(m: Machine, step: Step) {
    && step.t < |m.threads| && !Over(m.threads[step.t])
    && (TakesLock(m.threads[step.t]) ==> m.shared.holder.None?)
    && (m.threads[step.t].WaitAsleep? && !step.drops ==> CanWake(m.shared, m.threads[step.t]))
    && (m.threads[step.t].CancelWoken? ==>
          if step.chosen.Some? then Unnotified(m, step.chosen.value) else forall w :: 0 <= w < |m.threads| ==> !Unnotified(m, w))
  }

  /** What a thread does to itself and to what is shared. Cancelling takes the lock even when it is poisoned. */
  function Act(s: Shared, thread: Thread, step: Step): (Shared, Thread) {
    match thread
    case CancelReady => (s.(holder := Some(step.t)), CancelLocked)
    case CancelLocked => (s.(cancelled := true), if s.cancelled then CancelNotified else CancelFlipped)
    case CancelFlipped => (s.(wakeUps := s.wakeUps + 1), CancelWoken)
    case CancelWoken => (if step.chosen.None? then s.(permit := true) else s, CancelNotified)
    case CancelNotified => (s.(holder := None), CancelDone)
    case ActReady => if s.poisoned then (s, ActUnavailable) else (s.(holder := Some(step.t)), ActLocked)
    case ActLocked => if s.cancelled then (s.(holder := None), ActRejected) else (s, ActPassed)
    case ActPassed => (s, Acting)
    case Acting => (s.(holder := None, poisoned := s.poisoned || step.panics), ActDone)
    case WaitReady => (s, WaitCreated(s.wakeUps))
    case WaitCreated(seen) => (s.(permit := false), WaitEnabled(seen, s.permit))
    case WaitEnabled(seen, notified) => (s, if s.cancelled then WaitReturned else WaitAsleep(seen, notified))
    case WaitAsleep(_, _) => (s, if step.drops then WaitDropped else WaitReturned)
    case _ => (s, thread)
  }

  /** What the step does to thread u: its own move, or a notification that finds it. */
  function Moved(m: Machine, step: Step, u: nat): Thread
    requires Enabled(m, step) && u < |m.threads|
  {
    if u == step.t then Act(m.shared, m.threads[u], step).1
    else if m.threads[step.t].CancelWoken? && step.chosen == Some(u) then m.threads[u].(notified := true)
    else m.threads[u]
  }

  function Next(m: Machine, step: Step): Machine
    requires Enabled(m, step)
  {
    Machine(seq(|m.threads|, u requires 0 <= u < |m.threads| => Moved(m, step, u)), Act(m.shared, m.threads[step.t], step).0)
  }

  predicate HoldsLock(t: Thread) {
    t.CancelLocked? || t.CancelFlipped? || t.CancelWoken? || t.CancelNotified? || t.ActLocked? || t.ActPassed? || t.Acting?
  }

  /**
   What holds of each thread: it holds the lock exactly between taking it and giving it back; an action let
   through runs before the flag is set and before any panic; a cancel has woken everybody before it goes on;
   nobody is woken or returns without a cancel; and a sleeper went to sleep before the flag was set.
   */
  ghost predicate Fine(s: Shared, t: nat, thread: Thread) {
    && (HoldsLock(thread) <==> s.holder == Some(t))
    && (thread.ActLocked? || thread.ActPassed? || thread.Acting? ==> !s.poisoned)
    && (thread.ActPassed? || thread.Acting? ==> !s.cancelled)
    && (thread.CancelFlipped? ==> s.cancelled && s.wakeUps == 0)
    && (thread.CancelWoken? || thread.CancelNotified? || thread.CancelDone? ==> s.cancelled && s.wakeUps == 1)
    && (thread.WaitReturned? ==> s.cancelled)
    && (Waiting(thread) && thread.notified ==> s.cancelled)
    && (thread.WaitCreated? || thread.WaitEnabled? ==> thread.seen <= s.wakeUps)
    && (thread.WaitAsleep? ==> thread.seen == 0)
  }

  /** Before the flag is set nothing wakes anybody; between the flag and the wake-up the one who set it holds the lock. */
  ghost predicate Sound(m: Machine) {
    && m.shared.wakeUps <= 1 && (!m.shared.cancelled ==> m.shared.wakeUps == 0 && !m.shared.permit)
    && (m.shared.cancelled && m.shared.wakeUps == 0 ==>
          m.shared.holder.Some? && m.shared.holder.value < |m.threads| && m.threads[m.shared.holder.value].CancelFlipped?)
  }

  ghost predicate Inv(m: Machine) {
    Sound(m) && forall t :: 0 <= t < |m.threads| ==> Fine(m.shared, t, m.threads[t])
  }

  predicate Fresh(t: Thread) {
    t.CancelReady? || t.ActReady? || t.WaitReady?
  }

  ghost predicate Initial(m: Machine) {
    m.shared == Shared(None, false, false, 0, false) && forall t :: 0 <= t < |m.threads| ==> Fresh(m.threads[t])
  }

  lemma MoverStaysFine(m: Machine, step: Step)
    requires Inv(m) && Enabled(m, step)
    ensures Fine(Next(m, step).shared, step.t, Next(m, step).threads[step.t])
  {
    hide Unnotified;
    assert Fine(m.shared, step.t, m.threads[step.t]);
  }

  lemma OtherStaysFine(m: Machine, step: Step, u: nat)
    requires Inv(m) && Enabled(m, step) && u < |m.threads| && u != step.t
    ensures Fine(Next(m, step).shared, u, Next(m, step).threads[u])
  {
    assert Fine(m.shared, step.t, m.threads[step.t]);
    assert Fine(m.shared, u, m.threads[u]);
  }

  lemma StepKeepsSound(m: Machine, step: Step)
    requires Inv(m) && Enabled(m, step)
    ensures Sound(Next(m, step))
  {
    assert Fine(m.shared, step.t, m.threads[step.t]);
  }

  lemma StepKeepsInv(m: Machine, step: Step)
    requires Inv(m) && Enabled(m, step)
    ensures Inv(Next(m, step))
  {
    StepKeepsSound(m, step);
    MoverStaysFine(m, step);
    forall u | 0 <= u < |m.threads| && u != step.t ensures Fine(Next(m, step).shared, u, Next(m, step).threads[u]) {
      OtherStaysFine(m, step, u);
    }
    hide Fine, Sound, Next;
  }

  datatype Run = Run(steps: seq<Step>, states: seq<Machine>)

  ghost predicate Valid(run: Run) {
    && |run.states| == |run.steps| + 1 && Initial(run.states[0])
    && (forall k {:trigger run.steps[k]} :: 0 <= k < |run.steps| ==>
          Enabled(run.states[k], run.steps[k]) && run.states[k + 1] == Next(run.states[k], run.steps[k]))
  }

  lemma {:induction false} RunKeepsInv(run: Run, k: nat)
    requires Valid(run) && k < |run.states|
    ensures Inv(run.states[k])
  {
    hide Next;
    if k > 0 {
      RunKeepsInv(run, k - 1);
      StepKeepsInv(run.states[k - 1], run.steps[k - 1]);
    } else {
      InitialInv(run.states[0]);
    }
  }

  lemma InitialInv(m: Machine)
    requires Initial(m)
    ensures Inv(m)
  {
  }

  lemma {:induction false} CancelledForGood(run: Run, i: nat, j: nat)
    requires Valid(run) && i <= j < |run.states| && run.states[i].shared.cancelled
    ensures run.states[j].shared.cancelled
    decreases j
  {
    if i < j {
      CancelledForGood(run, i, j - 1);
      assert Enabled(run.states[j - 1], run.steps[j - 1]);
    }
  }

  /** No action is under way when the flag is set, none begins from then on, and no two actions overlap. */
  lemma NoActionAfterCancel(run: Run, i: nat, j: nat, t: nat)
    requires Valid(run) && i <= j < |run.states| && run.states[i].shared.cancelled && t < |run.states[j].threads|
    ensures !run.states[j].threads[t].Acting?
  {
    CancelledForGood(run, i, j);
    RunKeepsInv(run, j);
    assert Fine(run.states[j].shared, t, run.states[j].threads[t]);
  }

  lemma OneActionAtATime(run: Run, j: nat, t: nat, u: nat)
    requires Valid(run) && j < |run.states| && t < |run.states[j].threads| && u < |run.states[j].threads|
    requires run.states[j].threads[t].Acting? && (run.states[j].threads[u].Acting? || HoldsLock(run.states[j].threads[u]))
    ensures t == u && !run.states[j].shared.cancelled && !run.states[j].shared.poisoned
  {
    RunKeepsInv(run, j);
  }

  /** How many steps a waiting task is from its return. */
  function StepsToReturn(t: Thread): nat {
    match t
    case WaitReady => 4
    case WaitCreated(_) => 3
    case WaitEnabled(_, _) => 2
    case WaitAsleep(_, _) => 1
    case _ => 0
  }

  predicate IsWaiter(t: Thread) {
    t.WaitReady? || t.WaitCreated? || Waiting(t) || t.WaitReturned? || t.WaitDropped?
  }

  /**
   Once some cancel has completed, no wake-up is lost: every waiting task can take its next step whatever
   the others do, and every step of its own brings it nearer to its return.
   */
  lemma NoLostWakeUp(run: Run, j: nat, c: nat, w: nat, step: Step)
    requires Valid(run) && j < |run.states| && c < |run.states[j].threads| && run.states[j].threads[c].CancelDone?
    requires w < |run.states[j].threads| && IsWaiter(run.states[j].threads[w]) && !Over(run.states[j].threads[w])
    requires step.t == w
    ensures Enabled(run.states[j], step)
    ensures StepsToReturn(Next(run.states[j], step).threads[w]) < StepsToReturn(run.states[j].threads[w])
    ensures Next(run.states[j], step).threads[w] == WaitReturned || !Over(Next(run.states[j], step).threads[w]) || step.drops
  {
    RunKeepsInv(run, j);
    assert Fine(run.states[j].shared, c, run.states[j].threads[c]);
    assert Fine(run.states[j].shared, w, run.states[j].threads[w]);
  }

  /** Nobody returns from waiting without a cancel. */
  lemma ReturnMeansCancelled(run: Run, j: nat, w: nat)
    requires Valid(run) && j < |run.states| && w < |run.states[j].threads| && run.states[j].threads[w].WaitReturned?
    ensures run.states[j].shared.cancelled
  {
    RunKeepsInv(run, j);
    assert Fine(run.states[j].shared, w, run.states[j].threads[w]);
  }
}
