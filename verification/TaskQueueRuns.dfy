/** Facts about whole runs of the job table: any sequence of operations from an empty table. */
module TaskQueueRuns {
  import opened Options
  import opened TaskQueue

  /** Operations and the tables between them; tables[k] is the table before operation k. */
  datatype Run = Run(ops: seq<Op>, tables: seq<seq<Row>>)

  ghost predicate Valid(run: Run) {
    && |run.tables| == |run.ops| + 1
    && run.tables[0] == []
    && forall k {:trigger run.ops[k]} :: 0 <= k < |run.ops| ==> run.tables[k + 1] == Apply(run.tables[k], run.ops[k]).0
  }

  /** One more operation. */
  function Longer(before: Run, op: Op): (run: Run)
    requires Valid(before)
    ensures Valid(run) && run.ops == before.ops + [op]
  {
    hide Apply;
    Run(before.ops + [op], before.tables + [Apply(before.tables[|before.ops|], op).0])
  }

  /** Every sequence of operations is the sequence of some run. */
  function RunOf(ops: seq<Op>): (run: Run)
    ensures Valid(run) && run.ops == ops
  {
    if ops == [] then Run([], [[]])
    else
      Longer(RunOf(ops[..|ops| - 1]), ops[|ops| - 1])
  }

  function ReplyAt(run: Run, k: nat): Reply
    requires k < |run.ops| && |run.tables| == |run.ops| + 1
  {
    Apply(run.tables[k], run.ops[k]).1
  }

  lemma {:induction false} RunIsSound(run: Run, k: nat)
    requires Valid(run) && k <= |run.ops|
    ensures Sound(run.tables[k])
  {
    hide Apply;
    if k == 0 {
      EmptyIsSound();
    } else {
      RunIsSound(run, k - 1);
      StepKeeps(run.tables[k - 1], run.ops[k - 1]);
    }
  }

  /** Rows keep their place for ever, and a terminal state is absorbing. */
  lemma {:induction false} RowsContinue(run: Run, j: nat, k: nat)
    requires Valid(run) && j <= k <= |run.ops|
    ensures |run.tables[j]| <= |run.tables[k]|
    ensures forall i :: 0 <= i < |run.tables[j]| ==> Continues(run.tables[j][i], run.tables[k][i])
    decreases k
  {
    hide Apply;
    if j < k {
      RowsContinue(run, j, k - 1);
      StepKeeps(run.tables[k - 1], run.ops[k - 1]);
    }
  }

  // ---- Attempts and retries ----

  predicate Replayed(rows: seq<Row>, op: Op, i: nat) {
    i < |rows| && op.Recover? && rows[i].state == Running && rows[i].lane in op.replay
  }

  predicate Requeued(rows: seq<Row>, op: Op, i: nat) {
    i < |rows| && op.Fail? && rows[i].state == Running && Touch(rows[i], op).state == Queued
  }

  /** How many recoveries among the first k operations put row i back in the queue. */
  function Replays(run: Run, k: nat, i: nat): nat
    requires Valid(run) && k <= |run.ops|
  {
    if k == 0 then 0 else Replays(run, k - 1, i) + (if Replayed(run.tables[k - 1], run.ops[k - 1], i) then 1 else 0)
  }

  /** How many `fail` calls among the first k operations put row i back in the queue. */
  function Requeues(run: Run, k: nat, i: nat): nat
    requires Valid(run) && k <= |run.ops|
  {
    if k == 0 then 0 else Requeues(run, k - 1, i) + (if Requeued(run.tables[k - 1], run.ops[k - 1], i) then 1 else 0)
  }

  predicate Tally(r: Row, replays: nat, requeues: nat) {
    && requeues <= 2 && requeues <= r.attempts
    && r.attempts <= MAX_ATTEMPTS + replays
    && (r.state == Queued ==> r.attempts < MAX_ATTEMPTS + replays)
    && (r.state == Running ==> requeues < r.attempts)
  }

  lemma {:induction false} NothingCountedBeforeBirth(run: Run, k: nat, i: nat)
    requires Valid(run) && k <= |run.ops| && |run.tables[k]| <= i
    ensures Replays(run, k, i) == 0 && Requeues(run, k, i) == 0
  {
    hide Apply;
    if k > 0 {
      RowsContinue(run, k - 1, k);
      NothingCountedBeforeBirth(run, k - 1, i);
    }
  }

  lemma TouchKeepsTally(r: Row, op: Op, replays: nat, requeues: nat)
    requires Tally(r, replays, requeues)
    ensures Tally(Touch(r, op),
                  replays + (if op.Recover? && r.state == Running && r.lane in op.replay then 1 else 0),
                  requeues + (if op.Fail? && r.state == Running && Touch(r, op).state == Queued then 1 else 0))
  {
  }

  /** A row that an operation adds is the new row of its order. */
  lemma BirthIsQueued(rows: seq<Row>, op: Op, i: nat)
    requires |rows| <= i < |Apply(rows, op).0|
    ensures op.Enqueue? || op.Publish?
    ensures Apply(rows, op).0[i] == NewRow(op.order, op.now)
              || (op.Publish? && Apply(rows, op).0[i] == FinishRow(NewRow(op.order, op.now), op.job, op.now))
  {
    match op
    case Publish(job, o, now) => EnqueuedKeeps(rows, o, now);
    case Enqueue(o, now) => EnqueuedKeeps(rows, o, now);
    case _ =>
  }

  /** What one operation may do to an existing row: nothing, be claimed, or be rewritten in place. */
  lemma RowMoves(rows: seq<Row>, op: Op, i: nat)
    requires i < |rows|
    ensures |Apply(rows, op).0| >= |rows|
    ensures var after := Apply(rows, op).0[i];
            || after == rows[i]
            || (op.Claim? && rows[i].state == Queued && after == ClaimRow(rows[i], op.owner, op.now))
            || (!op.Claim? && !op.Enqueue? && !op.Publish? && after == Touch(rows[i], op))
            || (op.Publish? && Apply(rows, op).1 == Done && after == FinishRow(rows[i], op.job, op.now))
    ensures !op.Claim? && !op.Enqueue? && !op.Publish? ==> Apply(rows, op).0[i] == Touch(rows[i], op)
  {
    match op
    case Publish(job, o, now) => EnqueuedKeeps(rows, o, now);
    case Enqueue(o, now) => EnqueuedKeeps(rows, o, now);
    case _ =>
  }

  /**
   In every reachable table a row has been attempted at most three times plus once for every
   recovery that replayed it, and `fail` has put it back in the queue at most twice.
   */
  lemma {:induction false} AttemptsAreBounded(run: Run, k: nat, i: nat)
    requires Valid(run) && k <= |run.ops| && i < |run.tables[k]|
    ensures run.tables[k][i].attempts <= MAX_ATTEMPTS + Replays(run, k, i)
    ensures Requeues(run, k, i) <= 2
    ensures Tally(run.tables[k][i], Replays(run, k, i), Requeues(run, k, i))
  {
    hide Apply;
    var rows, op := run.tables[k - 1], run.ops[k - 1];
    if i < |rows| {
      AttemptsAreBounded(run, k - 1, i);
      RowMoves(rows, op, i);
      TouchKeepsTally(rows[i], op, Replays(run, k - 1, i), Requeues(run, k - 1, i));
    } else {
      NothingCountedBeforeBirth(run, k - 1, i);
      BirthIsQueued(rows, op, i);
    }
  }

  // ---- Fencing ----

  ghost predicate FreshOwners(run: Run) {
    forall i, j :: 0 <= i < j < |run.ops| && run.ops[i].Claim? && run.ops[j].Claim? ==> run.ops[i].owner != run.ops[j].owner
  }

  predicate Settling(op: Op) {
    op.Finish? || op.Fail? || op.FailTerminal? || op.Publish?
  }

  /** Operation k settled a job held under this owner. */
  predicate SettledAs(run: Run, k: nat, owner: string)
    requires Valid(run) && k < |run.ops|
  {
    Settling(run.ops[k]) && run.ops[k].job.owner == owner && ReplyAt(run, k) == Done
  }

  predicate Owns(r: Row, owner: string) {
    r.owner == Some(owner)
  }

  ghost predicate Unowned(rows: seq<Row>, owner: string) {
    forall i :: 0 <= i < |rows| ==> !Owns(rows[i], owner)
  }

  lemma StepGivesNoOwner(rows: seq<Row>, op: Op, owner: string)
    requires Unowned(rows, owner) && !(op.Claim? && op.owner == owner)
    ensures Unowned(Apply(rows, op).0, owner)
  {
    var after := Apply(rows, op).0;
    forall i | 0 <= i < |after| ensures !Owns(after[i], owner) {
      if i < |rows| {
        RowMoves(rows, op, i);
      } else {
        BirthIsQueued(rows, op, i);
      }
    }
  }

  /** An owner that no row carries never comes back unless it is claimed again. */
  lemma {:induction false} OwnerStaysGone(run: Run, j: nat, k: nat, owner: string)
    requires Valid(run) && j <= k <= |run.ops| && Unowned(run.tables[j], owner)
    requires forall m :: j <= m < k && run.ops[m].Claim? ==> run.ops[m].owner != owner
    ensures Unowned(run.tables[k], owner)
    decreases k
  {
    if j < k {
      OwnerStaysGone(run, j, k - 1, owner);
      StepGivesNoOwner(run.tables[k - 1], run.ops[k - 1], owner);
    }
  }

  /** With fresh owners one owner never holds two rows. */
  lemma {:induction false} OneRowPerOwner(run: Run, k: nat, i: nat, j: nat, owner: string)
    requires Valid(run) && FreshOwners(run) && k <= |run.ops| && i < j < |run.tables[k]|
    ensures !(Owns(run.tables[k][i], owner) && Owns(run.tables[k][j], owner))
  {
    var rows, op := run.tables[k - 1], run.ops[k - 1];
    if op.Claim? && op.owner == owner {
      NotClaimedYet(run, k - 1, owner);
    } else if j < |rows| {
      OneRowPerOwner(run, k - 1, i, j, owner);
      RowMoves(rows, op, i);
      RowMoves(rows, op, j);
    } else {
      BirthIsQueued(rows, op, j);
    }
  }

  /** Before its claim nobody carries a fresh owner. */
  lemma NotClaimedYet(run: Run, k: nat, owner: string)
    requires Valid(run) && FreshOwners(run) && k < |run.ops| && run.ops[k].Claim? && run.ops[k].owner == owner
    ensures Unowned(run.tables[k], owner)
  {
    OwnerStaysGone(run, 0, k, owner);
  }

  /** A row that carries an owner got it from a claim. */
  lemma {:induction false} OwnersComeFromClaims(run: Run, k: nat, i: nat) returns (c: nat)
    requires Valid(run) && k <= |run.ops| && i < |run.tables[k]| && run.tables[k][i].owner.Some?
    ensures c < k && run.ops[c].Claim? && Owns(run.tables[k][i], run.ops[c].owner)
  {
    var rows, op := run.tables[k - 1], run.ops[k - 1];
    if i < |rows| {
      RowMoves(rows, op, i);
      if run.tables[k][i].owner == rows[i].owner {
        c := OwnersComeFromClaims(run, k - 1, i);
      } else {
        c := k - 1;
      }
    } else {
      BirthIsQueued(rows, op, i);
    }
  }

  /** A settle succeeds only for a row held under the job's owner; without one it changes nothing. */
  lemma SettleNeedsHolder(rows: seq<Row>, op: Op)
    requires Sound(rows) && Settling(op)
    ensures Apply(rows, op).1 == Done ==> exists i :: 0 <= i < |rows| && Holds(rows[i], op.job)
    ensures (forall i :: 0 <= i < |rows| ==> !Holds(rows[i], op.job)) ==> Apply(rows, op) == (rows, Refused)
  {
    if op.Publish? {
      EnqueuedHoldsNothingNew(rows, op.order, op.now, op.job);
    } else {
      PlainSettleNeedsHolder(rows, op);
    }
  }

  lemma PlainSettleNeedsHolder(rows: seq<Row>, op: Op)
    requires Sound(rows) && Settling(op) && !op.Publish?
    ensures Apply(rows, op).1 == Done ==> exists i :: 0 <= i < |rows| && Holds(rows[i], op.job)
    ensures (forall i :: 0 <= i < |rows| ==> !Holds(rows[i], op.job)) ==> Apply(rows, op) == (rows, Refused)
  {
    HeldAtMostOnce(rows, op.job);
    hide Sound, CountHeld;
    assert Apply(rows, op) == Settle(rows, op.job, op);
    if forall i :: 0 <= i < |rows| ==> !Holds(rows[i], op.job) {
      assert TouchAll(rows, op) == rows;
    }
  }

  /** A new row is queued, so an enqueue gives the job no row to hold. */
  lemma EnqueuedHoldsNothingNew(rows: seq<Row>, o: Order, now: int, job: Job)
    requires Sound(rows)
    ensures var stored := Enqueued(rows, o, now).0;
            CountHeld(stored, job) == 1 ==> exists i :: 0 <= i < |rows| && Holds(rows[i], job)
  {
    EnqueuedKeeps(rows, o, now);
    var stored := Enqueued(rows, o, now).0;
    HeldAtMostOnce(stored, job);
    hide Sound, CountHeld;
    if exists i :: 0 <= i < |stored| && Holds(stored[i], job) {
      var i :| 0 <= i < |stored| && Holds(stored[i], job);
      assert i < |rows| && stored[i] == rows[i];
    }
  }

  lemma SettledRowIsDropped(rows: seq<Row>, op: Op, i: nat)
    requires Sound(rows) && Settling(op) && Apply(rows, op).1 == Done
    requires i < |rows| && Holds(rows[i], op.job)
    ensures i < |Apply(rows, op).0| && Apply(rows, op).0[i].owner == None
  {
    if op.Publish? {
      EnqueuedKeeps(rows, op.order, op.now);
    }
  }

  /** After a successful settle nobody carries the owner it settled. */
  lemma SettleDropsOwner(run: Run, k: nat, owner: string)
    requires Valid(run) && FreshOwners(run) && k < |run.ops| && SettledAs(run, k, owner)
    ensures Unowned(run.tables[k + 1], owner)
    ensures exists i :: 0 <= i < |run.tables[k]| && Owns(run.tables[k][i], owner)
  {
    hide Apply;
    var rows, op, after := run.tables[k], run.ops[k], run.tables[k + 1];
    RunIsSound(run, k);
    SettleNeedsHolder(rows, op);
    var h :| 0 <= h < |rows| && Holds(rows[h], op.job);
    assert Owns(rows[h], owner);
    SettledRowIsDropped(rows, op, h);
    forall i | 0 <= i < |after| ensures !Owns(after[i], owner) {
      if i < |rows| {
        RowMoves(rows, op, i);
        if i < h {
          OneRowPerOwner(run, k, i, h, owner);
        } else if h < i {
          OneRowPerOwner(run, k, h, i, owner);
        }
      } else {
        BirthIsQueued(rows, op, i);
      }
    }
  }

  lemma OwnerNotReclaimed(run: Run, k: nat, i: nat, owner: string)
    requires Valid(run) && FreshOwners(run) && k <= |run.ops| && i < |run.tables[k]| && Owns(run.tables[k][i], owner)
    ensures forall m :: k <= m < |run.ops| && run.ops[m].Claim? ==> run.ops[m].owner != owner
  {
    hide Apply;
    var c := OwnersComeFromClaims(run, k, i);
  }

  /** With fresh owners a claim is settled successfully at most once in a whole run. */
  lemma SettledAtMostOnce(run: Run, a: nat, b: nat, owner: string)
    requires Valid(run) && FreshOwners(run) && a < b < |run.ops|
    requires SettledAs(run, a, owner)
    ensures !SettledAs(run, b, owner)
  {
    hide Apply;
    SettleDropsOwner(run, a, owner);
    var i :| 0 <= i < |run.tables[a]| && Owns(run.tables[a][i], owner);
    OwnerNotReclaimed(run, a, i, owner);
    OwnerStaysGone(run, a + 1, b, owner);
    if SettledAs(run, b, owner) {
      SettleDropsOwner(run, b, owner);
    }
  }

  /** Operation k hands out this job. */
  predicate HandsOut(run: Run, k: nat, job: Job)
    requires Valid(run) && k < |run.ops|
  {
    run.ops[k].Claim? && ReplyAt(run, k) == Claimed(job)
  }

  /** Operation k takes the job away from whoever claimed it. */
  predicate TakesAway(run: Run, k: nat, job: Job)
    requires Valid(run) && k < |run.ops|
  {
    var op := run.ops[k];
    || (op.Recover? && (job.lane in op.replay || job.lane in op.interrupt))
    || (op.CancelKey? && op.scope == job.scope && op.key == job.key)
    || SettledAs(run, k, job.owner)
  }

  lemma HandedOutRow(run: Run, c: nat, job: Job) returns (i: nat)
    requires Valid(run) && c < |run.ops| && HandsOut(run, c, job)
    ensures run.ops[c].owner == job.owner && i < |run.tables[c + 1]| && run.tables[c + 1][i].state == Running
    ensures Owns(run.tables[c + 1][i], job.owner) && JobOf(run.tables[c + 1][i], job.owner) == job
  {
    i := FirstReady(run.tables[c], run.ops[c].lane, run.ops[c].now, |run.tables[c]|).value;
  }

  /** Only the claimed row ever carries the claim's owner. */
  lemma {:induction false} OwnerStaysOnItsRow(run: Run, c: nat, k: nat, job: Job, h: nat, i: nat)
    requires Valid(run) && FreshOwners(run) && c < k <= |run.ops| && HandsOut(run, c, job)
    requires h < |run.tables[c + 1]| && Owns(run.tables[c + 1][h], job.owner)
    requires i < |run.tables[k]| && Owns(run.tables[k][i], job.owner)
    ensures i == h
    decreases k
  {
    if k == c + 1 {
      if i < h { OneRowPerOwner(run, k, i, h, job.owner); }
      if h < i { OneRowPerOwner(run, k, h, i, job.owner); }
    } else {
      var rows, op := run.tables[k - 1], run.ops[k - 1];
      OwnerNotReclaimed(run, c + 1, h, job.owner);
      hide Apply;
      if i < |rows| {
        RowMoves(rows, op, i);
        OwnerStaysOnItsRow(run, c, k - 1, job, h, i);
      } else {
        BirthIsQueued(rows, op, i);
      }
    }
  }

  lemma TakenAwayIsUnowned(run: Run, c: nat, k: nat, job: Job)
    requires Valid(run) && FreshOwners(run) && c < k < |run.ops|
    requires HandsOut(run, c, job) && TakesAway(run, k, job)
    ensures Unowned(run.tables[k + 1], job.owner)
  {
    var rows, op, after := run.tables[k], run.ops[k], run.tables[k + 1];
    if SettledAs(run, k, job.owner) {
      SettleDropsOwner(run, k, job.owner);
    } else {
      var h := HandedOutRow(run, c, job);
      RowsContinue(run, c + 1, k);
      RunIsSound(run, k);
      hide Apply;
      forall i | 0 <= i < |after| ensures !Owns(after[i], job.owner) {
        if i < |rows| {
          RowMoves(rows, op, i);
          if Owns(rows[i], job.owner) {
            OwnerStaysOnItsRow(run, c, k, job, h, i);
          }
        } else {
          BirthIsQueued(rows, op, i);
        }
      }
    }
  }

  /**
   With fresh owners, a job value from before a recovery of its lane, a cancellation of its key or
   a settle of its claim is rejected for ever, and the rejected call leaves the table alone.
   */
  lemma StaleJobIsRejectedForEver(run: Run, c: nat, k: nat, m: nat, job: Job)
    requires Valid(run) && FreshOwners(run) && c < k < m < |run.ops|
    requires HandsOut(run, c, job) && TakesAway(run, k, job)
    requires Settling(run.ops[m]) && run.ops[m].job == job
    ensures ReplyAt(run, m) == Refused && run.tables[m + 1] == run.tables[m]
  {
    var h := HandedOutRow(run, c, job);
    OwnerNotReclaimed(run, c + 1, h, job.owner);
    TakenAwayIsUnowned(run, c, k, job);
    OwnerStaysGone(run, k + 1, m, job.owner);
    RunIsSound(run, m);
    hide Apply;
    forall i | 0 <= i < |run.tables[m]| ensures !Holds(run.tables[m][i], job) {
      assert !Owns(run.tables[m][i], job.owner);
    }
    SettleNeedsHolder(run.tables[m], run.ops[m]);
  }

  // ---- Downstream jobs published with the completion of their upstream job ----

  /** Jobs with identity d are only ever stored by publishing transactions of the upstream row. */
  ghost predicate OnlyPublished(run: Run, d: Identity, upstream: string) {
    forall k {:trigger run.ops[k]} :: 0 <= k < |run.ops| ==>
      && (run.ops[k].Enqueue? ==> Wanted(run.ops[k].order) != d)
      && (run.ops[k].Publish? && Wanted(run.ops[k].order) == d ==> run.ops[k].job.id == upstream)
  }

  predicate CompletedRow(r: Row, id: string) {
    r.id == id && r.state == Completed
  }

  /** A committed publish leaves its upstream row completed. */
  lemma PublishCompletes(rows: seq<Row>, op: Op) returns (u: nat)
    requires Sound(rows) && op.Publish? && Apply(rows, op).1 == Done
    ensures u < |rows| <= |Apply(rows, op).0| && Holds(rows[u], op.job) && CompletedRow(Apply(rows, op).0[u], op.job.id)
  {
    SettleNeedsHolder(rows, op);
    u :| 0 <= u < |rows| && Holds(rows[u], op.job);
    EnqueuedKeeps(rows, op.order, op.now);
  }

  /** In every interleaving a downstream job exists only beside its completed upstream row. */
  lemma {:induction false} DownstreamOnlyAfterCompletion(run: Run, k: nat, d: Identity, upstream: string, i: nat) returns (u: nat)
    requires Valid(run) && OnlyPublished(run, d, upstream) && k <= |run.ops|
    requires i < |run.tables[k]| && IdentityOf(run.tables[k][i]) == d
    ensures u < |run.tables[k]| && CompletedRow(run.tables[k][u], upstream)
  {
    var rows, op := run.tables[k - 1], run.ops[k - 1];
    RunIsSound(run, k - 1);
    hide Apply;
    RowsContinue(run, k - 1, k);
    if i < |rows| {
      u := DownstreamOnlyAfterCompletion(run, k - 1, d, upstream, i);
      assert Continues(rows[u], run.tables[k][u]);
    } else {
      BirthIsQueued(rows, op, i);
      RefusedPublishStoresNothing(rows, op);
      u := PublishCompletes(rows, op);
    }
  }

  lemma RefusedPublishStoresNothing(rows: seq<Row>, op: Op)
    ensures op.Publish? && Apply(rows, op).1 != Done ==> Apply(rows, op).0 == rows
  {
  }

  lemma PublishReplies(rows: seq<Row>, op: Op)
    ensures op.Publish? ==> Apply(rows, op).1 == Done || Apply(rows, op).1 == Refused
  {
  }

  /** At most one transaction publishes downstream of a given upstream row, whatever owners it used. */
  lemma PublishedAtMostOnce(run: Run, a: nat, b: nat)
    requires Valid(run) && a < b < |run.ops| && run.ops[a].Publish? && run.ops[b].Publish?
    requires run.ops[a].job.id == run.ops[b].job.id
    requires ReplyAt(run, a) == Done
    ensures ReplyAt(run, b) == Refused
  {
    hide Apply;
    RunIsSound(run, a);
    RunIsSound(run, b);
    var u := PublishCompletes(run.tables[a], run.ops[a]);
    RowsContinue(run, a + 1, b);
    assert Continues(run.tables[a + 1][u], run.tables[b][u]);
    if ReplyAt(run, b) == Done {
      var v := PublishCompletes(run.tables[b], run.ops[b]);
    }
    PublishReplies(run.tables[b], run.ops[b]);
  }

  // ---- Bounded queues ----

  /** Every order for this scope, lane and kind carries a bound of at most m. */
  ghost predicate Bounded(run: Run, scope: string, lane: string, kind: string, m: int) {
    forall k {:trigger run.ops[k]} :: 0 <= k < |run.ops| && (run.ops[k].Enqueue? || run.ops[k].Publish?) ==>
      var o := run.ops[k].order;
      o.scope == scope && o.lane == lane && o.kind == kind ==> o.maxPending.Some? && o.maxPending.value <= m
  }

  lemma {:induction false} PendingOnlyDrops(before: seq<Row>, after: seq<Row>, scope: string, lane: string, kind: string)
    requires |before| == |after|
    requires forall i :: 0 <= i < |before| ==> Continues(before[i], after[i])
    ensures CountPending(after, scope, lane, kind) <= CountPending(before, scope, lane, kind)
  {
    if before != [] {
      var n := |before| - 1;
      assert Continues(before[n], after[n]);
      forall i | 0 <= i < n ensures Continues(before[..n][i], after[..n][i]) {
        assert Continues(before[i], after[i]);
      }
      PendingOnlyDrops(before[..n], after[..n], scope, lane, kind);
    }
  }

  lemma EnqueueRespectsBound(rows: seq<Row>, o: Order, now: int, scope: string, lane: string, kind: string, m: nat)
    requires CountPending(rows, scope, lane, kind) <= m
    requires o.scope == scope && o.lane == lane && o.kind == kind ==> o.maxPending.Some? && o.maxPending.value <= m
    ensures CountPending(Enqueued(rows, o, now).0, scope, lane, kind) <= m
  {
    var after := Enqueued(rows, o, now).0;
    if after != rows {
      assert after == rows + [NewRow(o, now)] && after[..|rows|] == rows;
    }
  }

  lemma PublishRespectsBound(rows: seq<Row>, job: Job, o: Order, now: int, scope: string, lane: string, kind: string, m: nat)
    requires CountPending(rows, scope, lane, kind) <= m
    requires o.scope == scope && o.lane == lane && o.kind == kind ==> o.maxPending.Some? && o.maxPending.value <= m
    ensures CountPending(Apply(rows, Publish(job, o, now)).0, scope, lane, kind) <= m
  {
    EnqueueRespectsBound(rows, o, now, scope, lane, kind, m);
    hide CountPending, Enqueued, Touch;
    var stored := Enqueued(rows, o, now).0;
    TouchAllKeeps(stored, Finish(job, now));
    PendingOnlyDrops(stored, TouchAll(stored, Finish(job, now)), scope, lane, kind);
  }

  /** Queued and running jobs of a bounded scope, lane and kind never exceed the bound. */
  lemma {:induction false} PendingStaysBounded(run: Run, k: nat, scope: string, lane: string, kind: string, m: nat)
    requires Valid(run) && k <= |run.ops| && Bounded(run, scope, lane, kind, m)
    ensures CountPending(run.tables[k], scope, lane, kind) <= m
  {
    if k > 0 {
      var rows, op := run.tables[k - 1], run.ops[k - 1];
      PendingStaysBounded(run, k - 1, scope, lane, kind, m);
      hide CountPending, Enqueued;
      match op {
        case Enqueue(o, now) => EnqueueRespectsBound(rows, o, now, scope, lane, kind, m);
        case Publish(job, o, now) => PublishRespectsBound(rows, job, o, now, scope, lane, kind, m);
        case _ =>
          StepKeeps(rows, op);
          PendingOnlyDrops(rows, run.tables[k], scope, lane, kind);
      }
    }
  }
}
