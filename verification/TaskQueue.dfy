/**
 The durable job table and its operations. A table is a sequence of rows in rowid order; a row
 is only ever appended, so its index is its identity.
 */
module TaskQueue {
  import opened Options

  datatype State = Queued | Running | Completed | Failed | Cancelled | Interrupted

  datatype Row = Row(
    id: string, scope: string, lane: string, kind: string, key: string, generation: int,
    payload: string, state: State, owner: Option<string>, attempts: nat, availableAt: int,
    leaseUntil: Option<int>, error: Option<string>, createdAt: int, updatedAt: int)

  datatype Job = Job(
    id: string, scope: string, lane: string, kind: string, key: string, generation: int,
    payload: string, owner: string)

  /** The arguments of `enqueue`. `freshId` is the generated id, `json` what `json_valid` says. */
  datatype Order = Order(
    scope: string, lane: string, kind: string, key: string, generation: int, payload: string,
    maxPending: Option<int>, freshId: string, json: bool)

  datatype Op =
    | Enqueue(order: Order, now: int)
    | Claim(lane: string, owner: string, now: int)
    | Finish(job: Job, now: int)
    | Fail(job: Job, error: string, now: int)
    | FailTerminal(job: Job, error: string, now: int)
    | Recover(replay: seq<string>, interrupt: seq<string>, now: int)
    | CancelKey(scope: string, key: string, now: int)
      // One transaction: enqueue a downstream job, then finish; either failing drops both.
    | Publish(job: Job, order: Order, now: int)

  datatype Reply = Done | Refused | Stored(id: string) | Claimed(job: Job) | Idle | Changed(count: nat)

  const MAX_ATTEMPTS := 3
  const RETRY_MS := 1000
  const LEASE_MS := 180_000
  const TERMINAL_QUESTION := "terminal_question"
  const AUTH_FAILURE := "Provider authentication failed. Check the configured credential."

  predicate Contains(text: string, part: string) {
    |part| <= |text| && (text[..|part|] == part || (text != "" && Contains(text[1..], part)))
  }

  predicate Permanent(error: string) {
    || error == AUTH_FAILURE
    || Contains(error, "larm_invalid_provider")
    || Contains(error, "larm_invalid_credential")
  }

  function Clip(error: string): string {
    if |error| <= 500 then error else error[..500]
  }

  predicate Pending(r: Row) {
    r.state == Queued || r.state == Running
  }

  predicate Terminal(r: Row) {
    !Pending(r)
  }

  /** The WHERE clause that fences `finish` and `fail`. */
  predicate Holds(r: Row, job: Job) {
    r.id == job.id && r.state == Running && r.owner == Some(job.owner) && r.generation == job.generation
  }

  /** The columns of the UNIQUE constraint. */
  datatype Identity = Identity(scope: string, kind: string, key: string, generation: int)

  function IdentityOf(r: Row): Identity {
    Identity(r.scope, r.kind, r.key, r.generation)
  }

  function Wanted(o: Order): Identity {
    Identity(o.scope, o.kind, o.key, o.generation)
  }

  // ---- The statements that rewrite rows in place, one row at a time ----

  function Close(r: Row, state: State, now: int): Row {
    r.(state := state, owner := None, leaseUntil := None, updatedAt := now)
  }

  function FinishRow(r: Row, job: Job, now: int): Row {
    if Holds(r, job) then Close(r, Completed, now) else r
  }

  function FailTerminalRow(r: Row, job: Job, error: string, now: int): Row {
    if Holds(r, job) then Close(r, Failed, now).(error := Some(Clip(error))) else r
  }

  function FailRow(r: Row, job: Job, error: string, now: int): Row {
    if Permanent(error) then FailTerminalRow(r, job, error, now)
    else if !Holds(r, job) then r
    else Close(r, if r.attempts < MAX_ATTEMPTS then Queued else Failed, now)
         .(availableAt := now + RETRY_MS * r.attempts, error := Some(Clip(error)))
  }

  function ReplayRow(r: Row, lanes: seq<string>, now: int): Row {
    if r.state == Running && r.lane in lanes then Close(r, Queued, now).(availableAt := now) else r
  }

  function InterruptRow(r: Row, lanes: seq<string>, now: int): Row {
    if Pending(r) && r.lane in lanes then Close(r, Interrupted, now) else r
  }

  function CancelRow(r: Row, scope: string, key: string, now: int): Row {
    if r.scope == scope && r.key == key && Pending(r) then Close(r, Cancelled, now) else r
  }

  function Touch(r: Row, op: Op): Row {
    match op
    case Finish(job, now) => FinishRow(r, job, now)
    case Fail(job, error, now) => FailRow(r, job, error, now)
    case FailTerminal(job, error, now) => FailTerminalRow(r, job, error, now)
    case Recover(replay, interrupt, now) => InterruptRow(ReplayRow(r, replay, now), interrupt, now)
    case CancelKey(scope, key, now) => CancelRow(r, scope, key, now)
    case _ => r
  }

  function TouchAll(rows: seq<Row>, op: Op): (after: seq<Row>)
    ensures |after| == |rows|
    ensures forall i :: 0 <= i < |rows| ==> after[i] == Touch(rows[i], op)
  {
    seq(|rows|, i requires 0 <= i < |rows| => Touch(rows[i], op))
  }

  // ---- Queries ----

  predicate Ready(r: Row, lane: string, now: int) {
    r.lane == lane && r.state == Queued && r.availableAt <= now
  }

  function Rank(r: Row): nat {
    if r.kind == TERMINAL_QUESTION then 1 else 0
  }

  predicate Before(rows: seq<Row>, i: nat, j: nat)
    requires i < |rows| && j < |rows|
  {
    Rank(rows[i]) < Rank(rows[j]) || (Rank(rows[i]) == Rank(rows[j]) && i <= j)
  }

  /** SELECT … ORDER BY rank, rowid LIMIT 1 over the first n rows. */
  function FirstReady(rows: seq<Row>, lane: string, now: int, n: nat): (best: Option<nat>)
    requires n <= |rows|
    ensures best.None? ==> forall i :: 0 <= i < n ==> !Ready(rows[i], lane, now)
    ensures best.Some? ==> best.value < n && Ready(rows[best.value], lane, now)
    ensures best.Some? ==> forall i :: 0 <= i < n && Ready(rows[i], lane, now) ==> Before(rows, best.value, i)
  {
    if n == 0 then None
    else
      var best := FirstReady(rows, lane, now, n - 1);
      if !Ready(rows[n - 1], lane, now) then best
      else if best.Some? && Before(rows, best.value, n - 1) then best
      else Some(n - 1)
  }

  /** The row that already carries this order's identity, if there is one. */
  function Find(rows: seq<Row>, o: Order): (at: Option<nat>)
    ensures at.Some? ==> at.value < |rows| && IdentityOf(rows[at.value]) == Wanted(o)
    ensures at.None? ==> forall i :: 0 <= i < |rows| ==> IdentityOf(rows[i]) != Wanted(o)
  {
    if rows == [] then None
    else if IdentityOf(rows[|rows| - 1]) == Wanted(o) then Some(|rows| - 1)
    else Find(rows[..|rows| - 1], o)
  }

  predicate PendingIn(r: Row, scope: string, lane: string, kind: string) {
    r.scope == scope && r.lane == lane && r.kind == kind && Pending(r)
  }

  function CountPending(rows: seq<Row>, scope: string, lane: string, kind: string): nat {
    if rows == [] then 0
    else CountPending(rows[..|rows| - 1], scope, lane, kind) + (if PendingIn(rows[|rows| - 1], scope, lane, kind) then 1 else 0)
  }

  function CountHeld(rows: seq<Row>, job: Job): nat {
    if rows == [] then 0
    else CountHeld(rows[..|rows| - 1], job) + (if Holds(rows[|rows| - 1], job) then 1 else 0)
  }

  function CountCancelled(rows: seq<Row>, scope: string, key: string): nat {
    if rows == [] then 0
    else CountCancelled(rows[..|rows| - 1], scope, key)
         + (if rows[|rows| - 1].scope == scope && rows[|rows| - 1].key == key && Pending(rows[|rows| - 1]) then 1 else 0)
  }

  // ---- The operations on the whole table ----

  function NewRow(o: Order, now: int): Row {
    Row(o.freshId, o.scope, o.lane, o.kind, o.key, o.generation, o.payload, Queued, None, 0, now, None, None, now, now)
  }

  function Insert(rows: seq<Row>, o: Order, now: int): (seq<Row>, Reply) {
    if o.maxPending.Some? && CountPending(rows, o.scope, o.lane, o.kind) >= o.maxPending.value then (rows, Refused)
    // The CHECK on the payload and the PRIMARY KEY are enforced by the INSERT itself.
    else if !o.json || exists i :: 0 <= i < |rows| && rows[i].id == o.freshId then (rows, Refused)
    else (rows + [NewRow(o, now)], Stored(o.freshId))
  }

  function Enqueued(rows: seq<Row>, o: Order, now: int): (seq<Row>, Reply) {
    var prior := Find(rows, o);
    if prior.Some? then
      (rows, if rows[prior.value].payload == o.payload then Stored(rows[prior.value].id) else Refused)
    else Insert(rows, o, now)
  }

  function ClaimRow(r: Row, owner: string, now: int): Row {
    r.(state := Running, owner := Some(owner), attempts := r.attempts + 1, leaseUntil := Some(now + LEASE_MS), updatedAt := now)
  }

  function JobOf(r: Row, owner: string): Job {
    Job(r.id, r.scope, r.lane, r.kind, r.key, r.generation, r.payload, owner)
  }

  function ClaimNext(rows: seq<Row>, lane: string, owner: string, now: int): (seq<Row>, Reply) {
    var best := FirstReady(rows, lane, now, |rows|);
    if best.None? then (rows, Idle)
    else (rows[best.value := ClaimRow(rows[best.value], owner, now)], Claimed(JobOf(rows[best.value], owner)))
  }

  function Settle(rows: seq<Row>, job: Job, op: Op): (seq<Row>, Reply) {
    (TouchAll(rows, op), if CountHeld(rows, job) == 1 then Done else Refused)
  }

  function Apply(rows: seq<Row>, op: Op): (seq<Row>, Reply) {
    match op
    case Enqueue(o, now) => Enqueued(rows, o, now)
    case Claim(lane, owner, now) => ClaimNext(rows, lane, owner, now)
    case Finish(job, _) => Settle(rows, job, op)
    case Fail(job, _, _) => Settle(rows, job, op)
    case FailTerminal(job, _, _) => Settle(rows, job, op)
    case Recover(_, _, _) => (TouchAll(rows, op), Done)
    case CancelKey(scope, key, _) => (TouchAll(rows, op), Changed(CountCancelled(rows, scope, key)))
    case Publish(job, o, now) =>
      var (stored, reply) := Enqueued(rows, o, now);
      if !reply.Stored? then (rows, Refused)
      else
        var (settled, outcome) := Settle(stored, job, Finish(job, now));
        if outcome == Done then (settled, Done) else (rows, Refused)
  }

  // ---- Invariants of a table ----

  ghost predicate Unique(rows: seq<Row>) {
    forall i, j :: 0 <= i < j < |rows| ==> rows[i].id != rows[j].id && IdentityOf(rows[i]) != IdentityOf(rows[j])
  }

  /** A row is running exactly when it has an owner, and exactly when it has a lease. */
  predicate WellOwned(r: Row) {
    (r.state == Running <==> r.owner.Some?) && (r.state == Running <==> r.leaseUntil.Some?)
  }

  ghost predicate Sound(rows: seq<Row>) {
    Unique(rows) && forall i :: 0 <= i < |rows| ==> WellOwned(rows[i])
  }

  lemma EmptyIsSound()
    ensures Sound([])
  {
  }

  /** What a row never loses, whatever happens to the table; a terminal row never changes at all. */
  predicate Continues(before: Row, after: Row) {
    && after.id == before.id && IdentityOf(after) == IdentityOf(before) && after.lane == before.lane
    && after.payload == before.payload && after.attempts >= before.attempts
    && (Terminal(before) ==> after == before)
  }

  lemma {:induction false} HeldAtMostOnce(rows: seq<Row>, job: Job)
    requires Unique(rows)
    ensures CountHeld(rows, job) <= 1
    ensures CountHeld(rows, job) == 1 <==> exists i :: 0 <= i < |rows| && Holds(rows[i], job)
  {
    if rows != [] {
      var rest := rows[..|rows| - 1];
      HeldAtMostOnce(rest, job);
      if Holds(rows[|rows| - 1], job) {
        forall i | 0 <= i < |rest| ensures !Holds(rest[i], job) {
          assert rest[i] == rows[i];
        }
      } else if CountHeld(rest, job) == 1 {
        var i :| 0 <= i < |rest| && Holds(rest[i], job);
        assert Holds(rows[i], job);
      } else {
        forall i | 0 <= i < |rows| ensures !Holds(rows[i], job) {
          if i < |rest| { assert rest[i] == rows[i]; }
        }
      }
    }
  }

  lemma TouchKeepsRow(r: Row, op: Op)
    ensures Continues(r, Touch(r, op))
    ensures WellOwned(r) ==> WellOwned(Touch(r, op))
  {
  }

  lemma TouchAllKeeps(rows: seq<Row>, op: Op)
    ensures forall i :: 0 <= i < |rows| ==> Continues(rows[i], TouchAll(rows, op)[i])
    ensures Sound(rows) ==> Sound(TouchAll(rows, op))
  {
    forall i | 0 <= i < |rows|
      ensures Continues(rows[i], TouchAll(rows, op)[i]) && (WellOwned(rows[i]) ==> WellOwned(TouchAll(rows, op)[i]))
    {
      TouchKeepsRow(rows[i], op);
    }
  }

  lemma EnqueuedKeeps(rows: seq<Row>, o: Order, now: int)
    ensures var (after, reply) := Enqueued(rows, o, now);
            after == rows || (after == rows + [NewRow(o, now)] && reply == Stored(o.freshId))
    ensures Sound(rows) ==> Sound(Enqueued(rows, o, now).0)
  {
  }

  lemma ClaimKeeps(rows: seq<Row>, lane: string, owner: string, now: int)
    ensures |ClaimNext(rows, lane, owner, now).0| == |rows|
    ensures forall i :: 0 <= i < |rows| ==> Continues(rows[i], ClaimNext(rows, lane, owner, now).0[i])
    ensures Sound(rows) ==> Sound(ClaimNext(rows, lane, owner, now).0)
  {
  }

  /** Every operation keeps the rows in place, leaves a terminal row exactly as it was, and keeps the table sound. */
  lemma StepKeeps(rows: seq<Row>, op: Op)
    ensures |rows| <= |Apply(rows, op).0| <= |rows| + 1
    ensures forall i :: 0 <= i < |rows| ==> Continues(rows[i], Apply(rows, op).0[i])
    ensures Sound(rows) ==> Sound(Apply(rows, op).0)
  {
    match op
    case Enqueue(o, now) => EnqueuedKeeps(rows, o, now);
    case Claim(lane, owner, now) => ClaimKeeps(rows, lane, owner, now);
    case Publish(job, o, now) =>
      EnqueuedKeeps(rows, o, now);
      TouchAllKeeps(Enqueued(rows, o, now).0, Finish(job, now));
    case _ => TouchAllKeeps(rows, op);
  }
}
