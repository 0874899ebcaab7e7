/** The job table as the object that the operations update in place. */
module TaskQueueTable {
  import opened Options
  import opened TaskQueue

  class JobTable {
    var rows: seq<Row>

    ghost predicate Valid()
      reads this
    {
      Sound(rows)
    }

    constructor ()
      ensures Valid() && rows == []
    {
      rows := [];
    }

    /** Stores a new queued row, or answers with the row that already carries the identity. */
    method Enqueue(o: Order, now: int) returns (reply: Reply)
      requires Valid()
      modifies this
      ensures Valid() && (rows, reply) == Apply(old(rows), Op.Enqueue(o, now))
      ensures rows == old(rows) || (rows == old(rows) + [NewRow(o, now)] && reply == Stored(o.freshId))
      ensures reply.Stored? ==> exists i :: 0 <= i < |rows| && rows[i].id == reply.id
                                            && IdentityOf(rows[i]) == Wanted(o) && rows[i].payload == o.payload
      ensures o.maxPending.Some? && rows != old(rows) ==>
                CountPending(old(rows), o.scope, o.lane, o.kind) < o.maxPending.value
    {
      EnqueuedKeeps(rows, o, now);
      var prior := Find(rows, o);
      if prior.Some? {
        if rows[prior.value].payload == o.payload {
          reply := Stored(rows[prior.value].id);
        } else {
          reply := Refused;
        }
        return;
      }
      if o.maxPending.Some? && CountPending(rows, o.scope, o.lane, o.kind) >= o.maxPending.value {
        return Refused;
      }
      if !o.json || exists i :: 0 <= i < |rows| && rows[i].id == o.freshId {
        return Refused;
      }
      rows := rows + [NewRow(o, now)];
      assert rows[|rows| - 1] == NewRow(o, now);
      reply := Stored(o.freshId);
    }

    /** Hands out the first ready row of the lane, ordinary kinds first, then in order of arrival. */
    method Claim(lane: string, owner: string, now: int) returns (job: Option<Job>)
      requires Valid()
      modifies this
      ensures Valid() && rows == Apply(old(rows), Op.Claim(lane, owner, now)).0
      ensures job.None? <==> forall i :: 0 <= i < |old(rows)| ==> !Ready(old(rows)[i], lane, now)
      ensures job.None? ==> rows == old(rows)
      ensures job.Some? ==> exists c :: 0 <= c < |old(rows)| && Ready(old(rows)[c], lane, now)
                                       && job.value == JobOf(old(rows)[c], owner)
                                       && (forall i :: 0 <= i < |old(rows)| && Ready(old(rows)[i], lane, now) ==> Before(old(rows), c, i))
                                       && rows == old(rows)[c := ClaimRow(old(rows)[c], owner, now)]
    {
      ClaimKeeps(rows, lane, owner, now);
      var best := FirstReady(rows, lane, now, |rows|);
      if best.None? {
        return None;
      }
      var candidate := rows[best.value];
      rows := rows[best.value := ClaimRow(candidate, owner, now)];
      job := Some(JobOf(candidate, owner));
    }

    /** Completes the one row held under this job, or changes nothing. */
    method Finish(job: Job, now: int) returns (ok: bool)
      requires Valid()
      modifies this
      ensures Valid() && rows == Apply(old(rows), Op.Finish(job, now)).0
      ensures ok <==> exists i :: 0 <= i < |old(rows)| && Holds(old(rows)[i], job)
      ensures ok <==> Apply(old(rows), Op.Finish(job, now)).1 == Done
      ensures !ok ==> rows == old(rows)
      ensures forall i :: 0 <= i < |rows| && Holds(old(rows)[i], job) ==> rows == old(rows)[i := Close(old(rows)[i], Completed, now)]
    {
      HeldAtMostOnce(rows, job);
      TouchAllKeeps(rows, Op.Finish(job, now));
      ok := CountHeld(rows, job) == 1;
      rows := TouchAll(rows, Op.Finish(job, now));
    }

    /** Puts the held row back in the queue with a growing delay until its third attempt, then fails it. */
    method Fail(job: Job, error: string, now: int) returns (ok: bool)
      requires Valid()
      modifies this
      ensures Valid() && rows == Apply(old(rows), Op.Fail(job, error, now)).0
      ensures ok <==> exists i :: 0 <= i < |old(rows)| && Holds(old(rows)[i], job)
      ensures !ok ==> rows == old(rows)
      ensures forall i :: 0 <= i < |rows| ==>
                if !Holds(old(rows)[i], job) then rows[i] == old(rows)[i]
                else rows[i].owner.None? && rows[i].error == Some(Clip(error))
                     && (rows[i].state == Queued <==> !Permanent(error) && old(rows)[i].attempts < MAX_ATTEMPTS)
                     && (rows[i].state != Queued ==> rows[i].state == Failed)
                     && (rows[i].state == Queued ==> rows[i].availableAt == now + RETRY_MS * old(rows)[i].attempts)
    {
      if Permanent(error) {
        ok := FailTerminal(job, error, now);
        assert rows == TouchAll(old(rows), Op.Fail(job, error, now));
        return;
      }
      HeldAtMostOnce(rows, job);
      TouchAllKeeps(rows, Op.Fail(job, error, now));
      ok := CountHeld(rows, job) == 1;
      rows := TouchAll(rows, Op.Fail(job, error, now));
    }

    method FailTerminal(job: Job, error: string, now: int) returns (ok: bool)
      requires Valid()
      modifies this
      ensures Valid() && rows == Apply(old(rows), Op.FailTerminal(job, error, now)).0
      ensures ok <==> exists i :: 0 <= i < |old(rows)| && Holds(old(rows)[i], job)
      ensures !ok ==> rows == old(rows)
    {
      HeldAtMostOnce(rows, job);
      TouchAllKeeps(rows, Op.FailTerminal(job, error, now));
      ok := CountHeld(rows, job) == 1;
      rows := TouchAll(rows, Op.FailTerminal(job, error, now));
    }

    /** One UPDATE per lane: first the lanes to replay, then the lanes to interrupt. */
    method Recover(replay: seq<string>, interrupt: seq<string>, now: int)
      requires Valid()
      modifies this
      ensures Valid() && rows == Apply(old(rows), Op.Recover(replay, interrupt, now)).0
      ensures forall i :: 0 <= i < |rows| ==> (rows[i].lane in replay || rows[i].lane in interrupt ==> rows[i].state != Running)
    {
      for n := 0 to |replay|
        invariant |rows| == |old(rows)|
        invariant forall i :: 0 <= i < |rows| ==> rows[i] == ReplayRow(old(rows)[i], replay[..n], now)
      {
        var lane := replay[n];
        rows := seq(|rows|, i requires 0 <= i < |rows| reads this => ReplayRow(rows[i], [lane], now));
      }
      assert replay[..|replay|] == replay;
      for n := 0 to |interrupt|
        invariant |rows| == |old(rows)|
        invariant forall i :: 0 <= i < |rows| ==>
                    rows[i] == InterruptRow(ReplayRow(old(rows)[i], replay, now), interrupt[..n], now)
      {
        var lane := interrupt[n];
        rows := seq(|rows|, i requires 0 <= i < |rows| reads this => InterruptRow(rows[i], [lane], now));
      }
      assert interrupt[..|interrupt|] == interrupt;
      TouchAllKeeps(old(rows), Op.Recover(replay, interrupt, now));
      assert rows == TouchAll(old(rows), Op.Recover(replay, interrupt, now));
    }

    method CancelKey(scope: string, key: string, now: int) returns (count: nat)
      requires Valid()
      modifies this
      ensures Valid() && (rows, Changed(count)) == Apply(old(rows), Op.CancelKey(scope, key, now))
      ensures forall i :: 0 <= i < |rows| && rows[i].scope == scope && rows[i].key == key ==> Terminal(rows[i])
    {
      TouchAllKeeps(rows, Op.CancelKey(scope, key, now));
      count := CountCancelled(rows, scope, key);
      rows := TouchAll(rows, Op.CancelKey(scope, key, now));
    }
  }
}
