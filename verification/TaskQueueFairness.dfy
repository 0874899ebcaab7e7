/** How long a queued job can be overtaken, and the one kind of job that can be overtaken for ever. */
module TaskQueueFairness {
  import opened Options
  import opened TaskQueue
  import opened TaskQueueRuns

  /** How often a row can still be claimed when nobody runs a recovery. */
  function Remaining(r: Row): nat {
    if r.state == Queued then (if r.attempts < MAX_ATTEMPTS then MAX_ATTEMPTS - r.attempts else 1)
    else if r.state == Running && r.attempts < MAX_ATTEMPTS then MAX_ATTEMPTS - r.attempts
    else 0
  }

  /** A row that may be claimed ahead of an ordinary row behind it. */
  predicate Ahead(r: Row, lane: string) {
    r.lane == lane && Rank(r) == 0
  }

  function CountAhead(rows: seq<Row>, lane: string, i: nat): nat
    requires i <= |rows|
  {
    if i == 0 then 0 else CountAhead(rows, lane, i - 1) + (if Ahead(rows[i - 1], lane) then 1 else 0)
  }

  /** How many claims the rows before i can still take from the lane. */
  function Budget(rows: seq<Row>, lane: string, i: nat): nat
    requires i <= |rows|
  {
    if i == 0 then 0 else Budget(rows, lane, i - 1) + (if Ahead(rows[i - 1], lane) then Remaining(rows[i - 1]) else 0)
  }

  lemma {:induction false} BudgetIsThreePerRow(rows: seq<Row>, lane: string, i: nat)
    requires i <= |rows|
    ensures Budget(rows, lane, i) <= 3 * CountAhead(rows, lane, i)
  {
    if i > 0 { BudgetIsThreePerRow(rows, lane, i - 1); }
  }

  lemma {:induction false} BudgetOnlyDrops(before: seq<Row>, after: seq<Row>, lane: string, i: nat)
    requires i <= |before| && i <= |after|
    requires forall j :: 0 <= j < i ==> Continues(before[j], after[j]) && Remaining(after[j]) <= Remaining(before[j])
    ensures Budget(after, lane, i) <= Budget(before, lane, i)
  {
    if i > 0 { BudgetOnlyDrops(before, after, lane, i - 1); }
  }

  lemma {:induction false} BudgetPaysForClaim(before: seq<Row>, after: seq<Row>, lane: string, i: nat, c: nat)
    requires c < i <= |before| && i <= |after|
    requires forall j :: 0 <= j < i ==> Continues(before[j], after[j]) && Remaining(after[j]) <= Remaining(before[j])
    requires Ahead(before[c], lane) && Remaining(after[c]) < Remaining(before[c])
    ensures Budget(after, lane, i) < Budget(before, lane, i)
  {
    if c == i - 1 {
      BudgetOnlyDrops(before, after, lane, c);
    } else {
      BudgetPaysForClaim(before, after, lane, i - 1, c);
    }
  }

  predicate ClaimsFrom(run: Run, k: nat, lane: string)
    requires Valid(run) && k < |run.ops|
  {
    run.ops[k].Claim? && run.ops[k].lane == lane && ReplyAt(run, k).Claimed?
  }

  /** Successful claims on the lane among operations j to k. */
  function ClaimsBetween(run: Run, lane: string, j: nat, k: nat): nat
    requires Valid(run) && j <= k <= |run.ops|
    decreases k
  {
    if j == k then 0 else ClaimsBetween(run, lane, j, k - 1) + (if ClaimsFrom(run, k - 1, lane) then 1 else 0)
  }

  /** The clock never runs backwards and no recovery happens among operations j to k. */
  ghost predicate Calm(run: Run, j: nat, k: nat) {
    && j <= k <= |run.ops|
    && (forall m {:trigger run.ops[m]} :: j <= m < k ==> !run.ops[m].Recover?)
    && (forall m, n {:trigger run.ops[m], run.ops[n]} :: j <= m <= n < k ==> run.ops[m].now <= run.ops[n].now)
  }

  lemma TouchSpendsNothing(r: Row, op: Op)
    ensures !op.Recover? ==> Remaining(Touch(r, op)) <= Remaining(r)
  {
  }

  lemma StepSpendsNothing(rows: seq<Row>, op: Op, i: nat)
    requires i < |rows| && !op.Recover?
    ensures |rows| <= |Apply(rows, op).0| && Continues(rows[i], Apply(rows, op).0[i])
    ensures Remaining(Apply(rows, op).0[i]) <= Remaining(rows[i])
  {
    hide Apply;
    RowMoves(rows, op, i);
    StepKeeps(rows, op);
    TouchSpendsNothing(rows[i], op);
    if op.Publish? { TouchSpendsNothing(rows[i], Finish(op.job, op.now)); }
  }

  /** A claim on the lane of a waiting, available, ordinary row takes that row or one ahead of it. */
  lemma ClaimTakesAhead(rows: seq<Row>, op: Op, i: nat) returns (c: nat)
    requires i < |rows| && op.Claim? && op.lane == rows[i].lane
    requires rows[i].state == Queued && rows[i].availableAt <= op.now && Rank(rows[i]) == 0
    ensures Apply(rows, op).1.Claimed?
    ensures c <= i && Ahead(rows[c], op.lane) && rows[c].state == Queued
    ensures Apply(rows, op).0 == rows[c := ClaimRow(rows[c], op.owner, op.now)]
  {
    assert Ready(rows[i], op.lane, op.now);
    c := FirstReady(rows, op.lane, op.now, |rows|).value;
    assert Before(rows, c, i);
  }

  /** What can have become of a row that was waiting and has not been claimed since. */
  predicate StillUnclaimed(before: Row, after: Row) {
    && after.attempts == before.attempts
    && (after.state == Cancelled || (after.state == Queued && after.availableAt == before.availableAt))
  }

  lemma {:induction false} WaitingStep(rows: seq<Row>, op: Op, i: nat, first: Row)
    requires i < |rows| && !op.Recover? && StillUnclaimed(first, rows[i])
    ensures i < |Apply(rows, op).0|
    ensures Apply(rows, op).0[i].attempts == first.attempts ==> StillUnclaimed(first, Apply(rows, op).0[i])
  {
    RowMoves(rows, op, i);
  }

  lemma {:induction false} Unclaimed(run: Run, j: nat, k: nat, i: nat)
    requires Valid(run) && Calm(run, j, k) && i < |run.tables[j]| && run.tables[j][i].state == Queued
    ensures i < |run.tables[k]|
    ensures run.tables[k][i].attempts == run.tables[j][i].attempts ==> StillUnclaimed(run.tables[j][i], run.tables[k][i])
    decreases k
  {
    hide Apply;
    RowsContinue(run, j, k);
    if j < k {
      Unclaimed(run, j, k - 1, i);
      RowsContinue(run, j, k - 1);
      RowsContinue(run, k - 1, k);
      if run.tables[k][i].attempts == run.tables[j][i].attempts {
        assert Continues(run.tables[j][i], run.tables[k - 1][i]);
        assert Continues(run.tables[k - 1][i], run.tables[k][i]);
        WaitingStep(run.tables[k - 1], run.ops[k - 1], i, run.tables[j][i]);
      }
    }
  }

  /** While an ordinary row keeps waiting, every claim on its lane is paid for by the rows ahead of it. */
  lemma {:induction false} WaitingIsPaidFor(run: Run, j: nat, k: nat, i: nat)
    requires Valid(run) && Calm(run, j, k) && i < |run.tables[j]|
    requires run.tables[j][i].state == Queued && Rank(run.tables[j][i]) == 0
    requires j < k ==> run.tables[j][i].availableAt <= run.ops[j].now
    requires i < |run.tables[k]| && run.tables[k][i].state == Queued && run.tables[k][i].attempts == run.tables[j][i].attempts
    ensures var lane := run.tables[j][i].lane;
            ClaimsBetween(run, lane, j, k) + Budget(run.tables[k], lane, i) <= Budget(run.tables[j], lane, i)
    decreases k
  {
    hide Apply;
    if j < k {
      var lane, rows, op := run.tables[j][i].lane, run.tables[k - 1], run.ops[k - 1];
      RowsContinue(run, j, k - 1);
      RowsContinue(run, k - 1, k);
      assert Continues(run.tables[j][i], rows[i]) && Continues(rows[i], run.tables[k][i]);
      Unclaimed(run, j, k - 1, i);
      assert rows[i].state == Queued && rows[i].availableAt <= op.now by {
        assert run.ops[j].now <= op.now;
      }
      WaitingIsPaidFor(run, j, k - 1, i);
      forall h | 0 <= h < i
        ensures Continues(rows[h], run.tables[k][h]) && Remaining(run.tables[k][h]) <= Remaining(rows[h])
      {
        StepSpendsNothing(rows, op, h);
      }
      if ClaimsFrom(run, k - 1, lane) {
        var c := ClaimTakesAhead(rows, op, i);
        BudgetPaysForClaim(rows, run.tables[k], lane, i, c);
      } else {
        BudgetOnlyDrops(rows, run.tables[k], lane, i);
      }
    }
  }

  /**
   Bounded overtaking: with a clock that never runs backwards and no recovery, an available job that
   is not a terminal question and has p jobs ahead of it in its lane has been claimed or cancelled by
   the time the lane has seen 3p + 1 successful claims.
   */
  lemma BoundedOvertaking(run: Run, j: nat, k: nat, i: nat)
    requires Valid(run) && Calm(run, j, k) && i < |run.tables[j]|
    requires run.tables[j][i].state == Queued && Rank(run.tables[j][i]) == 0
    requires j < k ==> run.tables[j][i].availableAt <= run.ops[j].now
    requires ClaimsBetween(run, run.tables[j][i].lane, j, k) > 3 * CountAhead(run.tables[j], run.tables[j][i].lane, i)
    ensures i < |run.tables[k]|
    ensures run.tables[k][i].attempts > run.tables[j][i].attempts || run.tables[k][i].state == Cancelled
  {
    hide Apply;
    RowsContinue(run, j, k);
    assert Continues(run.tables[j][i], run.tables[k][i]);
    Unclaimed(run, j, k, i);
    if run.tables[k][i].attempts == run.tables[j][i].attempts && run.tables[k][i].state == Queued {
      WaitingIsPaidFor(run, j, k, i);
      BudgetIsThreePerRow(run.tables[j], run.tables[j][i].lane, i);
      assert false;
    }
  }

  // ---- The exception: a terminal question yields to every ordinary job that keeps arriving ----

  function Name(n: nat): string {
    seq(n, _ => 'x')
  }

  function OrderNo(n: nat, kind: string): Order {
    Order("c", "conversation", kind, Name(n), 0, "{}", None, Name(n), true)
  }

  /** One terminal question, then n ordinary jobs, each claimed as soon as it arrives. */
  function Flood(n: nat): seq<Op> {
    if n == 0 then [Enqueue(OrderNo(0, TERMINAL_QUESTION), 0)]
    else Flood(n - 1) + [Enqueue(OrderNo(n, "user_input"), 0), Claim("conversation", Name(n), 0)]
  }

  lemma {:induction false} FloodLength(n: nat)
    ensures |Flood(n)| == 2 * n + 1
  {
    if n > 0 { FloodLength(n - 1); }
  }

  lemma {:induction false} FloodPrefix(n: nat)
    ensures |Flood(n)| == 2 * n + 1
    ensures n > 0 ==> Flood(n)[..2 * n - 1] == Flood(n - 1)
    ensures n > 0 ==> Flood(n)[2 * n - 1] == Enqueue(OrderNo(n, "user_input"), 0)
    ensures n > 0 ==> Flood(n)[2 * n] == Claim("conversation", Name(n), 0)
  {
    FloodLength(n);
    if n > 0 { FloodLength(n - 1); }
  }

  lemma {:induction false} RunsAgree(short: Run, long: Run, k: nat)
    requires Valid(short) && Valid(long) && k <= |short.ops| <= |long.ops| && long.ops[..|short.ops|] == short.ops
    ensures short.tables[k] == long.tables[k]
  {
    hide Apply;
    if k > 0 {
      RunsAgree(short, long, k - 1);
      assert long.ops[k - 1] == short.ops[k - 1];
    }
  }

  /** The table after the flood: the question still queued, every later row running. */
  ghost predicate Flooded(rows: seq<Row>, n: nat) {
    && |rows| == n + 1
    && rows[0] == NewRow(OrderNo(0, TERMINAL_QUESTION), 0)
    && forall i :: 0 < i <= n ==> rows[i].state == Running && rows[i].id == Name(i) && rows[i].key == Name(i)
  }

  lemma FloodStep(rows: seq<Row>, n: nat)
    requires n > 0 && Flooded(rows, n - 1)
    ensures var mid := Apply(rows, Enqueue(OrderNo(n, "user_input"), 0)).0;
            var claim := Claim("conversation", Name(n), 0);
            Flooded(Apply(mid, claim).0, n) && Apply(mid, claim).1.Claimed?
  {
    var o := OrderNo(n, "user_input");
    forall i | 0 <= i < |rows| ensures rows[i].id != Name(n) && IdentityOf(rows[i]) != Wanted(o) {
      assert |rows[i].id| < |Name(n)|;
    }
    var mid := Apply(rows, Enqueue(o, 0)).0;
    assert mid == rows + [NewRow(o, 0)];
    assert Rank(mid[0]) == 1 && Rank(mid[n]) == 0;
    assert forall i :: 0 <= i < n && Ready(mid[i], "conversation", 0) ==> i == 0;
    var c := FirstReady(mid, "conversation", 0, |mid|);
    assert Ready(mid[n], "conversation", 0);
    assert !Before(mid, 0, n);
  }

  /**
   No bound holds for a terminal question: for every n there is a run with a steady clock and no
   recovery in which the lane sees n successful claims while the question, first in the table and
   available from the start, is still queued.
   */
  lemma {:induction false} TerminalQuestionIsOvertakenForEver(n: nat) returns (run: Run)
    ensures Valid(run) && run.ops == Flood(n) && |run.ops| == 2 * n + 1 && Calm(run, 0, |run.ops|)
    ensures Flooded(run.tables[|run.ops|], n)
    ensures ClaimsBetween(run, "conversation", 0, |run.ops|) == n
  {
    hide Apply, RunOf;
    run := RunOf(Flood(n));
    FloodPrefix(n);
    FloodIsCalm(n);
    if n == 0 {
      FloodStart();
      assert run.ops[0] == Enqueue(OrderNo(0, TERMINAL_QUESTION), 0);
      assert ClaimsBetween(run, "conversation", 0, 0) == 0;
    } else {
      hide Flood, Flooded, OrderNo, Name;
      var before := TerminalQuestionIsOvertakenForEver(n - 1);
      FloodGoesOn(before, run, n);
    }
  }

  /** One more request floods the lane: it is enqueued behind the question and claimed before it. */
  lemma FloodGoesOn(before: Run, run: Run, n: nat)
    requires n > 0 && Valid(before) && Valid(run) && |before.ops| == 2 * n - 1 && |run.ops| == 2 * n + 1
    requires run.ops == before.ops + [Enqueue(OrderNo(n, "user_input"), 0), Claim("conversation", Name(n), 0)]
    requires Flooded(before.tables[|before.ops|], n - 1) && ClaimsBetween(before, "conversation", 0, |before.ops|) == n - 1
    ensures Flooded(run.tables[|run.ops|], n) && ClaimsBetween(run, "conversation", 0, |run.ops|) == n
  {
    hide Apply, Flood, Flooded, OrderNo, Name;
    var m := |before.ops|;
    assert run.ops[..m] == before.ops;
    RunsAgree(before, run, m);
    FloodStep(run.tables[m], n);
    ClaimsAgree(before, run, m);
    assert run.ops[m].Enqueue? && run.ops[m + 1] == Claim("conversation", Name(n), 0);
    assert !ClaimsFrom(run, m, "conversation") && ClaimsFrom(run, m + 1, "conversation");
    assert ClaimsBetween(run, "conversation", 0, m + 1) == n - 1;
  }

  lemma FloodStart()
    ensures Flooded(Apply([], Enqueue(OrderNo(0, TERMINAL_QUESTION), 0)).0, 0)
  {
  }

  lemma {:induction false} FloodIsCalm(n: nat)
    ensures forall i :: 0 <= i < |Flood(n)| ==> !Flood(n)[i].Recover? && Flood(n)[i].now == 0
  {
    if n > 0 { FloodIsCalm(n - 1); }
  }

  lemma {:induction false} ClaimsAgree(short: Run, long: Run, k: nat)
    requires Valid(short) && Valid(long) && k <= |short.ops| <= |long.ops| && long.ops[..|short.ops|] == short.ops
    ensures ClaimsBetween(short, "conversation", 0, k) == ClaimsBetween(long, "conversation", 0, k)
  {
    hide Apply;
    if k > 0 {
      ClaimsAgree(short, long, k - 1);
      RunsAgree(short, long, k - 1);
      assert long.ops[k - 1] == short.ops[k - 1];
    }
  }
}
