/**
 * What the lease buys, task by task. No statement checks who owns a row, so safety rests on timing: every
 * outcome write to the task lands no later than `lease` after its executor's claim, no reaper takes the task
 * back sooner than that, and its executors run inline, so a RetryError is an ordinary failure. What happens to
 * other tasks does not matter.
 */
module QueueLease {
  import opened Prelude
  import opened TaskTable
  import opened RustTwin
  import opened QueueMachine
  import opened QueueShape
  import opened QueueRecord

  /** If the executor works on the task, its lease has not run out. */
  ghost predicate InTime(s: State, x: ExecId, id: Id, lease: real) {
    Holds(s, x, id) ==> s.clock <= s.execs[x].startedAt + lease
  }

  ghost predicate KeepsLease(s: State, e: Event, id: Id, lease: real) {
    match e
    case CompleteWrite(x, i, _, _) => i == id ==> InTime(s, x, id, lease)
    case FailWrite(x, i, _) => i == id ==> InTime(s, x, id, lease)
    case RustFailWrite(x, i, _) => i == id ==> InTime(s, x, id, lease)
    case ManualRetryWrite(_, i, _, _) => i != id
    case Reap(maxRunning, locked) =>
      id in s.rows && Where(ReapStale(maxRunning, locked), id, s.rows[id], s.clock) ==> lease <= maxRunning
    case _ => true
  }

  /** Every event of the run that reaches the task keeps the lease. */
  ghost predicate Leased(es: seq<Event>, id: Id, lease: real) {
    es == [] ||
    var last := |es| - 1;
    Leased(es[..last], id, lease) && KeepsLease(After(es[..last]), es[last], id, lease)
  }

  /** All it takes: no manual retry of the task, writes to it in time, and no reaper with a shorter threshold. */
  lemma LeaseIsKept(s: State, e: Event, id: Id, lease: real)
    requires !(e.ManualRetryWrite? && e.id == id)
    requires (e.CompleteWrite? || e.FailWrite? || e.RustFailWrite?) && e.id == id && Holds(s, e.x, id) ==>
               s.clock - s.execs[e.x].startedAt <= lease
    requires e.Reap? ==> e.maxRunning >= lease
    ensures KeepsLease(s, e, id, lease)
  {
  }

  lemma {:induction false} LeasedPrefix(es: seq<Event>, n: nat, id: Id, lease: real)
    requires n <= |es| && Leased(es, id, lease)
    ensures Leased(es[..n], id, lease)
    ensures n < |es| ==> KeepsLease(After(es[..n]), es[n], id, lease)
  {
    if n == |es| {
      assert es[..n] == es;
    } else if n < |es| - 1 {
      var front := es[..|es| - 1];
      LeasedPrefix(front, n, id, lease);
      assert front[..n] == es[..n];
    }
  }

  /** An executor of the task that may still write its outcome. */
  ghost predicate Live(s: State, x: ExecId, id: Id, lease: real) {
    Holds(s, x, id) && s.clock <= s.execs[x].startedAt + lease
  }

  /** The row is in the hands of the claim made at `startedAt`; a completion may be written but not acknowledged. */
  predicate Held(row: Row, startedAt: Time) {
    (row.status == Running || row.status == Expired || row.status == Completed) && row.startedAt == Some(startedAt)
  }

  /** The row is what the executor believes it to be. */
  ghost predicate Current(e: Executor, row: Row) {
    && Held(row, e.startedAt)
    && row.attempts == e.attempts
    && row.maxRetries == e.maxRetries
    && (e.phase.Planned? ==> e.phase.plan == Plan(row))
  }

  ghost predicate Exclusive(s: State, id: Id, lease: real) {
    && Shaped(s)
    && (forall x :: Live(s, x, id, lease) && id in s.rows ==> Current(s.execs[x], s.rows[id]))
    && (forall x, y :: Live(s, x, id, lease) && Live(s, y, id, lease) ==> x == y)
  }

  /** A row no live executor works on is untouched by outcome writes; so a write that lands is by its holder. */
  ghost predicate TouchedBy(e: Event, id: Id) {
    (e.CompleteWrite? || e.FailWrite? || e.RustFailWrite?) && e.id == id
  }

  lemma WriterIsHolder(s: State, e: Event, id: Id, lease: real)
    requires Exclusive(s, id, lease) && Enabled(s, e) && KeepsLease(s, e, id, lease) && TouchedBy(e, id)
    ensures Live(s, e.x, id, lease)
    ensures id in s.rows ==> Current(s.execs[e.x], s.rows[id])
  {
  }

  /** A reaped row has no live executor. */
  lemma ReapedIsDead(s: State, e: Event, x: ExecId, id: Id, lease: real)
    requires Exclusive(s, id, lease) && e.Reap? && KeepsLease(s, e, id, lease) && Live(s, x, id, lease) && id in s.rows
    ensures !Where(ReapStale(e.maxRunning, e.locked), id, s.rows[id], s.clock)
  {
    assert Current(s.execs[x], s.rows[id]);
  }

  /** An executor live after the step was live before it, unless it has just claimed. */
  lemma LiveBefore(s: State, e: Event, x: ExecId, id: Id, lease: real)
    requires Shaped(s) && Enabled(s, e) && Live(Apply(s, e), x, id, lease)
    ensures Live(s, x, id, lease) || (e.Claim? && e.x == x && e.id == id)
    ensures x in s.execs ==> s.execs[x].startedAt == Apply(s, e).execs[x].startedAt
  {
    assert x in s.execs ==> ExecShape(s, x);
  }

  /** Of the statements that reach a held row, heartbeats and expiry leave it what its holder believes. */
  lemma HarmlessOnHeld(st: Stmt, id: Id, row: Row, now: Time, e: Executor)
    requires Current(e, row)
    requires Where(st, id, row, now) ==> st.Beat? || st.ExpireOverdue?
    ensures Current(e, UpdateRow(st, id, row, now))
  {
  }

  lemma OthersAreHarmless(s: State, e: Event, x: ExecId, id: Id, lease: real)
    requires Exclusive(s, id, lease) && Enabled(s, e) && KeepsLease(s, e, id, lease) && Live(s, x, id, lease)
    requires id in s.rows && !TouchedBy(e, id) && StmtOf(s, e).Some?
    ensures Current(s.execs[x], UpdateRow(StmtOf(s, e).value, id, s.rows[id], s.clock))
  {
    assert Current(s.execs[x], s.rows[id]);
    if e.Reap? {
      ReapedIsDead(s, e, x, id, lease);
    }
    HarmlessOnHeld(StmtOf(s, e).value, id, s.rows[id], s.clock, s.execs[x]);
  }

  /** A completion that its executor does not see acknowledged leaves the row as that executor believes it. */
  lemma HolderStaysCurrent(s: State, e: Event, id: Id, lease: real)
    requires Exclusive(s, id, lease) && Enabled(s, e) && KeepsLease(s, e, id, lease) && TouchedBy(e, id)
    requires id in s.rows && e.x in Apply(s, e).execs
    ensures Current(Apply(s, e).execs[e.x], Apply(s, e).rows[id])
  {
    WriterIsHolder(s, e, id, lease);
    RowStep(s, e, id);
  }

  lemma StepKeepsCurrent(s: State, e: Event, x: ExecId, id: Id, lease: real)
    requires Exclusive(s, id, lease) && Enabled(s, e) && KeepsLease(s, e, id, lease)
    requires Live(Apply(s, e), x, id, lease) && id in Apply(s, e).rows
    ensures Current(Apply(s, e).execs[x], Apply(s, e).rows[id])
  {
    LiveBefore(s, e, x, id, lease);
    if x in s.execs {
      assert ExecShape(s, x) && id in s.issued;
      assert id in s.rows;
      assert Current(s.execs[x], s.rows[id]);
      if TouchedBy(e, id) {
        WriterIsHolder(s, e, id, lease);
        HolderStaysCurrent(s, e, id, lease);
      } else {
        RowStep(s, e, id);
        if StmtOf(s, e).Some? {
          OthersAreHarmless(s, e, x, id, lease);
        }
      }
    } else {
      RowStep(s, e, id);
    }
  }

  lemma StepKeepsUnique(s: State, e: Event, x: ExecId, y: ExecId, id: Id, lease: real)
    requires Exclusive(s, id, lease) && Enabled(s, e) && KeepsLease(s, e, id, lease)
    requires Live(Apply(s, e), x, id, lease) && Live(Apply(s, e), y, id, lease)
    ensures x == y
  {
    LiveBefore(s, e, x, id, lease);
    LiveBefore(s, e, y, id, lease);
    if e.Claim? && (e.x == x || e.x == y) && e.id == id {
      assert s.rows[id].status == Pending;
      assert forall z :: !Live(s, z, id, lease);
    }
  }

  lemma StepKeepsExclusive(s: State, e: Event, id: Id, lease: real)
    requires Exclusive(s, id, lease) && KeepsLease(s, e, id, lease)
    ensures Exclusive(Step(s, e), id, lease)
  {
    StepKeepsShape(s, e);
    if Enabled(s, e) {
      var s' := Apply(s, e);
      forall x | Live(s', x, id, lease) && id in s'.rows ensures Current(s'.execs[x], s'.rows[id]) {
        StepKeepsCurrent(s, e, x, id, lease);
      }
      forall x, y | Live(s', x, id, lease) && Live(s', y, id, lease) ensures x == y {
        StepKeepsUnique(s, e, x, y, id, lease);
      }
    }
  }

  lemma {:induction false} AlwaysExclusive(es: seq<Event>, id: Id, lease: real)
    requires Leased(es, id, lease)
    ensures Exclusive(After(es), id, lease)
  {
    if es != [] {
      var n := |es| - 1;
      AlwaysExclusive(es[..n], id, lease);
      StepKeepsExclusive(After(es[..n]), es[n], id, lease);
    }
  }

  /** The same at any moment of the run. */
  lemma ExclusiveAt(es: seq<Event>, n: nat, id: Id, lease: real)
    requires n <= |es| && Leased(es, id, lease)
    ensures Exclusive(After(es[..n]), id, lease)
    ensures n < |es| ==> KeepsLease(After(es[..n]), es[n], id, lease)
  {
    LeasedPrefix(es, n, id, lease);
    AlwaysExclusive(es[..n], id, lease);
  }

  /**
   * Mutual exclusion. In every state of a run that keeps a task's lease, any number of workers and reapers, and
   * whatever is expired, cancelled, requeued or deleted: the task has at most one live executor, and while it
   * has one its row is deleted, or still in the hands of exactly that executor's claim, with its attempts:
   * running, expired, or completed by a write the executor does not know to have landed.
   */
  lemma MutualExclusion(es: seq<Event>, id: Id, lease: real, x: ExecId, y: ExecId)
    requires Leased(es, id, lease)
    requires Live(After(es), x, id, lease) && Live(After(es), y, id, lease)
    ensures x == y
    ensures id in After(es).rows ==> Current(After(es).execs[x], After(es).rows[id])
  {
    AlwaysExclusive(es, id, lease);
  }

  // ---- Outcomes stick ------------------------------------------------------------------------

  predicate ByIdWrite(st: Stmt) {
    st.MarkRunning? || st.MarkCompleted? || st.MarkFailure? || st.MarkManualRetry?
  }

  /** Statements other than claims and outcome writes leave settled rows alone, and failed ones but for a requeue. */
  lemma GuardedStatements(st: Stmt, id: Id, row: Row, now: Time)
    requires !ByIdWrite(st) && Terminal(row.status) && st != ResetFailed(id)
    ensures UpdateRow(st, id, row, now) == row
  {
  }

  lemma OthersLeaveSettled(s: State, e: Event, id: Id)
    requires Enabled(s, e) && id in s.rows && id in Apply(s, e).rows && Terminal(s.rows[id].status)
    requires !TouchedBy(e, id) && !(e.ManualRetryWrite? && e.id == id) && !(e.Enqueue? && e.id == id)
    requires e != Requeue(id)
    ensures Apply(s, e).rows[id] == s.rows[id]
  {
    RowStep(s, e, id);
    if StmtOf(s, e).Some? && !ByIdWrite(StmtOf(s, e).value) {
      GuardedStatements(StmtOf(s, e).value, id, s.rows[id], s.clock);
    }
  }

  /** Only two kinds of step change a row whose outcome is settled. */
  ghost predicate MayChange(s: State, e: Event, id: Id, lease: real)
    requires id in s.rows
  {
    || (s.rows[id].status == Failed && e == Requeue(id))
    || (s.rows[id].status in {Expired, Completed} && TouchedBy(e, id) && Live(s, e.x, id, lease))
  }

  lemma HoldersRowIsHeld(s: State, e: Event, id: Id, lease: real)
    requires Exclusive(s, id, lease) && Enabled(s, e) && KeepsLease(s, e, id, lease) && TouchedBy(e, id) && id in s.rows
    ensures Live(s, e.x, id, lease) && s.rows[id].startedAt.Some? && s.rows[id].status in {Running, Expired, Completed}
  {
    WriterIsHolder(s, e, id, lease);
  }

  lemma SettledStep(s: State, e: Event, id: Id, lease: real)
    requires Exclusive(s, id, lease) && KeepsLease(s, e, id, lease)
    requires id in s.rows && id in Step(s, e).rows && Terminal(s.rows[id].status)
    ensures Step(s, e).rows[id] == s.rows[id] || MayChange(s, e, id, lease)
  {
    if Enabled(s, e) {
      if TouchedBy(e, id) {
        HoldersRowIsHeld(s, e, id, lease);
      } else if e != Requeue(id) {
        OthersLeaveSettled(s, e, id);
      }
    }
  }

  /** The same along a leased run. */
  lemma SettledAt(es: seq<Event>, j: nat, id: Id, lease: real)
    requires Leased(es, id, lease) && j < |es|
    requires id in After(es[..j]).rows && Terminal(After(es[..j]).rows[id].status) && id in After(es[..j + 1]).rows
    ensures After(es[..j + 1]).rows[id] == After(es[..j]).rows[id] || MayChange(After(es[..j]), es[j], id, lease)
  {
    AfterPrefix(es, j);
    ExclusiveAt(es, j, id, lease);
    SettledStep(After(es[..j]), es[j], id, lease);
  }

  lemma {:induction false} PresentBetween(es: seq<Event>, i: nat, j: nat, n: nat, id: Id)
    requires i <= j <= n <= |es| && id in After(es[..i]).rows && id in After(es[..n]).rows
    ensures id in After(es[..j]).rows
    decreases n - j
  {
    if j < n {
      PresentBetween(es, i, j + 1, n, id);
      AfterPrefix(es, j);
      IssuedForever(es, i, j, id);
    }
  }

  lemma {:induction false} IssuedForever(es: seq<Event>, i: nat, j: nat, id: Id)
    requires i <= j <= |es| && id in After(es[..i]).rows
    ensures id in After(es[..j]).issued
  {
    if i == j {
      AlwaysShaped(es[..i]);
    } else {
      IssuedForever(es, i, j - 1, id);
      AfterPrefix(es, j - 1);
    }
  }

  /** A cancelled row never changes again for as long as it exists. */
  lemma {:induction false} CancelledSticks(es: seq<Event>, lease: real, i: nat, j: nat, id: Id)
    requires Leased(es, id, lease) && i <= j <= |es|
    requires id in After(es[..i]).rows && After(es[..i]).rows[id].status == Cancelled
    requires id in After(es[..j]).rows
    ensures After(es[..j]).rows[id] == After(es[..i]).rows[id]
    decreases j
  {
    if i < j {
      PresentBetween(es, i, j - 1, j, id);
      CancelledSticks(es, lease, i, j - 1, id);
      SettledAt(es, j - 1, id, lease);
    }
  }

  /** A failed row stays as it is until it is requeued. */
  lemma {:induction false} FailedUntilRequeued(es: seq<Event>, lease: real, i: nat, j: nat, id: Id)
    requires Leased(es, id, lease) && i <= j <= |es|
    requires id in After(es[..i]).rows && After(es[..i]).rows[id].status == Failed
    requires id in After(es[..j]).rows && forall k :: i <= k < j ==> es[k] != Requeue(id)
    ensures After(es[..j]).rows[id] == After(es[..i]).rows[id]
    decreases j
  {
    if i < j {
      PresentBetween(es, i, j - 1, j, id);
      FailedUntilRequeued(es, lease, i, j - 1, id);
      SettledAt(es, j - 1, id, lease);
    }
  }

  /** The row is there and has the status from moment i to moment j. */
  ghost predicate StaysIn(es: seq<Event>, i: nat, j: nat, id: Id, status: Status)
    requires i <= j <= |es|
  {
    forall k :: i <= k <= j ==> id in After(es[..k]).rows && After(es[..k]).rows[id].status == status
  }

  lemma NotClaimed(s: State, e: Event, id: Id, x: ExecId, lease: real)
    requires Shaped(s) && id in s.rows && s.rows[id].status != Pending && Live(Step(s, e), x, id, lease)
    ensures Live(s, x, id, lease)
  {
    if Enabled(s, e) {
      LiveBefore(s, e, x, id, lease);
    }
  }

  /** No executor joins while a row is not pending. */
  lemma {:induction false} NoNewExecutor(es: seq<Event>, i: nat, j: nat, id: Id, status: Status, x: ExecId, lease: real)
    requires i <= j <= |es| && StaysIn(es, i, j, id, status) && status != Pending
    requires Live(After(es[..j]), x, id, lease)
    ensures Live(After(es[..i]), x, id, lease)
    decreases j
  {
    if i < j {
      AfterPrefix(es, j - 1);
      AlwaysShaped(es[..j - 1]);
      NotClaimed(After(es[..j - 1]), es[j - 1], id, x, lease);
      NoNewExecutor(es, i, j - 1, id, status, x, lease);
    }
  }

  /**
   * An expired or completed row is left only by an executor that was already at work on it when it became so:
   * `i` is any moment from which the row has had its status, `j` the step that changes it.
   */
  lemma LeftByItsExecutor(es: seq<Event>, lease: real, i: nat, j: nat, id: Id, status: Status)
    requires Leased(es, id, lease) && i <= j < |es|
    requires StaysIn(es, i, j, id, status) && status in {Expired, Completed}
    requires id in After(es[..j + 1]).rows && After(es[..j + 1]).rows[id] != After(es[..j]).rows[id]
    ensures TouchedBy(es[j], id) && Live(After(es[..i]), es[j].x, id, lease)
  {
    SettledAt(es, j, id, lease);
    NoNewExecutor(es, i, j, id, status, es[j].x, lease);
  }

  lemma CompletedSince(es: seq<Event>, j: nat, id: Id) returns (n: nat)
    requires j <= |es| && id in After(es[..j]).rows && After(es[..j]).rows[id].status == Completed
    ensures n < j && es[n].CompleteWrite? && es[n].id == id && Enabled(After(es[..n]), es[n])
    ensures StaysIn(es, n + 1, j, id, Completed)
  {
    n := TerminalRowsRecordTheirStep(es[..j], id);
    assert es[..j][..n] == es[..n];
    forall k | n + 1 <= k <= j ensures id in After(es[..k]).rows && After(es[..k]).rows[id].status == Completed {
      assert es[..j][..k] == es[..k];
    }
  }

  /**
   * And a completed row is left only by the executor that completed it, whose completion took effect without
   * being acknowledged: `n` is that completion, and the row has not changed from then to `j`.
   */
  lemma CompletedLeftUnacknowledged(es: seq<Event>, lease: real, j: nat, id: Id) returns (n: nat)
    requires Leased(es, id, lease) && j < |es|
    requires id in After(es[..j]).rows && After(es[..j]).rows[id].status == Completed
    requires id in After(es[..j + 1]).rows && After(es[..j + 1]).rows[id] != After(es[..j]).rows[id]
    ensures n < j && es[n].CompleteWrite? && es[n].id == id && !es[n].acked
    ensures TouchedBy(es[j], id) && es[j].x == es[n].x
    ensures StaysIn(es, n + 1, j, id, Completed)
  {
    n := CompletedSince(es, j, id);
    LeftByItsExecutor(es, lease, n + 1, j, id, Completed);
    AfterPrefix(es, n);
    ExclusiveAt(es, n, id, lease);
    CompleterStays(After(es[..n]), es[n], id, es[j].x, lease);
  }

  /** Whoever is live after a completion is the one that wrote it, unacknowledged. */
  lemma CompleterStays(s: State, e: Event, id: Id, x: ExecId, lease: real)
    requires Exclusive(s, id, lease) && Enabled(s, e) && KeepsLease(s, e, id, lease)
    requires e.CompleteWrite? && e.id == id && Live(Step(s, e), x, id, lease)
    ensures x == e.x && !e.acked
  {
    WriterIsHolder(s, e, id, lease);
    LiveBefore(s, e, x, id, lease);
  }

  /** No completion of the task takes effect unacknowledged. */
  predicate Acknowledged(es: seq<Event>, id: Id) {
    forall n :: 0 <= n < |es| && es[n].CompleteWrite? && es[n].id == id ==> es[n].acked
  }

  /** So where completions are acknowledged, a completed row never changes again for as long as it exists. */
  lemma {:induction false} CompletedSticks(es: seq<Event>, lease: real, i: nat, j: nat, id: Id)
    requires Leased(es, id, lease) && Acknowledged(es, id) && i <= j <= |es|
    requires id in After(es[..i]).rows && After(es[..i]).rows[id].status == Completed
    requires id in After(es[..j]).rows
    ensures After(es[..j]).rows[id] == After(es[..i]).rows[id]
    decreases j
  {
    if i < j {
      PresentBetween(es, i, j - 1, j, id);
      CompletedSticks(es, lease, i, j - 1, id);
      if After(es[..j]).rows[id] != After(es[..j - 1]).rows[id] {
        var _ := CompletedLeftUnacknowledged(es, lease, j - 1, id);
      }
    }
  }

  /** Completed and cancelled rows never change: cancelled ones in any case, completed ones when acknowledged. */
  lemma {:induction false} OutcomesStick(es: seq<Event>, lease: real, i: nat, j: nat, id: Id)
    requires Leased(es, id, lease) && i <= j <= |es|
    requires id in After(es[..i]).rows && After(es[..i]).rows[id].status in {Completed, Cancelled}
    requires After(es[..i]).rows[id].status == Completed ==> Acknowledged(es, id)
    requires id in After(es[..j]).rows
    ensures After(es[..j]).rows[id] == After(es[..i]).rows[id]
  {
    if After(es[..i]).rows[id].status == Cancelled {
      CancelledSticks(es, lease, i, j, id);
    } else {
      CompletedSticks(es, lease, i, j, id);
    }
  }

  // ---- Cross-language agreement --------------------------------------------------------------

  /**
   * While an executor is live, the Rust failure write from claim-time values and the Python one from the
   * row as it now is agree whenever the row uses the backoff schedule.
   */
  lemma {:induction false} FailureWritesAgree(es: seq<Event>, lease: real, x: ExecId, id: Id, error: string)
    requires Leased(es, id, lease) && Live(After(es), x, id, lease) && id in After(es).rows
    requires After(es).execs[x].attempts < I32_MAX && After(es).rows[id].retryBackoff
    ensures var s := After(es); var e := s.execs[x]; var row := s.rows[id];
            && PlanFromClaim(e.attempts, e.maxRetries) == Some(Plan(row))
            && (e.phase.Planned? ==> e.phase.plan == Plan(row))
  {
    AlwaysExclusive(es, id, lease);
    BelievesAgree(After(es), x, id, lease);
  }

  lemma BelievesAgree(s: State, x: ExecId, id: Id, lease: real)
    requires Exclusive(s, id, lease) && Live(s, x, id, lease) && id in s.rows
    requires s.execs[x].attempts < I32_MAX && s.rows[id].retryBackoff
    ensures var e := s.execs[x]; var row := s.rows[id];
            && PlanFromClaim(e.attempts, e.maxRetries) == Some(Plan(row))
            && (e.phase.Planned? ==> e.phase.plan == Plan(row))
  {
    var row := s.rows[id];
    assert Current(s.execs[x], row);
    assert RowShape(row, s.clock);
    PlansAgree(row);
  }
}
