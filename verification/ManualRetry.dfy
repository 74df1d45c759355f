/**
 * What becomes of a RetryError raised in a subprocess. The subprocess makes the row pending, due after the
 * countdown, and exits as if it had succeeded; its parent, which knows nothing of this, has its own outcome
 * still to write.
 */
module ManualRetry {
  import opened Prelude
  import opened TaskTable
  import opened RustTwin
  import opened QueueMachine
  import opened QueueShape
  import opened QueueLedger
  import opened Overlap

  /** Executor `x` writes its outcome. */
  predicate OutcomeBy(e: Event, x: ExecId) {
    (e.CompleteWrite? || e.FailWrite? || e.RustFailWrite?) && e.x == x
  }

  /** That outcome is its last: it is not a completion that it sees fail, and after which it reports a failure. */
  predicate EndedBy(e: Event, x: ExecId) {
    OutcomeBy(e, x) && (e.CompleteWrite? ==> e.acked)
  }

  ghost predicate SoleHolder(s: State, x: ExecId, id: Id) {
    Holds(s, x, id) && forall y :: Holds(s, y, id) ==> y == x
  }

  // ---- Between the retry and the parent's last outcome --------------------------------------------

  /** Executor and row as the retry found them, and when the row is due. */
  datatype Retry = Retry(x: ExecId, id: Id, executor: Executor, row: Row, due: Time)

  /** The row is cancelled, deleted or expired, or completed by the executor without its knowing. */
  ghost predicate Removes(s: State, e: Event, r: Retry) {
    || e == Cancel(r.id)
    || (e.Delete? && r.id in e.ids)
    || (e.Expire? && r.row.ttl.Some? && r.row.ttl.value > 0.0 && r.row.createdAt + r.row.ttl.value < s.clock)
    || (e.CompleteWrite? && e.x == r.x && Enabled(s, e))
  }

  /** The row as the retry left it, unless cancelled, expired or completed since. */
  predicate PutBack(row: Row, r: Retry) {
    && row.status in {Pending, Cancelled, Expired, Completed}
    && row.startedAt.None? && row.scheduledAt == r.due && row.attempts == r.row.attempts + 1
    && row.maxRetries == r.row.maxRetries && row.createdAt == r.row.createdAt && row.ttl == r.row.ttl
  }

  /** The executor may have read the row in the meantime; it then plans from the attempts of the retry. */
  predicate StillAtWork(e: Executor, r: Retry) {
    && e.task == r.id && e.manuallyRetried
    && e.attempts == r.executor.attempts && e.maxRetries == r.executor.maxRetries
    && (e.phase.Planned? ==> (e.phase.plan.RetryAfter? <==> r.row.attempts + 2 < r.row.maxRetries))
  }

  ghost predicate IsPending(s: State, id: Id) {
    id in s.rows && s.rows[id].status == Pending
  }

  ghost predicate Waits(s: State, r: Retry) {
    && r.id in s.issued && r.x in s.seen
    && (forall y :: Holds(s, y, r.id) ==> y == r.x)
    && (r.x in s.execs ==> StillAtWork(s.execs[r.x], r))
    && (r.id in s.rows ==> PutBack(s.rows[r.id], r))
  }

  lemma RetryPutsBack(s: State, x: ExecId, id: Id, message: string, countdown: real)
    requires Shaped(s) && id in s.rows && SoleHolder(s, x, id)
    requires Enabled(s, ManualRetryWrite(x, id, message, countdown))
    ensures var s' := Step(s, ManualRetryWrite(x, id, message, countdown));
            IsPending(s', id) && Waits(s', Retry(x, id, s.execs[x], s.rows[id], s.clock + countdown))
  {
    var s' := Step(s, ManualRetryWrite(x, id, message, countdown));
    RowStep(s, ManualRetryWrite(x, id, message, countdown), id);
    assert ExecShape(s, x);
    forall y | Holds(s', y, id) ensures y == x {
      assert Holds(s, y, id);
    }
  }

  /** Of the statements that can reach it now, only cancelling, expiry and a completion change the row. */
  lemma WaitingRow(st: Stmt, row: Row, now: Time, r: Retry)
    requires PutBack(row, r) && RowShape(row, now)
    requires Where(st, r.id, row, now) ==>
               st.Beat? || st.ReapStale? || st.ResetFailed? || Takes(st)
    ensures PutBack(UpdateRow(st, r.id, row, now), r)
    ensures UpdateRow(st, r.id, row, now).status == Pending
            <==> row.status == Pending && !(Takes(st) && Where(st, r.id, row, now))
  {
  }

  predicate Takes(st: Stmt) {
    st.CancelPending? || st.ExpireOverdue? || st.MarkCompleted?
  }

  /** The step is neither the executor's last outcome nor a claim of the task. */
  ghost predicate Passes(s: State, e: Event, r: Retry) {
    !(Enabled(s, e) && EndedBy(e, r.x)) && !Hits(Claims, s, e, r.id)
  }

  lemma ReachesWaiting(s: State, e: Event, r: Retry)
    requires Shaped(s) && Waits(s, r) && Enabled(s, e) && Passes(s, e, r) && r.id in s.rows && StmtOf(s, e).Some?
    ensures var st := StmtOf(s, e).value;
            && (Where(st, r.id, s.rows[r.id], s.clock) ==>
                  st.Beat? || st.ReapStale? || st.ResetFailed? || Takes(st))
            && (IsPending(s, r.id) ==> (Takes(st) && Where(st, r.id, s.rows[r.id], s.clock) <==> Removes(s, e, r)))
  {
    assert RowShape(s.rows[r.id], s.clock);
    if e.CompleteWrite? || e.FailWrite? || e.RustFailWrite? || e.ManualRetryWrite? {
      assert Holds(s, e.x, e.id);
    }
  }

  lemma WaitingRowStep(s: State, e: Event, r: Retry)
    requires Shaped(s) && Waits(s, r) && Enabled(s, e) && Passes(s, e, r)
    ensures r.id in Apply(s, e).rows ==> PutBack(Apply(s, e).rows[r.id], r)
    ensures IsPending(Apply(s, e), r.id) <==> IsPending(s, r.id) && !Removes(s, e, r)
  {
    if r.id in s.rows {
      assert !(e.Enqueue? && e.id == r.id);
      RowStep(s, e, r.id);
      if StmtOf(s, e).Some? {
        assert RowShape(s.rows[r.id], s.clock);
        ReachesWaiting(s, e, r);
        WaitingRow(StmtOf(s, e).value, s.rows[r.id], s.clock, r);
      }
    }
  }

  lemma WaitingExecStep(s: State, e: Event, r: Retry, y: ExecId)
    requires Shaped(s) && Waits(s, r) && Enabled(s, e) && Passes(s, e, r) && Holds(Apply(s, e), y, r.id)
    ensures y == r.x && y in s.execs && StillAtWork(Apply(s, e).execs[y], r)
  {
    if y in s.execs {
      assert ExecShape(s, y);
      assert Holds(s, y, r.id);
    }
  }

  lemma WaitsStep(s: State, e: Event, r: Retry)
    requires Shaped(s) && Waits(s, r) && Passes(s, e, r)
    ensures Waits(Step(s, e), r)
    ensures IsPending(Step(s, e), r.id) <==> IsPending(s, r.id) && !Removes(s, e, r)
  {
    if Enabled(s, e) {
      var s' := Apply(s, e);
      WaitingRowStep(s, e, r);
      forall y | Holds(s', y, r.id) ensures y == r.x && StillAtWork(s'.execs[y], r) {
        WaitingExecStep(s, e, r, y);
      }
      if r.x in s'.execs {
        assert r.x in s.execs;
        assert s'.execs[r.x].task == r.id;
        assert Holds(s', r.x, r.id);
      }
    }
  }

  // ---- Over a run ----------------------------------------------------------------------------

  /** es[i] is the manual retry of a task on which no other executor is at work. */
  ghost predicate Retries(es: seq<Event>, i: nat, x: ExecId, id: Id) {
    && i < |es| && es[i].ManualRetryWrite? && es[i].x == x && es[i].id == id
    && Enabled(After(es[..i]), es[i]) && id in After(es[..i]).rows && SoleHolder(After(es[..i]), x, id)
  }

  ghost function RetryOf(es: seq<Event>, i: nat, x: ExecId, id: Id): Retry
    requires Retries(es, i, x, id)
  {
    var s := After(es[..i]);
    Retry(x, id, s.execs[x], s.rows[id], s.clock + es[i].countdown)
  }

  ghost predicate NotEnded(es: seq<Event>, i: nat, k: nat, x: ExecId)
    requires k <= |es|
  {
    forall n :: i < n < k ==> !(Enabled(After(es[..n]), es[n]) && EndedBy(es[n], x))
  }

  ghost predicate ClaimedBetween(es: seq<Event>, i: nat, k: nat, id: Id)
    requires k <= |es|
  {
    exists n :: i < n < k && Hits(Claims, After(es[..n]), es[n], id)
  }

  ghost predicate Undisturbed(es: seq<Event>, i: nat, k: nat, r: Retry)
    requires k <= |es|
  {
    forall n :: i < n < k ==> !RemovesAt(es, n, r)
  }

  ghost predicate RemovesAt(es: seq<Event>, n: nat, r: Retry)
    requires n < |es|
  {
    Removes(After(es[..n]), es[n], r)
  }

  ghost predicate PassesAt(es: seq<Event>, n: nat, r: Retry)
    requires n < |es|
  {
    Passes(After(es[..n]), es[n], r)
  }

  lemma WaitsFrom(es: seq<Event>, i: nat, x: ExecId, id: Id)
    requires Retries(es, i, x, id)
    ensures Waits(After(es[..i + 1]), RetryOf(es, i, x, id)) && IsPending(After(es[..i + 1]), id)
  {
    AlwaysShaped(es[..i]);
    AfterPrefix(es, i);
    RetryPutsBack(After(es[..i]), x, id, es[i].message, es[i].countdown);
  }

  lemma WaitsAt(es: seq<Event>, k: nat, r: Retry)
    requires k < |es| && Waits(After(es[..k]), r) && PassesAt(es, k, r)
    ensures Waits(After(es[..k + 1]), r)
    ensures IsPending(After(es[..k + 1]), r.id) <==> IsPending(After(es[..k]), r.id) && !RemovesAt(es, k, r)
  {
    AlwaysShaped(es[..k]);
    AfterPrefix(es, k);
    WaitsStep(After(es[..k]), es[k], r);
  }

  lemma {:induction false} WaitsUntil(es: seq<Event>, i: nat, k: nat, r: Retry)
    requires i < k <= |es| && forall n :: i < n < k ==> PassesAt(es, n, r)
    requires Waits(After(es[..i + 1]), r) && IsPending(After(es[..i + 1]), r.id)
    ensures Waits(After(es[..k]), r) && (IsPending(After(es[..k]), r.id) <==> Undisturbed(es, i, k, r))
    decreases k
  {
    if k > i + 1 {
      WaitsUntil(es, i, k - 1, r);
      WaitsAt(es, k - 1, r);
    }
  }

  /**
   * Until its executor's last outcome or a claim, the row keeps waiting for the end of the countdown; it is pending
   * unless it has been cancelled, deleted or expired, or completed without its executor knowing.
   */
  lemma WaitsAlong(es: seq<Event>, i: nat, k: nat, x: ExecId, id: Id)
    requires Retries(es, i, x, id) && i < k <= |es| && NotEnded(es, i, k, x) && !ClaimedBetween(es, i, k, id)
    ensures Waits(After(es[..k]), RetryOf(es, i, x, id))
    ensures IsPending(After(es[..k]), id) <==> Undisturbed(es, i, k, RetryOf(es, i, x, id))
  {
    WaitsFrom(es, i, x, id);
    forall n | i < n < k ensures PassesAt(es, n, RetryOf(es, i, x, id)) {
    }
    WaitsUntil(es, i, k, RetryOf(es, i, x, id));
  }

  /** es[k] claims the task for a fresh executor, the countdown is over, and nothing has taken the row away. */
  ghost predicate ClaimsInTime(es: seq<Event>, i: nat, k: nat, r: Retry)
    requires k < |es|
  {
    && es[k].Claim? && es[k].id == r.id && es[k].x !in After(es[..k]).seen
    && After(es[..k]).clock >= r.due
    && Undisturbed(es, i, k, r)
  }

  lemma ClaimedExactlyWhen(s: State, e: Event, r: Retry)
    requires Waits(s, r)
    ensures Hits(Claims, s, e, r.id)
            <==> e.Claim? && e.id == r.id && e.x !in s.seen && s.clock >= r.due && IsPending(s, r.id)
  {
  }

  lemma {:induction false} FirstClaim(es: seq<Event>, i: nat, j: nat, id: Id) returns (k: nat)
    requires j <= |es| && ClaimedBetween(es, i, j, id)
    ensures i < k < j && Hits(Claims, After(es[..k]), es[k], id) && !ClaimedBetween(es, i, k, id)
    decreases j
  {
    k :| i < k < j && Hits(Claims, After(es[..k]), es[k], id);
    if ClaimedBetween(es, i, k, id) {
      k := FirstClaim(es, i, k, id);
    }
  }

  /** The executor's last outcome is es[j]. */
  ghost predicate LastOutcome(es: seq<Event>, i: nat, j: nat, x: ExecId) {
    i < j < |es| && EndedBy(es[j], x) && Enabled(After(es[..j]), es[j]) && NotEnded(es, i, j, x)
  }

  /** Before that outcome the task is claimed exactly when a claim comes in time. */
  lemma ClaimedBeforeOutcome(es: seq<Event>, i: nat, j: nat, x: ExecId, id: Id)
    requires Retries(es, i, x, id) && LastOutcome(es, i, j, x)
    ensures ClaimedBetween(es, i, j, id) <==> exists k :: i < k < j && ClaimsInTime(es, i, k, RetryOf(es, i, x, id))
  {
    var r := RetryOf(es, i, x, id);
    if ClaimedBetween(es, i, j, id) {
      var k := FirstClaim(es, i, j, id);
      WaitsAlong(es, i, k, x, id);
      ClaimedExactlyWhen(After(es[..k]), es[k], r);
      assert ClaimsInTime(es, i, k, r);
    } else if k :| i < k < j && ClaimsInTime(es, i, k, r) {
      assert !ClaimedBetween(es, i, k, id);
      WaitsAlong(es, i, k, x, id);
      ClaimedExactlyWhen(After(es[..k]), es[k], r);
    }
  }

  ghost predicate ReturnedBy(es: seq<Event>, j: nat, id: Id)
    requires j < |es|
  {
    IsPending(After(es[..j + 1]), id)
  }

  /** The outcome is a failure that finds the row and has a try left, after the manual retry has taken one. */
  ghost predicate FailsWithTriesLeft(es: seq<Event>, j: nat, r: Retry)
    requires j < |es|
  {
    && r.id in After(es[..j]).rows
    && (|| (es[j].FailWrite? && r.row.attempts + 2 < r.row.maxRetries)
        || (es[j].RustFailWrite? && r.executor.attempts + 1 < r.executor.maxRetries))
  }

  lemma OutcomeOnWaiting(s: State, e: Event, r: Retry)
    requires Waits(s, r) && Shaped(s) && Enabled(s, e) && EndedBy(e, r.x)
    ensures IsPending(Step(s, e), r.id)
            <==> && r.id in s.rows
                 && (|| (e.FailWrite? && r.row.attempts + 2 < r.row.maxRetries)
                     || (e.RustFailWrite? && r.executor.attempts + 1 < r.executor.maxRetries))
    ensures e.CompleteWrite? && r.id in s.rows ==>
              r.id in Step(s, e).rows && Step(s, e).rows[r.id].status == Completed
    ensures Idle(Step(s, e), r.id) && r.id in Step(s, e).issued && (r.id in Step(s, e).rows ==> r.id in s.rows)
  {
    assert StillAtWork(s.execs[r.x], r);
    forall y ensures !Holds(Step(s, e), y, r.id) {
      if Holds(Step(s, e), y, r.id) {
        HoldsBefore(s, e, y, r.id);
      }
    }
    if r.id in s.rows {
      RowStep(s, e, r.id);
    }
  }

  /**
   * When a manual retry leads to another try: the task is claimed before the parent's last outcome, or that
   * outcome sends the row back to pending, exactly when some claim comes after the countdown, with the row not
   * taken away before, or the last outcome is a failure with tries left, as it may be after a completion that
   * was not acknowledged.
   */
  lemma RetriedExactlyWhen(es: seq<Event>, i: nat, j: nat, x: ExecId, id: Id)
    requires Retries(es, i, x, id) && LastOutcome(es, i, j, x)
    ensures ClaimedBetween(es, i, j, id) || ReturnedBy(es, j, id)
            <==> || (exists k :: i < k < j && ClaimsInTime(es, i, k, RetryOf(es, i, x, id)))
                 || FailsWithTriesLeft(es, j, RetryOf(es, i, x, id))
  {
    ClaimedBeforeOutcome(es, i, j, x, id);
    if !ClaimedBetween(es, i, j, id) {
      WaitsAlong(es, i, j, x, id);
      AlwaysShaped(es[..j]);
      AfterPrefix(es, j);
      OutcomeOnWaiting(After(es[..j]), es[j], RetryOf(es, i, x, id));
    }
  }

  lemma {:induction false} ClockGrows(es: seq<Event>, i: nat, j: nat)
    requires i <= j <= |es|
    ensures After(es[..i]).clock <= After(es[..j]).clock
    decreases j
  {
    if i < j {
      ClockGrows(es, i, j - 1);
      AfterPrefix(es, j - 1);
    }
  }

  lemma TooEarlyToClaim(es: seq<Event>, i: nat, j: nat, x: ExecId, id: Id)
    requires Retries(es, i, x, id) && LastOutcome(es, i, j, x)
    requires After(es[..j]).clock < After(es[..i]).clock + es[i].countdown
    ensures !ClaimedBetween(es, i, j, id)
  {
    ClaimedBeforeOutcome(es, i, j, x, id);
    forall k | i < k < j ensures After(es[..k]).clock < RetryOf(es, i, x, id).due {
      ClockGrows(es, k, j);
    }
  }

  lemma CompletionEndsIt(es: seq<Event>, i: nat, j: nat, x: ExecId, id: Id)
    requires Retries(es, i, x, id) && LastOutcome(es, i, j, x) && es[j].CompleteWrite? && !ClaimedBetween(es, i, j, id)
    ensures var s := After(es[..j + 1]);
            Idle(s, id) && id in s.issued && (id in s.rows ==> s.rows[id].status == Completed)
  {
    WaitsAlong(es, i, j, x, id);
    AlwaysShaped(es[..j]);
    AfterPrefix(es, j);
    OutcomeOnWaiting(After(es[..j]), es[j], RetryOf(es, i, x, id));
  }

  /**
   * The usual case. The parent completes the task, and knows it, before the countdown is over: the retry is lost.
   * No one has claimed the task in between, and from then on, at every moment `n`, the row if it exists is
   * completed, and no executor is at work on the task.
   */
  lemma PromptCompletionLosesRetry(es: seq<Event>, i: nat, j: nat, n: nat, x: ExecId, id: Id)
    requires Retries(es, i, x, id) && LastOutcome(es, i, j, x) && es[j].CompleteWrite? && j < n <= |es|
    requires After(es[..j]).clock < After(es[..i]).clock + es[i].countdown
    ensures !ClaimedBetween(es, i, j, id)
    ensures Idle(After(es[..n]), id)
    ensures id in After(es[..n]).rows ==> After(es[..n]).rows[id].status == Completed
  {
    TooEarlyToClaim(es, i, j, x, id);
    CompletionEndsIt(es, i, j, x, id);
    if id in After(es[..j + 1]).rows {
      SettledForGood(es, j + 1, n, id);
    } else {
      GoneForGood(es, j + 1, n, id);
    }
  }

  /**
   * The other side. With no countdown to speak of, any worker may claim the task before the parent completes
   * it: the task then runs again, while its row already says completed.
   */
  lemma QuickRetryRunsAgain(
      s: State, x: ExecId, id: Id, message: string, countdown: real, y: ExecId, w: WorkerId, result: Option<string>)
    requires id in s.rows && Enabled(s, ManualRetryWrite(x, id, message, countdown)) && countdown <= 0.0
    requires y !in s.seen && x in s.seen
    ensures var s1 := Step(s, ManualRetryWrite(x, id, message, countdown));
            var s2 := Step(s1, Claim(y, id, w));
            var s3 := Step(s2, CompleteWrite(x, id, result, true));
            && Hits(Claims, s1, Claim(y, id, w), id)
            && s3.rows[id].status == Completed && Holds(s3, y, id) && s3.execs[y].phase == Executing
  {
    var s1 := Step(s, ManualRetryWrite(x, id, message, countdown));
    RowStep(s, ManualRetryWrite(x, id, message, countdown), id);
    var s2 := Step(s1, Claim(y, id, w));
    RowStep(s1, Claim(y, id, w), id);
    RowStep(s2, CompleteWrite(x, id, result, true), id);
  }
}
