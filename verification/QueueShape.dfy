/** What holds of rows and executors in every run: late, repeated and stale writers included. */
module QueueShape {
  import opened Prelude
  import opened TaskTable
  import opened RustTwin
  import opened QueueMachine

  predicate NotAfter(t: Option<Time>, now: Time) {
    t.Some? ==> t.value <= now
  }

  ghost predicate RowShape(r: Row, now: Time) {
    && r.attempts >= 0
    && r.createdAt <= now
    && NotAfter(r.startedAt, now) && NotAfter(r.completedAt, now) && NotAfter(r.lastHeartbeat, now)
    && (r.status == Pending ==> r.startedAt.None? && r.worker.None?)
    && (r.status == Running ==>
          && r.startedAt.Some? && r.worker.Some? && r.lastHeartbeat.Some?
          && r.scheduledAt <= r.startedAt.value <= r.lastHeartbeat.value)
    && (Terminal(r.status) ==> r.completedAt.Some?)
    && (r.status == Failed ==> r.attempts >= 1 && r.attempts >= r.maxRetries)
    && (r.status == Expired ==>
          r.completedAt.Some? && r.ttl.Some? && r.ttl.value > 0.0 && r.createdAt + r.ttl.value < r.completedAt.value)
    && (r.status == Cancelled ==> r.startedAt.None?)
  }

  /** A plan fits the limit it was made under. */
  ghost predicate PlanFits(plan: FailPlan, maxRetries: int) {
    match plan
    case RetryAfter(attempts, _) => 1 <= attempts < maxRetries
    case GiveUp(attempts) => 1 <= attempts && maxRetries <= attempts
  }

  ghost predicate ExecShape(s: State, x: ExecId)
    requires x in s.execs
  {
    var e := s.execs[x];
    && x in s.seen
    && e.task in s.issued
    && e.startedAt <= s.clock
    && e.attempts >= 0
    && (e.task in s.rows ==> e.maxRetries == s.rows[e.task].maxRetries)
    && (e.phase.Planned? ==> PlanFits(e.phase.plan, e.maxRetries))
  }

  ghost predicate Shaped(s: State) {
    && s.rows.Keys <= s.issued
    && (forall id :: id in s.rows ==> RowShape(s.rows[id], s.clock))
    && (forall x :: x in s.execs ==> ExecShape(s, x))
  }

  lemma PlanOfRowFits(row: Row)
    requires row.attempts >= 0
    ensures PlanFits(Plan(row), row.maxRetries)
  {
  }

  lemma PlanFromClaimFits(attempts: int, maxRetries: int)
    requires attempts >= 0 && PlanFromClaim(attempts, maxRetries).Some?
    ensures PlanFits(PlanFromClaim(attempts, maxRetries).value, maxRetries)
  {
  }

  /** The side condition a statement of the machine meets on the rows it writes. */
  ghost predicate StmtFits(st: Stmt, row: Row, now: Time) {
    match st
    case MarkRunning(_, _) => Eligible(row, {Pending}, now)
    case MarkFailure(_, plan, _) => PlanFits(plan, row.maxRetries)
    case _ => true
  }

  lemma StatementKeepsShape(st: Stmt, id: Id, row: Row, now: Time)
    requires RowShape(row, now) && (Where(st, id, row, now) ==> StmtFits(st, row, now))
    ensures RowShape(UpdateRow(st, id, row, now), now)
    ensures UpdateRow(st, id, row, now).maxRetries == row.maxRetries
  {
  }

  lemma EventFits(s: State, e: Event, id: Id)
    requires Shaped(s) && Enabled(s, e) && id in s.rows && StmtOf(s, e).Some?
    requires Where(StmtOf(s, e).value, id, s.rows[id], s.clock)
    ensures StmtFits(StmtOf(s, e).value, s.rows[id], s.clock)
  {
    match e
    case FailWrite(x, _, _) => assert ExecShape(s, x);
    case RustFailWrite(x, _, _) =>
      assert ExecShape(s, x);
      PlanFromClaimFits(s.execs[x].attempts, s.execs[x].maxRetries);
    case _ =>
  }

  /** Rows keep their limit, and only change shape lawfully. */
  lemma StepKeepsRow(s: State, e: Event, id: Id)
    requires Shaped(s) && Enabled(s, e) && id in s.rows && id in Apply(s, e).rows
    ensures RowShape(Apply(s, e).rows[id], Apply(s, e).clock)
    ensures Apply(s, e).rows[id].maxRetries == s.rows[id].maxRetries
  {
    RowStep(s, e, id);
    if StmtOf(s, e).Some? {
      var st := StmtOf(s, e).value;
      if Where(st, id, s.rows[id], s.clock) {
        EventFits(s, e, id);
      }
      StatementKeepsShape(st, id, s.rows[id], s.clock);
    }
  }

  lemma StepKeepsExec(s: State, e: Event, x: ExecId)
    requires Shaped(s) && Enabled(s, e) && x in Apply(s, e).execs
    ensures ExecShape(Apply(s, e), x)
  {
    var s' := Apply(s, e);
    if x in s.execs {
      assert ExecShape(s, x);
      var task := s.execs[x].task;
      assert s'.execs[x].task == task && s'.execs[x].maxRetries == s.execs[x].maxRetries;
      if task in s'.rows {
        assert task in s.rows;
        StepKeepsRow(s, e, task);
      }
      if e.FailRead? && e.x == x && task in s.rows {
        assert RowShape(s.rows[task], s.clock);
        PlanOfRowFits(s.rows[task]);
      }
    } else {
      assert e.Claim? && e.x == x;
      assert RowShape(s.rows[e.id], s.clock);
    }
  }

  lemma StepKeepsShape(s: State, e: Event)
    requires Shaped(s)
    ensures Shaped(Step(s, e))
  {
    if Enabled(s, e) {
      var s' := Apply(s, e);
      forall id | id in s'.rows ensures RowShape(s'.rows[id], s'.clock) {
        if id in s.rows {
          StepKeepsRow(s, e, id);
        }
      }
      forall x | x in s'.execs ensures ExecShape(s', x) {
        StepKeepsExec(s, e, x);
      }
      assert s'.rows.Keys <= s'.issued;
    }
  }

  /** Every reachable state is well shaped. */
  lemma {:induction false} AlwaysShaped(es: seq<Event>)
    ensures Shaped(After(es))
  {
    if es != [] {
      AlwaysShaped(es[..|es| - 1]);
      StepKeepsShape(After(es[..|es| - 1]), es[|es| - 1]);
    }
  }

  /** Row shape, for a reader of one row of one reachable state. */
  lemma {:induction false} RowsAreShaped(es: seq<Event>, id: Id)
    requires id in After(es).rows
    ensures RowShape(After(es).rows[id], After(es).clock)
  {
    AlwaysShaped(es);
  }

  /** The only steps that make a row pending again. */
  ghost predicate ReturnsToPending(s: State, e: Event, id: Id) {
    || ((e.FailWrite? || e.RustFailWrite? || e.ManualRetryWrite?) && e.id == id)
    || (e.Reap? && id in s.rows && s.rows[id].status == Running)
    || (e.Requeue? && e.id == id && id in s.rows && s.rows[id].status == Failed)
  }

  lemma MadePending(st: Stmt, id: Id, row: Row, now: Time)
    requires row.status != Pending && UpdateRow(st, id, row, now).status == Pending
    ensures || ((st.MarkFailure? || st.MarkManualRetry?) && st.id == id)
            || (st.ReapStale? && row.status == Running)
            || (st.ResetFailed? && st.id == id && row.status == Failed)
  {
  }

  lemma PendingBefore(s: State, e: Event, id: Id)
    requires Shaped(s) && id in s.issued
    requires id in Step(s, e).rows && Step(s, e).rows[id].status == Pending
    ensures id in s.rows
    ensures s.rows[id].status != Pending ==> Enabled(s, e) && ReturnsToPending(s, e, id)
  {
    if Enabled(s, e) {
      assert !(e.Enqueue? && e.id == id);
      assert id in s.rows;
      RowStep(s, e, id);
      if s.rows[id].status != Pending {
        MadePending(StmtOf(s, e).value, id, s.rows[id], s.clock);
      }
    }
  }

  lemma JustClaimed(s: State, e: Event)
    requires Shaped(s) && e.Claim? && Enabled(s, e)
    ensures e.id in Step(s, e).rows && Step(s, e).rows[e.id].status == Running
  {
  }

  /**
   * A task is never claimed twice without a step in between that found it not pending and made it
   * pending; `k` is such a step.
   */
  lemma {:induction false} ReclaimNeedsReturn(es: seq<Event>, i: nat, j: nat, id: Id) returns (k: nat)
    requires i < j < |es|
    requires es[i].Claim? && es[i].id == id && Enabled(After(es[..i]), es[i])
    requires es[j].Claim? && es[j].id == id && Enabled(After(es[..j]), es[j])
    ensures i < k < j && Enabled(After(es[..k]), es[k]) && ReturnsToPending(After(es[..k]), es[k], id)
    ensures id in After(es[..k]).rows && After(es[..k]).rows[id].status != Pending
  {
    k := LastReturn(es, i, j, id);
  }

  lemma {:induction false} LastReturn(es: seq<Event>, i: nat, j: nat, id: Id) returns (k: nat)
    requires i < j < |es|
    requires es[i].Claim? && es[i].id == id && Enabled(After(es[..i]), es[i])
    requires id in After(es[..j]).rows && After(es[..j]).rows[id].status == Pending
    ensures i < k < j && Enabled(After(es[..k]), es[k]) && ReturnsToPending(After(es[..k]), es[k], id)
    ensures id in After(es[..k]).rows && After(es[..k]).rows[id].status != Pending
    decreases j
  {
    k := j - 1;
    AfterPrefix(es, k);
    AlwaysShaped(es[..k]);
    IssuedFromClaimOn(es, i, k, id);
    PendingBefore(After(es[..k]), es[k], id);
    if i == k {
      JustClaimed(After(es[..k]), es[k]);
    } else if After(es[..k]).rows[id].status == Pending {
      k := LastReturn(es, i, k, id);
    }
  }

  /** Once claimed, an id stays issued. */
  lemma {:induction false} IssuedFromClaimOn(es: seq<Event>, i: nat, j: nat, id: Id)
    requires i <= j < |es| && es[i].Claim? && es[i].id == id && Enabled(After(es[..i]), es[i])
    ensures id in After(es[..j]).issued
  {
    if i == j {
      AlwaysShaped(es[..i]);
    } else {
      IssuedFromClaimOn(es, i, j - 1, id);
      AfterPrefix(es, j - 1);
    }
  }
}
