/**
 * When two executors come to work on one task, and when a settled row changes after all: exact conditions, over
 * every run, lease or none.
 */
module Overlap {
  import opened Prelude
  import opened TaskTable
  import opened QueueMachine
  import opened QueueShape
  import opened QueueLease
  import opened QueueLedger

  ghost predicate TwoAtWork(s: State, id: Id) {
    exists x, y :: x != y && Holds(s, x, id) && Holds(s, y, id)
  }

  // ---- Executors that have lost their row ----------------------------------------------------

  /** The executors at work from which the step takes the row: by a reap, or by the executor's own manual retry. */
  ghost function Victims(s: State, e: Event, id: Id): set<ExecId> {
    set x | x in s.execs && Holds(s, x, id) && (Hits(Reaps, s, e, id) || (Hits(ManualRetries, s, e, id) && e.x == x))
  }

  ghost function Robbed(es: seq<Event>, id: Id): set<ExecId> {
    if es == [] then {} else Robbed(es[..|es| - 1], id) + Victims(After(es[..|es| - 1]), es[|es| - 1], id)
  }

  /** A claim takes effect while an executor robbed of the task is still at work on it. */
  ghost predicate Overlaps(s: State, e: Event, id: Id, robbed: set<ExecId>) {
    Hits(Claims, s, e, id) && exists x :: x in robbed && Holds(s, x, id)
  }

  ghost predicate OverlapsAt(es: seq<Event>, k: nat, id: Id)
    requires k < |es|
  {
    Overlaps(After(es[..k]), es[k], id, Robbed(es[..k], id))
  }

  predicate InHand(row: Row) {
    row.status in {Running, Expired, Completed}
  }

  ghost predicate HasRow(s: State, id: Id) {
    id in s.rows ==> InHand(s.rows[id])
  }

  /** At most one executor is at work on the task, and the row is in its hands if it was not robbed of it. */
  ghost predicate Orderly(s: State, id: Id, robbed: set<ExecId>) {
    && Shaped(s) && robbed <= s.seen
    && (forall x, y :: Holds(s, x, id) && Holds(s, y, id) ==> x == y)
    && (forall x :: Holds(s, x, id) && x !in robbed ==> HasRow(s, id))
  }

  lemma InHandStatement(st: Stmt, id: Id, row: Row, now: Time)
    requires InHand(row) && RowShape(row, now)
    requires Where(st, id, row, now) ==> !st.MarkRunning? && !st.MarkFailure? && !st.MarkManualRetry? && !st.ReapStale?
    ensures InHand(UpdateRow(st, id, row, now))
  {
  }

  /** Whoever is at work after a step was so before it, or has just claimed. */
  lemma HoldsBefore(s: State, e: Event, x: ExecId, id: Id)
    requires Shaped(s) && Enabled(s, e) && Holds(Apply(s, e), x, id)
    ensures Holds(s, x, id) || (Hits(Claims, s, e, id) && e.x == x)
    ensures Holds(s, x, id) && (e.FailWrite? || e.RustFailWrite? || (e.CompleteWrite? && e.acked)) ==> e.x != x
  {
    assert x in s.execs ==> ExecShape(s, x);
  }

  lemma ClaimFindsNoOne(s: State, e: Event, x: ExecId, id: Id, robbed: set<ExecId>)
    requires Orderly(s, id, robbed) && Hits(Claims, s, e, id) && !Overlaps(s, e, id, robbed)
    ensures !Holds(s, x, id)
  {
  }

  lemma StillInHand(s: State, e: Event, x: ExecId, id: Id, robbed: set<ExecId>)
    requires Orderly(s, id, robbed) && Enabled(s, e) && Holds(s, x, id) && Holds(Apply(s, e), x, id)
    requires x !in robbed && x !in Victims(s, e, id)
    ensures HasRow(Apply(s, e), id)
  {
    assert ExecShape(s, x) && id in s.issued;
    if id in Apply(s, e).rows {
      assert id in s.rows;
      RowStep(s, e, id);
      if StmtOf(s, e).Some? {
        var st := StmtOf(s, e).value;
        NoOneElse(s, e, x, id, robbed);
        InHandStatement(st, id, s.rows[id], s.clock);
      }
    }
  }

  /** What reaches the row of an executor that keeps it neither restarts it nor sends it back. */
  lemma NoOneElse(s: State, e: Event, x: ExecId, id: Id, robbed: set<ExecId>)
    requires Orderly(s, id, robbed) && Enabled(s, e) && Holds(s, x, id) && Holds(Apply(s, e), x, id)
    requires x !in robbed && x !in Victims(s, e, id) && id in s.rows && StmtOf(s, e).Some?
    ensures var st := StmtOf(s, e).value;
            Where(st, id, s.rows[id], s.clock) ==>
              !st.MarkRunning? && !st.MarkFailure? && !st.MarkManualRetry? && !st.ReapStale?
  {
    assert HasRow(s, id);
    HoldsBefore(s, e, x, id);
    if e.FailWrite? || e.RustFailWrite? || e.ManualRetryWrite? {
      assert Holds(s, e.x, e.id);
    }
  }

  lemma OneStaysOne(s: State, e: Event, x: ExecId, y: ExecId, id: Id, robbed: set<ExecId>)
    requires Orderly(s, id, robbed) && Enabled(s, e) && !Overlaps(s, e, id, robbed)
    requires Holds(Apply(s, e), x, id) && Holds(Apply(s, e), y, id)
    ensures x == y
  {
    HoldsBefore(s, e, x, id);
    HoldsBefore(s, e, y, id);
    if Hits(Claims, s, e, id) {
      ClaimFindsNoOne(s, e, x, id, robbed);
      ClaimFindsNoOne(s, e, y, id, robbed);
    }
  }

  lemma KeeperHasRow(s: State, e: Event, x: ExecId, id: Id, robbed: set<ExecId>)
    requires Orderly(s, id, robbed) && Enabled(s, e) && !Overlaps(s, e, id, robbed)
    requires Holds(Apply(s, e), x, id) && x !in robbed && x !in Victims(s, e, id)
    ensures HasRow(Apply(s, e), id)
  {
    HoldsBefore(s, e, x, id);
    if Holds(s, x, id) {
      StillInHand(s, e, x, id, robbed);
    } else {
      JustClaimed(s, e);
    }
  }

  lemma OrderlyStep(s: State, e: Event, id: Id, robbed: set<ExecId>)
    requires Orderly(s, id, robbed) && !Overlaps(s, e, id, robbed)
    ensures Orderly(Step(s, e), id, robbed + Victims(s, e, id))
  {
    StepKeepsShape(s, e);
    forall x | x in Victims(s, e, id) ensures x in s.seen {
      assert ExecShape(s, x);
    }
    if Enabled(s, e) {
      var s' := Apply(s, e);
      forall x, y | Holds(s', x, id) && Holds(s', y, id) ensures x == y {
        OneStaysOne(s, e, x, y, id, robbed);
      }
      forall x | Holds(s', x, id) && x !in robbed + Victims(s, e, id) ensures HasRow(s', id) {
        KeeperHasRow(s, e, x, id, robbed);
      }
    }
  }

  lemma {:induction false} OrderlyUntilOverlap(es: seq<Event>, n: nat, id: Id)
    requires n <= |es| && forall k :: 0 <= k < n ==> !OverlapsAt(es, k, id)
    ensures Orderly(After(es[..n]), id, Robbed(es[..n], id))
  {
    if n > 0 {
      OrderlyUntilOverlap(es, n - 1, id);
      assert !OverlapsAt(es, n - 1, id);
      AfterPrefix(es, n - 1);
      assert es[..n][..n - 1] == es[..n - 1];
      OrderlyStep(After(es[..n - 1]), es[n - 1], id, Robbed(es[..n - 1], id));
    }
  }

  lemma OverlapMakesTwo(s: State, e: Event, id: Id, robbed: set<ExecId>)
    requires Shaped(s) && Overlaps(s, e, id, robbed)
    ensures TwoAtWork(Step(s, e), id)
  {
    var x :| x in robbed && Holds(s, x, id);
    assert ExecShape(s, x);
    assert Holds(Step(s, e), x, id) && Holds(Step(s, e), e.x, id);
  }

  lemma {:induction false} FirstOverlap(es: seq<Event>, n: nat, id: Id)
    requires n <= |es| && TwoAtWork(After(es[..n]), id)
    ensures exists k :: 0 <= k < n && OverlapsAt(es, k, id)
  {
    if forall k :: 0 <= k < n ==> !OverlapsAt(es, k, id) {
      OrderlyUntilOverlap(es, n, id);
    }
  }

  /**
   * Exactly when a task comes to have two executors, in any run: when some claim of it takes effect while an
   * executor is still at work from which the task was taken, by a reap or by its own manual retry.
   */
  lemma TwoAtWorkExactlyWhen(es: seq<Event>, id: Id)
    ensures (exists n :: 0 <= n <= |es| && TwoAtWork(After(es[..n]), id))
            <==> exists k :: 0 <= k < |es| && OverlapsAt(es, k, id)
  {
    if n :| 0 <= n <= |es| && TwoAtWork(After(es[..n]), id) {
      FirstOverlap(es, n, id);
    }
    if k :| 0 <= k < |es| && OverlapsAt(es, k, id) {
      AlwaysShaped(es[..k]);
      AfterPrefix(es, k);
      OverlapMakesTwo(After(es[..k]), es[k], id, Robbed(es[..k], id));
    }
  }

  // ---- Settled rows --------------------------------------------------------------------------

  /** An executor at work on the task writes to it. */
  ghost predicate Writes(s: State, e: Event, id: Id) {
    Enabled(s, e) && (TouchedBy(e, id) || (e.ManualRetryWrite? && e.id == id))
  }

  lemma OutcomeChangesStatus(st: Stmt, id: Id, row: Row, now: Time)
    requires (st.MarkCompleted? || st.MarkFailure? || st.MarkManualRetry?) && st.id == id
    ensures UpdateRow(st, id, row, now).status
         == (if st.MarkCompleted? then Completed
             else if st.MarkFailure? && st.plan.GiveUp? then Failed
             else Pending)
  {
  }

  /**
   * A step changes the status of a completed, cancelled or expired row exactly when it is such a write, other
   * than a completion of a completed row; and no other step changes the row at all.
   */
  lemma SettledStepExactly(s: State, e: Event, id: Id)
    requires Shaped(s) && id in s.rows && id in Step(s, e).rows && s.rows[id].status in {Completed, Cancelled, Expired}
    ensures Step(s, e).rows[id].status != s.rows[id].status
            <==> Writes(s, e, id) && !(e.CompleteWrite? && s.rows[id].status == Completed)
    ensures Step(s, e).rows[id] != s.rows[id] ==> Writes(s, e, id)
  {
    if Writes(s, e, id) {
      WriteOnSettled(s, e, id);
    } else if Enabled(s, e) {
      OthersLeaveSettled(s, e, id);
    }
  }

  lemma WriteOnSettled(s: State, e: Event, id: Id)
    requires Writes(s, e, id) && id in s.rows && s.rows[id].status in {Completed, Cancelled, Expired}
    ensures id in Step(s, e).rows
    ensures Step(s, e).rows[id].status != s.rows[id].status <==> !(e.CompleteWrite? && s.rows[id].status == Completed)
  {
    RowStep(s, e, id);
    OutcomeChangesStatus(StmtOf(s, e).value, id, s.rows[id], s.clock);
  }

  ghost predicate WritesAt(es: seq<Event>, k: nat, id: Id)
    requires k < |es|
  {
    Writes(After(es[..k]), es[k], id)
  }

  lemma SettledAtExactly(es: seq<Event>, k: nat, id: Id)
    requires k < |es| && id in After(es[..k]).rows && id in After(es[..k + 1]).rows
    requires After(es[..k]).rows[id].status in {Completed, Cancelled, Expired}
    ensures After(es[..k + 1]).rows[id].status != After(es[..k]).rows[id].status
            <==> WritesAt(es, k, id) && !(es[k].CompleteWrite? && After(es[..k]).rows[id].status == Completed)
    ensures After(es[..k + 1]).rows[id] != After(es[..k]).rows[id] ==> WritesAt(es, k, id)
  {
    AlwaysShaped(es[..k]);
    AfterPrefix(es, k);
    SettledStepExactly(After(es[..k]), es[k], id);
  }

  /**
   * Exactly when a completed, cancelled or expired row keeps its status, in any run and for as long as it exists:
   * when no executor at work on it writes to it, other than to complete it when it is completed.
   */
  lemma {:induction false} SettledStaysExactlyWhen(es: seq<Event>, i: nat, n: nat, id: Id, status: Status)
    requires i <= n <= |es| && id in After(es[..i]).rows && id in After(es[..n]).rows
    requires After(es[..i]).rows[id].status == status && status in {Completed, Cancelled, Expired}
    ensures StaysIn(es, i, n, id, status)
            <==> forall k :: i <= k < n ==> !Unsettles(es, k, id, status)
    decreases n
  {
    if i < n {
      PresentBetween(es, i, n - 1, n, id);
      SettledStaysExactlyWhen(es, i, n - 1, id, status);
      if StaysIn(es, i, n - 1, id, status) {
        UnsettlesExactly(es, n - 1, id, status);
      }
    }
  }

  ghost predicate Unsettles(es: seq<Event>, k: nat, id: Id, status: Status)
    requires k < |es|
  {
    WritesAt(es, k, id) && !(es[k].CompleteWrite? && status == Completed)
  }

  lemma UnsettlesExactly(es: seq<Event>, k: nat, id: Id, status: Status)
    requires k < |es| && id in After(es[..k]).rows && id in After(es[..k + 1]).rows
    requires After(es[..k]).rows[id].status == status && status in {Completed, Cancelled, Expired}
    ensures After(es[..k + 1]).rows[id].status == status <==> !Unsettles(es, k, id, status)
  {
    SettledAtExactly(es, k, id);
  }

  ghost predicate Idle(s: State, id: Id) {
    forall x :: !Holds(s, x, id)
  }

  lemma IdleStep(s: State, e: Event, id: Id)
    requires Shaped(s) && Idle(s, id) && (id in s.rows ==> s.rows[id].status != Pending)
    ensures Idle(Step(s, e), id)
  {
    if Enabled(s, e) {
      forall x ensures !Holds(Apply(s, e), x, id) {
        if Holds(Apply(s, e), x, id) {
          HoldsBefore(s, e, x, id);
        }
      }
    }
  }

  lemma IdleAt(es: seq<Event>, k: nat, id: Id)
    requires k < |es| && Idle(After(es[..k]), id)
    requires id in After(es[..k]).rows ==> After(es[..k]).rows[id].status != Pending
    ensures Idle(After(es[..k + 1]), id)
  {
    AlwaysShaped(es[..k]);
    AfterPrefix(es, k);
    IdleStep(After(es[..k]), es[k], id);
  }

  lemma UntouchedAt(es: seq<Event>, k: nat, id: Id)
    requires k < |es| && id in After(es[..k]).rows && id in After(es[..k + 1]).rows && Idle(After(es[..k]), id)
    requires After(es[..k]).rows[id].status in {Completed, Cancelled, Expired}
    ensures After(es[..k + 1]).rows[id] == After(es[..k]).rows[id]
  {
    SettledAtExactly(es, k, id);
    if WritesAt(es, k, id) {
      assert Holds(After(es[..k]), es[k].x, id);
    }
  }

  /**
   * So a completed, cancelled or expired row on which no executor is at work is settled for good, in any run: it
   * does not change while it exists, and no executor takes the task up again.
   */
  lemma {:induction false} SettledForGood(es: seq<Event>, i: nat, n: nat, id: Id)
    requires i <= n <= |es| && id in After(es[..i]).rows && Idle(After(es[..i]), id)
    requires After(es[..i]).rows[id].status in {Completed, Cancelled, Expired}
    ensures Idle(After(es[..n]), id)
    ensures id in After(es[..n]).rows ==> After(es[..n]).rows[id] == After(es[..i]).rows[id]
    decreases n
  {
    if i < n {
      SettledForGood(es, i, n - 1, id);
      IdleAt(es, n - 1, id);
      if id in After(es[..n]).rows {
        PresentBetween(es, i, n - 1, n, id);
        UntouchedAt(es, n - 1, id);
      }
    }
  }

  /** And a deleted task is gone for good. */
  lemma {:induction false} GoneForGood(es: seq<Event>, i: nat, n: nat, id: Id)
    requires i <= n <= |es| && id in After(es[..i]).issued && id !in After(es[..i]).rows && Idle(After(es[..i]), id)
    ensures id in After(es[..n]).issued && id !in After(es[..n]).rows && Idle(After(es[..n]), id)
    decreases n
  {
    if i < n {
      GoneForGood(es, i, n - 1, id);
      IdleAt(es, n - 1, id);
      AfterPrefix(es, n - 1);
    }
  }
}
