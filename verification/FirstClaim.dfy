/** When a task may be claimed for the first time: at the time its enqueue asked for, in every run. */
module FirstClaim {
  import opened Prelude
  import opened TaskTable
  import opened QueueMachine
  import opened QueueShape
  import opened QueueRecord
  import opened QueueLease
  import opened QueueLedger
  import opened Overlap

  /** The time asked for, or else the time of the request. */
  function Asked(req: Request, madeAt: Time): Time {
    match req.scheduledAt
    case Some(at) => at
    case None => madeAt
  }

  /** No executor has ever been at work on the task, and its row is as it was enqueued, or cancelled or expired. */
  ghost predicate Fresh(s: State, id: Id, due: Time) {
    && id in s.issued && Idle(s, id)
    && (id in s.rows ==>
          && s.rows[id].status in {Pending, Cancelled, Expired}
          && s.rows[id].scheduledAt == due && s.rows[id].attempts == 0 && s.rows[id].startedAt.None?)
  }

  lemma FreshStatement(st: Stmt, id: Id, row: Row, now: Time)
    requires row.status in {Pending, Cancelled, Expired} && row.startedAt.None?
    requires Where(st, id, row, now) ==> !ByIdWrite(st)
    ensures UpdateRow(st, id, row, now).status in {Pending, Cancelled, Expired}
    ensures UpdateRow(st, id, row, now).scheduledAt == row.scheduledAt
    ensures UpdateRow(st, id, row, now).attempts == row.attempts && UpdateRow(st, id, row, now).startedAt.None?
  {
  }

  lemma WriterIsAtWork(s: State, e: Event, id: Id)
    requires Enabled(s, e) && Idle(s, id) && StmtOf(s, e).Some? && !Hits(Claims, s, e, id) && id in s.rows
    ensures Where(StmtOf(s, e).value, id, s.rows[id], s.clock) ==> !ByIdWrite(StmtOf(s, e).value)
  {
    if e.CompleteWrite? || e.FailWrite? || e.RustFailWrite? || e.ManualRetryWrite? {
      assert Holds(s, e.x, e.id);
    }
  }

  lemma FreshStep(s: State, e: Event, id: Id, due: Time)
    requires Shaped(s) && Fresh(s, id, due) && !Hits(Claims, s, e, id)
    ensures Fresh(Step(s, e), id, due)
  {
    if Enabled(s, e) {
      forall x ensures !Holds(Apply(s, e), x, id) {
        if Holds(Apply(s, e), x, id) {
          HoldsBefore(s, e, x, id);
        }
      }
      if id in Apply(s, e).rows {
        assert id in s.rows && !(e.Enqueue? && e.id == id);
        RowStep(s, e, id);
        if StmtOf(s, e).Some? {
          WriterIsAtWork(s, e, id);
          FreshStatement(StmtOf(s, e).value, id, s.rows[id], s.clock);
        }
      }
    }
  }

  lemma EnqueuedIsFresh(s: State, e: Event)
    requires Shaped(s) && Enabled(s, e) && e.Enqueue?
    ensures Fresh(Step(s, e), e.id, Asked(e.req, s.clock)) && Step(s, e).rows[e.id].status == Pending
  {
    forall x | x in s.execs ensures s.execs[x].task != e.id {
      assert ExecShape(s, x);
    }
  }

  /** Whatever else happens, a task never claimed is still due when its enqueue said; es[n] is that enqueue. */
  lemma {:induction false} UnclaimedIsDueAsAsked(es: seq<Event>, id: Id) returns (n: nat)
    requires id in After(es).issued && Count(Claims, es, id) == 0
    ensures n < |es| && Enabled(After(es[..n]), es[n]) && es[n].Enqueue? && es[n].id == id
    ensures Fresh(After(es), id, Asked(es[n].req, After(es[..n]).clock))
  {
    var front, e := es[..|es| - 1], es[|es| - 1];
    AlwaysShaped(front);
    if id in After(front).issued {
      n := UnclaimedIsDueAsAsked(front, id);
      assert front[..n] == es[..n];
      FreshStep(After(front), e, id, Asked(es[n].req, After(es[..n]).clock));
    } else {
      n := |es| - 1;
      EnqueuedIsFresh(After(front), e);
    }
  }

  /**
   * So the first claim of a task takes effect exactly when its executor is new, the row is still pending, and the
   * time asked for has come, or with none asked for at once; es[n] is the task's enqueue.
   */
  lemma {:induction false} FirstClaimExactlyWhen(es: seq<Event>, x: ExecId, id: Id, w: WorkerId) returns (n: nat)
    requires id in After(es).rows && Count(Claims, es, id) == 0
    ensures n < |es| && Enabled(After(es[..n]), es[n]) && es[n].Enqueue? && es[n].id == id
    ensures var s, req := After(es), es[n].req;
            Hits(Claims, s, Claim(x, id, w), id)
            <==> && x !in s.seen && s.rows[id].status == Pending
                 && (req.scheduledAt.Some? ==> req.scheduledAt.value <= s.clock)
  {
    AlwaysShaped(es);
    n := UnclaimedIsDueAsAsked(es, id);
    ClockNeverBack(es, n);
  }

  lemma {:induction false} ClockNeverBack(es: seq<Event>, n: nat)
    requires n <= |es|
    ensures After(es[..n]).clock <= After(es).clock
    decreases |es| - n
  {
    if n == |es| {
      assert es[..n] == es;
    } else {
      ClockNeverBack(es, n + 1);
      AfterPrefix(es, n);
    }
  }
}
