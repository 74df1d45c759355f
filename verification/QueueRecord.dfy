/** What a row says about its own past, in every run: the request it came from and the step that settled it. */
module QueueRecord {
  import opened Prelude
  import opened TaskTable
  import opened QueueMachine
  import opened QueueShape

  // ---- The request ---------------------------------------------------------------------------

  /** The columns a request fixes for good, and the moment it was made. */
  predicate CameFrom(row: Row, req: Request, madeAt: Time) {
    && row.createdAt == madeAt
    && row.maxRetries == req.maxRetries
    && row.priority == req.priority
    && row.ttl == req.ttl && req.ttl != Some(0.0)
    && row.retryDelay == req.retryDelay
    && (row.retryBackoff <==> req.retryBackoff != Some(false))
  }

  lemma StatementKeepsRequest(st: Stmt, id: Id, row: Row, now: Time, req: Request, madeAt: Time)
    requires CameFrom(row, req, madeAt)
    ensures CameFrom(UpdateRow(st, id, row, now), req, madeAt)
  {
  }

  /** A row is there after a step because the step enqueued it, or it was there before and has kept its request. */
  lemma RequestStep(s: State, e: Event, id: Id)
    requires Shaped(s) && id in Step(s, e).rows
    ensures id in s.rows || (Enabled(s, e) && e.Enqueue? && e.id == id && CameFrom(Step(s, e).rows[id], e.req, s.clock))
    ensures forall req, madeAt {:trigger CameFrom(Step(s, e).rows[id], req, madeAt)} ::
              id in s.rows && CameFrom(s.rows[id], req, madeAt) ==> CameFrom(Step(s, e).rows[id], req, madeAt)
  {
    if Enabled(s, e) && id in s.rows {
      assert !(e.Enqueue? && e.id == id);
      RowStep(s, e, id);
      forall req, madeAt | CameFrom(s.rows[id], req, madeAt) ensures CameFrom(Step(s, e).rows[id], req, madeAt) {
        if StmtOf(s, e).Some? {
          StatementKeepsRequest(StmtOf(s, e).value, id, s.rows[id], s.clock, req, madeAt);
        }
      }
    }
  }

  /** Whatever happens to a row, it is the one its enqueue made, with the limits, priority and times asked for. */
  lemma {:induction false} RowsKeepTheirRequest(es: seq<Event>, id: Id) returns (n: nat)
    requires id in After(es).rows
    ensures n < |es| && Enabled(After(es[..n]), es[n]) && es[n].Enqueue? && es[n].id == id
    ensures CameFrom(After(es).rows[id], es[n].req, After(es[..n]).clock)
  {
    var last := |es| - 1;
    var s, e := After(es[..last]), es[last];
    AlwaysShaped(es[..last]);
    RequestStep(s, e, id);
    if id in s.rows {
      n := RowsKeepTheirRequest(es[..last], id);
      assert es[..last][..n] == es[..n];
    } else {
      n := last;
    }
  }

  // ---- The outcome ---------------------------------------------------------------------------

  /** The step ended the task, and the row records when and with what. */
  ghost predicate Settles(s: State, e: Event, id: Id, row: Row) {
    && Enabled(s, e)
    && row.completedAt == Some(s.clock)
    && match row.status
       case Completed => e.CompleteWrite? && e.id == id && row.result == e.result
       case Failed => (e.FailWrite? || e.RustFailWrite?) && e.id == id && row.error == Some(e.error)
       case Cancelled => e == Cancel(id) && row.error == Some("cancelled by user")
       case Expired => e.Expire? && row.error == Some("ttl expired")
       case _ => false
  }

  /** The statement that gives a row its terminal status, or else leaves it alone. */
  predicate SettledAs(st: Stmt, id: Id, row: Row, now: Time) {
    && row.completedAt == Some(now)
    && match row.status
       case Completed => st.MarkCompleted? && st.id == id && row.result == st.result
       case Failed => st.MarkFailure? && st.id == id && row.error == Some(st.error)
       case Cancelled => st == CancelPending(id) && row.error == Some("cancelled by user")
       case Expired => st.ExpireOverdue? && row.error == Some("ttl expired")
       case _ => false
  }

  lemma TerminalStatement(st: Stmt, id: Id, row: Row, now: Time)
    requires Terminal(UpdateRow(st, id, row, now).status)
    ensures UpdateRow(st, id, row, now) == row || SettledAs(st, id, UpdateRow(st, id, row, now), now)
  {
  }

  lemma TerminalStep(s: State, e: Event, id: Id)
    requires Shaped(s) && id in Step(s, e).rows && Terminal(Step(s, e).rows[id].status)
    ensures id in s.rows && (Step(s, e).rows[id] == s.rows[id] || Settles(s, e, id, Step(s, e).rows[id]))
  {
    if Enabled(s, e) {
      assert !(e.Enqueue? && e.id == id);
      assert id in s.rows;
      RowStep(s, e, id);
      if StmtOf(s, e).Some? {
        TerminalStatement(StmtOf(s, e).value, id, s.rows[id], s.clock);
      }
    }
  }

  /**
   * Every terminal row records the step that made it so: the result of the completion, the error of the last
   * failure, the cancellation or the expiry, and its time; and the row has not changed since.
   */
  lemma {:induction false} TerminalRowsRecordTheirStep(es: seq<Event>, id: Id) returns (n: nat)
    requires id in After(es).rows && Terminal(After(es).rows[id].status)
    ensures n < |es| && Settles(After(es[..n]), es[n], id, After(es).rows[id])
    ensures forall k :: n < k <= |es| ==> id in After(es[..k]).rows && After(es[..k]).rows[id] == After(es).rows[id]
  {
    var last := |es| - 1;
    var s, e := After(es[..last]), es[last];
    AlwaysShaped(es[..last]);
    TerminalStep(s, e, id);
    assert es[..|es|] == es;
    if Settles(s, e, id, After(es).rows[id]) {
      n := last;
    } else {
      n := TerminalRowsRecordTheirStep(es[..last], id);
      assert es[..last][..n] == es[..n];
      assert forall k :: 0 <= k <= last ==> es[..last][..k] == es[..k];
    }
  }
}
