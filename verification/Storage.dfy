/**
 * `Storage`: the lifecycle operations, each run without interruption on the rows it updates in place.
 *
 * How operations of different workers interleave is the subject of QueueMachine, which is built from
 * the same statements.
 */
module StorageOps {
  import opened Prelude
  import opened TaskTable

  lemma NotTerminal(status: Status)
    ensures Terminal(status) <==> status !in {Pending, Running}
  {
    match status
    case Pending =>
    case Running =>
    case Completed =>
    case Failed =>
    case Cancelled =>
    case Expired =>
  }

  /** The statement applied to all rows but those still to do. */
  ghost function Partly(t: Table, todo: set<Id>, st: Stmt, now: Time): Table {
    map id | id in t :: if id in todo then t[id] else UpdateRow(st, id, t[id], now)
  }

  lemma PartlyNext(t: Table, todo: set<Id>, st: Stmt, now: Time, id: Id)
    requires id in todo && id in t
    ensures Partly(t, todo - {id}, st, now) == Partly(t, todo, st, now)[id := UpdateRow(st, id, t[id], now)]
    ensures Partly(t, todo, st, now)[id] == t[id]
    ensures Matched(t, st, now) - (todo - {id})
         == Matched(t, st, now) - todo + (if Where(st, id, t[id], now) then {id} else {})
  {
  }

  lemma PartlyAll(t: Table, st: Stmt, now: Time)
    ensures Partly(t, {}, st, now) == Update(t, st, now)
    ensures Partly(t, t.Keys, st, now) == t && Matched(t, st, now) <= t.Keys
  {
  }

  class Storage {
    var rows: Table
    /** Every id ever handed out; the database draws new ones at random and never repeats one. */
    var issued: set<Id>

    ghost predicate Valid()
      reads this
    {
      rows.Keys <= issued
    }

    constructor ()
      ensures Valid() && rows == map[] && issued == {}
    {
      rows, issued := map[], {};
    }

    /** One UPDATE, row by row; returns the ids it matched. */
    method Run(st: Stmt, now: Time) returns (matched: set<Id>)
      modifies this`rows
      ensures rows == Update(old(rows), st, now)
      ensures matched == Matched(old(rows), st, now)
    {
      ghost var before := rows;
      PartlyAll(before, st, now);
      matched := {};
      var t := rows;
      var todo := t.Keys;
      while todo != {}
        invariant todo <= before.Keys
        invariant t == Partly(before, todo, st, now)
        invariant matched == Matched(before, st, now) - todo
        decreases todo
      {
        var id :| id in todo;
        PartlyNext(before, todo, st, now, id);
        if Where(st, id, t[id], now) {
          matched := matched + {id};
          t := t[id := Set(st, t[id], now)];
        }
        todo := todo - {id};
      }
      assert todo == {};
      rows := t;
    }

    /** A time-to-live of zero inserts nothing and returns nothing. */
    method Enqueue(req: Request, newId: Id, now: Time) returns (r: Option<Id>)
      requires Valid() && newId !in issued
      modifies this
      ensures Valid()
      ensures r == (if req.ttl == Some(0.0) then None else Some(newId))
      ensures r.None? ==> rows == old(rows) && issued == old(issued)
      ensures r.Some? ==> rows == old(rows)[newId := NewRow(req, now)] && issued == old(issued) + {newId}
      ensures r.Some? ==>
                var row := rows[newId];
                && row.status == Pending && row.attempts == 0 && row.createdAt == now
                && (req.scheduledAt.Some? ==> row.scheduledAt == req.scheduledAt.value)
                && (req.scheduledAt.None? ==> row.scheduledAt == now)
                && row.maxRetries == req.maxRetries && row.priority == req.priority && row.ttl == req.ttl
                && row.retryDelay == req.retryDelay && (row.retryBackoff <==> req.retryBackoff != Some(false))
                && row.startedAt == None && row.completedAt == None && row.lastHeartbeat == None
                && row.worker == None && row.result == None && row.error == None
    {
      if req.ttl == Some(0.0) {
        return None;
      }
      rows := rows[newId := NewRow(req, now)];
      issued := issued + {newId};
      r := Some(newId);
    }

    /** The inner SELECT: scan for the first row in the claim order. */
    method Select(statuses: set<Status>, now: Time) returns (best: Option<Id>)
      ensures best.None? ==> EligibleIds(rows, statuses, now) == {}
      ensures best.Some? ==> Best(rows, statuses, now, best.value)
      ensures best.None? ==> forall id :: id in rows && rows[id].status in statuses ==> rows[id].scheduledAt > now
      ensures best.Some? ==>
                && best.value in rows
                && rows[best.value].status in statuses && rows[best.value].scheduledAt <= now
                && forall id :: id in rows && rows[id].status in statuses && rows[id].scheduledAt <= now ==>
                     || rows[id].priority < rows[best.value].priority
                     || (rows[id].priority == rows[best.value].priority
                         && rows[id].createdAt >= rows[best.value].createdAt)
    {
      best := None;
      var todo := rows.Keys;
      while todo != {}
        invariant todo <= rows.Keys
        invariant best.None? ==> EligibleIds(rows, statuses, now) <= todo
        invariant best.Some? ==> best.value in EligibleIds(rows, statuses, now)
        invariant best.Some? ==> forall id :: id in EligibleIds(rows, statuses, now) - todo ==>
                                  !Before(rows[id], rows[best.value])
        decreases todo
      {
        var id :| id in todo;
        if Eligible(rows[id], statuses, now) && (best.None? || Before(rows[id], rows[best.value])) {
          best := Some(id);
        }
        todo := todo - {id};
      }
      forall id | id in rows && Eligible(rows[id], statuses, now) ensures id in EligibleIds(rows, statuses, now) {
      }
    }

    /** Nothing eligible: nothing changes. Otherwise a best row starts running and is returned as it now is. */
    method ClaimTask(worker: WorkerId, statuses: set<Status>, now: Time) returns (claimed: Option<(Id, Row)>)
      requires Valid()
      modifies this`rows
      ensures Valid()
      ensures claimed.None? <==> EligibleIds(old(rows), statuses, now) == {}
      ensures claimed.None? ==> rows == old(rows)
      ensures claimed.Some? ==>
                && Best(old(rows), statuses, now, claimed.value.0)
                && rows == Update(old(rows), MarkRunning(claimed.value.0, worker), now)
                && claimed.value.1 == rows[claimed.value.0]
      ensures claimed.None? ==>
                forall id :: id in old(rows) && old(rows)[id].status in statuses ==> old(rows)[id].scheduledAt > now
      ensures claimed.Some? ==>
                var id := claimed.value.0;
                && id in old(rows) && old(rows)[id].status in statuses && old(rows)[id].scheduledAt <= now
                && rows == old(rows)[id := old(rows)[id].(status := Running, startedAt := Some(now),
                                                          worker := Some(worker), lastHeartbeat := Some(now))]
                && forall other :: (other in old(rows)
                                    && old(rows)[other].status in statuses && old(rows)[other].scheduledAt <= now) ==>
                       || old(rows)[other].priority < old(rows)[id].priority
                       || (old(rows)[other].priority == old(rows)[id].priority
                           && old(rows)[other].createdAt >= old(rows)[id].createdAt)
    {
      var best := Select(statuses, now);
      if best.None? {
        return None;
      }
      var _ := Run(MarkRunning(best.value, worker), now);
      claimed := Some((best.value, rows[best.value]));
    }

    /** No check of status or owner: any existing row becomes completed. */
    method CompleteTask(id: Id, result: Option<string>, now: Time)
      requires Valid()
      modifies this`rows
      ensures Valid()
      ensures rows == Update(old(rows), MarkCompleted(id, result), now)
      ensures id !in old(rows) ==> rows == old(rows)
      ensures id in old(rows) ==>
                rows == old(rows)[id := old(rows)[id].(status := Completed, result := result, completedAt := Some(now))]
    {
      var _ := Run(MarkCompleted(id, result), now);
    }

    /** The read, the decision and the write of a failure, with nothing in between. */
    method FailTask(id: Id, error: string, now: Time)
      requires Valid()
      modifies this`rows
      ensures Valid()
      ensures id !in old(rows) ==> rows == old(rows)
      ensures id in old(rows) ==>
                && rows == Update(old(rows), MarkFailure(id, Plan(old(rows)[id]), error), now)
                && rows[id].attempts == old(rows)[id].attempts + 1
                && rows[id].status == (if rows[id].attempts < rows[id].maxRetries then Pending else Failed)
      ensures id in old(rows) && old(rows)[id].attempts + 1 >= old(rows)[id].maxRetries ==>
                rows == old(rows)[id := old(rows)[id].(status := Failed, attempts := old(rows)[id].attempts + 1,
                                                       error := Some(error), completedAt := Some(now))]
      ensures id in old(rows) && old(rows)[id].attempts + 1 < old(rows)[id].maxRetries ==>
                && rows == old(rows)[id := old(rows)[id].(status := Pending, attempts := old(rows)[id].attempts + 1,
                                                          error := Some(error), scheduledAt := rows[id].scheduledAt,
                                                          startedAt := None, worker := None)]
                && (old(rows)[id].retryBackoff ==>
                      rows[id].scheduledAt == now + BackoffEntry(old(rows)[id].attempts + 1) as real)
                && (!old(rows)[id].retryBackoff && old(rows)[id].retryDelay.Some? ==>
                      rows[id].scheduledAt == now + old(rows)[id].retryDelay.value)
                && (!old(rows)[id].retryBackoff && old(rows)[id].retryDelay.None? ==>
                      rows[id].scheduledAt == now + 10.0)
    {
      if id !in rows {
        return;
      }
      var row := rows[id];
      var attempts := row.attempts + 1;
      if attempts < row.maxRetries {
        var delay;
        if row.retryBackoff {
          delay := RetryBackoffSeconds(attempts) as real;
        } else if row.retryDelay.Some? {
          delay := row.retryDelay.value;
        } else {
          delay := 10.0;
        }
        var _ := Run(MarkFailure(id, RetryAfter(attempts, delay), error), now);
      } else {
        var _ := Run(MarkFailure(id, GiveUp(attempts), error), now);
      }
    }

    /** The UPDATE of a subprocess that catches a RetryError: any existing row is pending again after the countdown. */
    method RetryTask(id: Id, message: string, countdown: real, now: Time)
      requires Valid()
      modifies this`rows
      ensures Valid()
      ensures rows == Update(old(rows), MarkManualRetry(id, message, countdown), now)
      ensures id !in old(rows) ==> rows == old(rows)
      ensures id in old(rows) ==>
                rows == old(rows)[id := old(rows)[id].(status := Pending, attempts := old(rows)[id].attempts + 1,
                                                       error := Some(message), scheduledAt := now + countdown,
                                                       startedAt := None, worker := None)]
    {
      var _ := Run(MarkManualRetry(id, message, countdown), now);
    }

    method Heartbeat(worker: WorkerId, now: Time)
      requires Valid()
      modifies this`rows
      ensures Valid()
      ensures rows == Update(old(rows), Beat(worker), now)
      ensures rows.Keys == old(rows).Keys
      ensures forall id :: id in rows ==>
                rows[id] == (if old(rows)[id].status == Running && old(rows)[id].worker == Some(worker)
                             then old(rows)[id].(lastHeartbeat := Some(now)) else old(rows)[id])
    {
      var _ := Run(Beat(worker), now);
    }

    /** Every stale running row that is not locked goes back to pending, charged one attempt. */
    method RecoverStaleTasks(maxRunning: real, locked: set<Id>, now: Time) returns (recovered: set<Id>)
      requires Valid()
      modifies this`rows
      ensures Valid()
      ensures rows == Update(old(rows), ReapStale(maxRunning, locked), now)
      ensures recovered == Matched(old(rows), ReapStale(maxRunning, locked), now)
      ensures forall id :: id in recovered ==>
                rows[id].status == Pending && rows[id].attempts == old(rows)[id].attempts + 1
      ensures rows.Keys == old(rows).Keys
      ensures forall id :: id in rows ==>
                && (id in recovered <==>
                      && old(rows)[id].status == Running && id !in locked
                      && old(rows)[id].startedAt.Some? && old(rows)[id].startedAt.value + maxRunning < now)
                && rows[id] == (if id in recovered
                                then old(rows)[id].(status := Pending, attempts := old(rows)[id].attempts + 1,
                                                    startedAt := None, worker := None,
                                                    error := Some("recovered after timeout"))
                                else old(rows)[id])
    {
      recovered := Run(ReapStale(maxRunning, locked), now);
    }

    method RequeueTask(id: Id, now: Time) returns (ok: bool)
      requires Valid()
      modifies this`rows
      ensures Valid()
      ensures ok <==> id in old(rows) && old(rows)[id].status == Failed
      ensures rows == Update(old(rows), ResetFailed(id), now)
      ensures !ok ==> rows == old(rows)
      ensures ok ==>
                rows == old(rows)[id := old(rows)[id].(status := Pending, attempts := 0, scheduledAt := now,
                                                       error := None, startedAt := None, completedAt := None,
                                                       worker := None)]
    {
      var matched := Run(ResetFailed(id), now);
      ok := matched != {};
      assert id in matched <==> id in old(rows) && Where(ResetFailed(id), id, old(rows)[id], now);
      assert matched <= {id};
    }

    method CancelTask(id: Id, now: Time) returns (ok: bool)
      requires Valid()
      modifies this`rows
      ensures Valid()
      ensures ok <==> id in old(rows) && old(rows)[id].status == Pending
      ensures rows == Update(old(rows), CancelPending(id), now)
      ensures !ok ==> rows == old(rows)
      ensures ok ==>
                rows == old(rows)[id := old(rows)[id].(status := Cancelled, completedAt := Some(now),
                                                       error := Some("cancelled by user"))]
    {
      var matched := Run(CancelPending(id), now);
      ok := matched != {};
      assert id in matched <==> id in old(rows) && Where(CancelPending(id), id, old(rows)[id], now);
      assert matched <= {id};
    }

    method CleanupExpiredTasks(now: Time) returns (count: nat)
      requires Valid()
      modifies this`rows
      ensures Valid()
      ensures rows == Update(old(rows), ExpireOverdue, now)
      ensures count == |Matched(old(rows), ExpireOverdue, now)|
      ensures rows.Keys == old(rows).Keys
      ensures forall id :: id in rows ==>
                var row := old(rows)[id];
                rows[id] == (if row.status in {Pending, Running} && row.ttl.Some? && row.ttl.value > 0.0
                                && row.createdAt + row.ttl.value < now
                             then row.(status := Expired, completedAt := Some(now), error := Some("ttl expired"))
                             else row)
    {
      var matched := Run(ExpireOverdue, now);
      count := |matched|;
      forall id | id in rows ensures Terminal(old(rows)[id].status) <==> old(rows)[id].status !in {Pending, Running} {
        NotTerminal(old(rows)[id].status);
      }
    }

    /** Deletes the rows a filter selected, whatever their status. */
    method DeleteTasks(selected: set<Id>) returns (count: nat)
      requires Valid()
      modifies this`rows
      ensures Valid()
      ensures rows == old(rows) - selected
      ensures count == |selected * old(rows).Keys|
    {
      count := |selected * rows.Keys|;
      rows := rows - selected;
    }
  }
}
