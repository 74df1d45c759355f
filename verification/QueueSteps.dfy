/**
 * The machine does what the operations do: each call that runs without interruption is a step of the machine, or
 * two for a failure, with the same effect on the rows and always possible where the call is.
 */
module QueueSteps {
  import opened Prelude
  import opened TaskTable
  import opened RustTwin
  import opened QueueMachine

  /** Workers' heartbeats and reapers may come at any moment. */
  lemma BeatsAndReapsMayAct(s: State, w: WorkerId, maxRunning: real, locked: set<Id>)
    ensures Step(s, Heartbeat(w)) == s.(rows := Update(s.rows, Beat(w), s.clock))
    ensures Step(s, Reap(maxRunning, locked)) == s.(rows := Update(s.rows, ReapStale(maxRunning, locked), s.clock))
  {
  }

  /** And so may operators and the expiry. */
  lemma CancelsMayAct(s: State, id: Id)
    ensures Step(s, Cancel(id)) == s.(rows := Update(s.rows, CancelPending(id), s.clock))
  {
  }

  lemma ExpiryMayAct(s: State)
    ensures Step(s, Expire) == s.(rows := Update(s.rows, ExpireOverdue, s.clock))
  {
  }

  lemma DeletesMayAct(s: State, ids: set<Id>)
    ensures Step(s, Delete(ids)) == s.(rows := s.rows - ids)
  {
  }

  lemma RequeueMayAct(s: State, id: Id)
    ensures Step(s, Requeue(id)) == s.(rows := Update(s.rows, ResetFailed(id), s.clock))
  {
    if !Enabled(s, Requeue(id)) {
      assert Update(s.rows, ResetFailed(id), s.clock) == s.rows;
    }
  }

  lemma TimePasses(s: State, to: Time)
    ensures Step(s, Tick(to)) == if s.clock <= to then s.(clock := to) else s
  {
  }

  lemma AnyoneMayEnqueue(s: State, id: Id, req: Request)
    requires id !in s.issued
    ensures Step(s, Enqueue(id, req))
         == if req.ttl == Some(0.0) then s
            else s.(rows := s.rows[id := NewRow(req, s.clock)], issued := s.issued + {id})
  {
  }

  /** A new executor may claim any row that is pending and due, the best one among them. */
  lemma AnyoneMayClaim(s: State, x: ExecId, id: Id, w: WorkerId)
    requires x !in s.seen && id in s.rows && s.rows[id].status == Pending && s.rows[id].scheduledAt <= s.clock
    ensures var s' := Step(s, Claim(x, id, w));
            && s'.rows == Update(s.rows, MarkRunning(id, w), s.clock)
            && s'.execs == s.execs[x := Executor(id, w, s.clock, s.rows[id].attempts, s.rows[id].maxRetries,
                                                 Executing, false)]
            && s'.seen == s.seen + {x} && s'.clock == s.clock && s'.issued == s.issued
  {
  }

  /** An executor may stop for good at any moment. */
  lemma ExecutorMayDie(s: State, x: ExecId)
    requires x in s.execs
    ensures Step(s, Abandon(x)) == s.(execs := s.execs - {x})
  {
  }

  /** It may complete its task at any moment after its claim, whatever has become of the row. */
  lemma ExecutorMayComplete(s: State, x: ExecId, id: Id, result: Option<string>, acked: bool)
    requires Holds(s, x, id) && s.execs[x].phase == Executing
    ensures Step(s, CompleteWrite(x, id, result, acked))
         == s.(rows := Update(s.rows, MarkCompleted(id, result), s.clock),
               execs := if acked then s.execs - {x} else s.execs)
  {
  }

  /** Its failure, read and write with nothing in between, is FailTask. */
  lemma ExecutorMayFail(s: State, x: ExecId, id: Id, error: string)
    requires Holds(s, x, id) && s.execs[x].phase == Executing
    ensures var s' := Step(Step(s, FailRead(x, id)), FailWrite(x, id, error));
            && s'.execs == s.execs - {x} && s'.clock == s.clock
            && s'.rows == (if id in s.rows then Update(s.rows, MarkFailure(id, Plan(s.rows[id]), error), s.clock)
                           else s.rows)
  {
  }

  /** Between the two, time and everyone else may act; the write is possible whenever it comes. */
  lemma PlannedFailureMayBeWritten(s: State, x: ExecId, id: Id, error: string)
    requires Holds(s, x, id) && s.execs[x].phase.Planned?
    ensures Step(s, FailWrite(x, id, error))
         == s.(rows := Update(s.rows, MarkFailure(id, s.execs[x].phase.plan, error), s.clock), execs := s.execs - {x})
  {
  }

  lemma RustMayFail(s: State, x: ExecId, id: Id, error: string)
    requires Holds(s, x, id) && s.execs[x].phase == Executing && 0 <= s.execs[x].attempts < I32_MAX
    ensures var k := s.execs[x].attempts + 1;
            var plan := if k < s.execs[x].maxRetries then RetryAfter(k, BackoffEntry(k) as real) else GiveUp(k);
            var rows := Update(s.rows, MarkFailure(id, plan, error), s.clock);
            Step(s, RustFailWrite(x, id, error)) == s.(rows := rows, execs := s.execs - {x})
  {
    BackoffsAgree(Debug, s.execs[x].attempts + 1);
    BackoffSchedule(s.execs[x].attempts + 1);
  }

  lemma SubprocessMayRetry(s: State, x: ExecId, id: Id, message: string, countdown: real)
    requires Holds(s, x, id) && s.execs[x].phase == Executing && !s.execs[x].manuallyRetried
    ensures Step(s, ManualRetryWrite(x, id, message, countdown))
         == s.(rows := Update(s.rows, MarkManualRetry(id, message, countdown), s.clock),
               execs := s.execs[x := s.execs[x].(manuallyRetried := true)])
  {
  }
}
