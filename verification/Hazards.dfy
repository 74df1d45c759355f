/**
 * What goes wrong without the premises: an executor that outlives the reaper's threshold, what it then does to
 * the task, and a completion that is not acknowledged.
 */
module Hazards {
  import opened Prelude
  import opened TaskTable
  import opened QueueMachine
  import opened QueueShape
  import opened QueueLease
  import opened QueueLedger

  /**
   * From every reachable state in which a task has run for longer than a reaper's threshold with its executor
   * still at work: once that reaper has run, any worker may claim the task, and it then has two executors.
   */
  lemma TwoExecutors(s: State, x: ExecId, id: Id, maxRunning: real, locked: set<Id>, y: ExecId, w: WorkerId)
    requires Shaped(s) && Holds(s, x, id) && y !in s.seen
    requires id in s.rows && s.rows[id].status == Running && id !in locked
    requires s.rows[id].startedAt.Some? && s.rows[id].startedAt.value < s.clock - maxRunning
    ensures var s1 := Step(s, Reap(maxRunning, locked));
            var s2 := Step(s1, Claim(y, id, w));
            Hits(Reaps, s, Reap(maxRunning, locked), id) && Hits(Claims, s1, Claim(y, id, w), id)
            && x != y && Holds(s2, x, id) && Holds(s2, y, id)
  {
    assert RowShape(s.rows[id], s.clock) && ExecShape(s, x);
    RowStep(s, Reap(maxRunning, locked), id);
  }

  /**
   * From every state with two executors at work on a task: one completes it, the other reports a failure, and
   * the completed row goes back to pending exactly when a try is left, and else fails.
   */
  lemma CompletedReopened(s: State, x: ExecId, y: ExecId, id: Id, result: Option<string>, error: string)
    requires x != y && Holds(s, x, id) && Holds(s, y, id) && id in s.rows
    requires s.execs[x].phase == Executing && s.execs[y].phase == Executing
    ensures var s1 := Step(s, CompleteWrite(y, id, result, true));
            var s3 := Step(Step(s1, FailRead(x, id)), FailWrite(x, id, error));
            && s1.rows[id].status == Completed
            && s3.rows[id].status == (if s.rows[id].attempts + 1 < s.rows[id].maxRetries then Pending else Failed)
  {
    RowStep(s, CompleteWrite(y, id, result, true), id);
    var s1 := Step(s, CompleteWrite(y, id, result, true));
    RowStep(s1, FailRead(x, id), id);
    RowStep(Step(s1, FailRead(x, id)), FailWrite(x, id, error), id);
  }

  /**
   * A completion that takes effect unacknowledged is followed by the failure its worker then reports, and within
   * the lease at that: the completed row goes back to pending exactly when a try is left, and else fails.
   */
  lemma UnacknowledgedIsReopened(s: State, x: ExecId, id: Id, lease: real, result: Option<string>, error: string)
    requires Live(s, x, id, lease) && s.execs[x].phase == Executing && id in s.rows
    ensures var s1 := Step(s, CompleteWrite(x, id, result, false));
            var s2 := Step(s1, FailRead(x, id));
            var s3 := Step(s2, FailWrite(x, id, error));
            && KeepsLease(s, CompleteWrite(x, id, result, false), id, lease)
            && KeepsLease(s1, FailRead(x, id), id, lease) && KeepsLease(s2, FailWrite(x, id, error), id, lease)
            && s1.rows[id].status == Completed
            && s3.rows[id].status == (if s.rows[id].attempts + 1 < s.rows[id].maxRetries then Pending else Failed)
  {
    var s1 := Step(s, CompleteWrite(x, id, result, false));
    RowStep(s, CompleteWrite(x, id, result, false), id);
    var s2 := Step(s1, FailRead(x, id));
    RowStep(s1, FailRead(x, id), id);
    RowStep(s2, FailWrite(x, id, error), id);
  }
}
