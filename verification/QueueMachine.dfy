/**
 * The queue as a step machine: one task table, one database clock, and the executors at work on claimed
 * tasks. Every SQL statement is one event; `fail_task` is two, a read and a later write, and anything may
 * happen in between.
 *
 * Any sequence of events is a run: an event whose guard fails changes nothing.
 */
module QueueMachine {
  import opened Prelude
  import opened TaskTable
  import opened RustTwin

  type ExecId = nat

  /** Planned: the read of fail_task is done, its write is not. */
  datatype Phase = Executing | Planned(plan: FailPlan)

  /** An executor remembers its claim: who made it, when, and the row's attempts and limit at that moment. */
  datatype Executor = Executor(
    task: Id,
    worker: WorkerId,
    startedAt: Time,
    attempts: int,
    maxRetries: int,
    phase: Phase,
    manuallyRetried: bool)

  /** `issued` and `seen` are the task ids and executor names used so far; neither is ever reused. */
  datatype State = State(
    clock: Time,
    rows: Table,
    issued: set<Id>,
    execs: map<ExecId, Executor>,
    seen: set<ExecId>)

  const INIT := State(0.0, map[], {}, map[], {})

  /**
   * Outcome writes carry the executor and its task.
   *  - CompleteWrite(acked): false when the worker sees an error although the write took effect; it then
   *    goes on to fail_task.
   *  - RustFailWrite: the Rust worker's failure, a single write from claim-time values.
   *  - ManualRetryWrite: a RetryError inside a subprocess; its parent still has its own outcome to write.
   *  - Abandon: the executor stops for good without a write, as when its process dies.
   */
  datatype Event =
    | Tick(to: Time)
    | Enqueue(id: Id, req: Request)
    | Claim(x: ExecId, id: Id, owner: WorkerId)
    | CompleteWrite(x: ExecId, id: Id, result: Option<string>, acked: bool)
    | FailRead(x: ExecId, id: Id)
    | FailWrite(x: ExecId, id: Id, error: string)
    | RustFailWrite(x: ExecId, id: Id, error: string)
    | ManualRetryWrite(x: ExecId, id: Id, message: string, countdown: real)
    | Abandon(x: ExecId)
    | Heartbeat(owner: WorkerId)
    | Reap(maxRunning: real, locked: set<Id>)
    | Requeue(id: Id)
    | Cancel(id: Id)
    | Expire
    | Delete(ids: set<Id>)

  /** Executor `x` works on task `id`. */
  predicate Holds(s: State, x: ExecId, id: Id) {
    x in s.execs && s.execs[x].task == id
  }

  /** A claim may take any eligible row, so that every choice SKIP LOCKED can make is covered. */
  predicate Enabled(s: State, e: Event) {
    match e
    case Tick(to) => s.clock <= to
    case Enqueue(id, req) => id !in s.issued && req.ttl != Some(0.0)
    case Claim(x, id, _) => x !in s.seen && id in EligibleIds(s.rows, {Pending}, s.clock)
    case CompleteWrite(x, id, _, _) => Holds(s, x, id) && s.execs[x].phase == Executing
    case FailRead(x, id) => Holds(s, x, id) && s.execs[x].phase == Executing
    case FailWrite(x, id, _) => Holds(s, x, id) && s.execs[x].phase.Planned?
    case RustFailWrite(x, id, _) =>
      && Holds(s, x, id) && s.execs[x].phase == Executing
      && PlanFromClaim(s.execs[x].attempts, s.execs[x].maxRetries).Some?
    case ManualRetryWrite(x, id, _, _) =>
      Holds(s, x, id) && s.execs[x].phase == Executing && !s.execs[x].manuallyRetried
    case Abandon(x) => x in s.execs
    case Requeue(id) => id in s.rows && s.rows[id].status == Failed
    case _ => true
  }

  /** The UPDATE an event issues, if any. */
  function StmtOf(s: State, e: Event): Option<Stmt>
    requires Enabled(s, e)
  {
    match e
    case Claim(_, id, w) => Some(MarkRunning(id, w))
    case CompleteWrite(_, id, result, _) => Some(MarkCompleted(id, result))
    case FailWrite(x, id, error) => Some(MarkFailure(id, s.execs[x].phase.plan, error))
    case RustFailWrite(x, id, error) =>
      Some(MarkFailure(id, PlanFromClaim(s.execs[x].attempts, s.execs[x].maxRetries).value, error))
    case ManualRetryWrite(_, id, message, countdown) => Some(MarkManualRetry(id, message, countdown))
    case Heartbeat(w) => Some(Beat(w))
    case Reap(maxRunning, locked) => Some(ReapStale(maxRunning, locked))
    case Requeue(id) => Some(ResetFailed(id))
    case Cancel(id) => Some(CancelPending(id))
    case Expire => Some(ExpireOverdue)
    case _ => None
  }

  function NextRows(s: State, e: Event): Table
    requires Enabled(s, e)
  {
    match e
    case Enqueue(id, req) => s.rows[id := NewRow(req, s.clock)]
    case Delete(ids) => s.rows - ids
    case _ => if StmtOf(s, e).Some? then Update(s.rows, StmtOf(s, e).value, s.clock) else s.rows
  }

  function NextExecs(s: State, e: Event): map<ExecId, Executor>
    requires Enabled(s, e)
  {
    match e
    case Claim(x, id, w) =>
      s.execs[x := Executor(id, w, s.clock, s.rows[id].attempts, s.rows[id].maxRetries, Executing, false)]
    case CompleteWrite(x, _, _, acked) => if acked then s.execs - {x} else s.execs
    case FailRead(x, id) =>
      if id in s.rows then s.execs[x := s.execs[x].(phase := Planned(Plan(s.rows[id])))] else s.execs - {x}
    case FailWrite(x, _, _) => s.execs - {x}
    case RustFailWrite(x, _, _) => s.execs - {x}
    case ManualRetryWrite(x, _, _, _) => s.execs[x := s.execs[x].(manuallyRetried := true)]
    case Abandon(x) => s.execs - {x}
    case _ => s.execs
  }

  function Apply(s: State, e: Event): State
    requires Enabled(s, e)
  {
    State(
      if e.Tick? then e.to else s.clock,
      NextRows(s, e),
      if e.Enqueue? then s.issued + {e.id} else s.issued,
      NextExecs(s, e),
      if e.Claim? then s.seen + {e.x} else s.seen)
  }

  function Step(s: State, e: Event): State {
    if Enabled(s, e) then Apply(s, e) else s
  }

  function After(es: seq<Event>): State {
    if es == [] then INIT else Step(After(es[..|es| - 1]), es[|es| - 1])
  }

  lemma AfterPrefix(es: seq<Event>, n: nat)
    requires n < |es|
    ensures After(es[..n + 1]) == Step(After(es[..n]), es[n])
  {
    assert es[..n + 1][..n] == es[..n];
  }

  /** How a step treats a row that was there before: it deletes it, or runs its statement on it. */
  lemma RowStep(s: State, e: Event, id: Id)
    requires Enabled(s, e) && id in s.rows && !(e.Enqueue? && e.id == id)
    ensures id in Apply(s, e).rows <==> !(e.Delete? && id in e.ids)
    ensures id in Apply(s, e).rows ==>
              Apply(s, e).rows[id] == (if StmtOf(s, e).Some? then UpdateRow(StmtOf(s, e).value, id, s.rows[id], s.clock)
                                       else s.rows[id])
  {
  }
}
