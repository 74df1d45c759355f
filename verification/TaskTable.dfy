/**
 * The task table: its rows, and every SQL statement that writes it.
 *
 * An UPDATE is a WHERE clause and a SET clause, both evaluated row by row, so a statement is a
 * constructor of `Stmt` with a predicate `Where` and a function `Set`; `Update` applies it to a table.
 * `now` is the database clock at the statement.
 */
module TaskTable {
  import opened Prelude

  type Id = nat
  type WorkerId = nat

  datatype Status = Pending | Running | Completed | Failed | Cancelled | Expired

  datatype Row = Row(
    status: Status,
    attempts: int,
    maxRetries: int,
    priority: int,
    createdAt: Time,
    scheduledAt: Time,
    startedAt: Option<Time>,
    completedAt: Option<Time>,
    lastHeartbeat: Option<Time>,
    worker: Option<WorkerId>,
    ttl: Option<real>,
    retryDelay: Option<real>,
    retryBackoff: bool,
    result: Option<string>,
    error: Option<string>)

  type Table = map<Id, Row>

  predicate Terminal(status: Status) {
    status in {Completed, Failed, Cancelled, Expired}
  }

  // ---- Insertion -----------------------------------------------------------------------------

  /** What a caller of enqueue chooses; an absent scheduled time means now, an absent flag means true. */
  datatype Request = Request(
    scheduledAt: Option<Time>,
    maxRetries: int,
    priority: int,
    ttl: Option<real>,
    retryDelay: Option<real>,
    retryBackoff: Option<bool>)

  function NewRow(req: Request, now: Time): Row {
    Row(Pending, 0, req.maxRetries, req.priority, now,
        if req.scheduledAt.Some? then req.scheduledAt.value else now,
        None, None, None, None, req.ttl, req.retryDelay,
        req.retryBackoff.Some? ==> req.retryBackoff.value,
        None, None)
  }

  // ---- Selection of the row to claim ---------------------------------------------------------

  predicate Eligible(row: Row, statuses: set<Status>, now: Time) {
    row.status in statuses && row.scheduledAt <= now
  }

  /** ORDER BY priority DESC, created_at: `a` comes strictly before `b`. */
  predicate Before(a: Row, b: Row) {
    a.priority > b.priority || (a.priority == b.priority && a.createdAt < b.createdAt)
  }

  function EligibleIds(t: Table, statuses: set<Status>, now: Time): set<Id> {
    set id | id in t && Eligible(t[id], statuses, now)
  }

  /** `id` may head the claim query's ordered result; rows that tie may come in any order. */
  predicate Best(t: Table, statuses: set<Status>, now: Time, id: Id) {
    && id in EligibleIds(t, statuses, now)
    && forall other :: other in EligibleIds(t, statuses, now) ==> !Before(t[other], t[id])
  }

  // ---- The retry rule ------------------------------------------------------------------------

  const BACKOFF_SECONDS: seq<int> := [10, 30, 60, 300, 600]

  function RetryBackoffSeconds(attempt: int): int {
    if attempt <= 0 then 0
    else if attempt > |BACKOFF_SECONDS| then BACKOFF_SECONDS[|BACKOFF_SECONDS| - 1]
    else BACKOFF_SECONDS[attempt - 1]
  }

  /** The schedule, entry by entry. */
  function BackoffEntry(attempt: int): int {
    if attempt <= 0 then 0
    else if attempt == 1 then 10
    else if attempt == 2 then 30
    else if attempt == 3 then 60
    else if attempt == 4 then 300
    else 600
  }

  /** The lookup reads the schedule's entries in turn, and its last for ever. */
  lemma BackoffSchedule(attempt: int)
    ensures RetryBackoffSeconds(attempt) == BackoffEntry(attempt)
  {
  }

  /** What a failure will write: another try after a delay, or the final failure. */
  datatype FailPlan = RetryAfter(attempts: int, delay: real) | GiveUp(attempts: int)

  /** The decision the Python worker takes from the row it has just read. */
  function Plan(row: Row): FailPlan {
    var attempts := row.attempts + 1;
    if attempts < row.maxRetries then RetryAfter(attempts, RetryDelay(row, attempts)) else GiveUp(attempts)
  }

  function RetryDelay(row: Row, attempts: int): real {
    if row.retryBackoff then RetryBackoffSeconds(attempts) as real
    else if row.retryDelay.Some? then row.retryDelay.value
    else 10.0
  }

  // ---- Statements ----------------------------------------------------------------------------

  datatype Stmt =
    | MarkRunning(id: Id, owner: WorkerId)
    | MarkCompleted(id: Id, result: Option<string>)
    | MarkFailure(id: Id, plan: FailPlan, error: string)
    | MarkManualRetry(id: Id, message: string, countdown: real)
    | Beat(owner: WorkerId)
    | ReapStale(maxRunning: real, locked: set<Id>)
    | ResetFailed(id: Id)
    | CancelPending(id: Id)
    | ExpireOverdue

  /** `locked` holds the rows SKIP LOCKED passes over. */
  predicate Where(st: Stmt, id: Id, row: Row, now: Time) {
    match st
    case MarkRunning(i, _) => id == i
    case MarkCompleted(i, _) => id == i
    case MarkFailure(i, _, _) => id == i
    case MarkManualRetry(i, _, _) => id == i
    case Beat(w) => row.worker == Some(w) && row.status == Running
    case ReapStale(maxRunning, locked) =>
      row.status == Running && row.startedAt.Some? && row.startedAt.value < now - maxRunning && id !in locked
    case ResetFailed(i) => id == i && row.status == Failed
    case CancelPending(i) => id == i && row.status == Pending
    case ExpireOverdue =>
      row.ttl.Some? && row.ttl.value > 0.0 && !Terminal(row.status) && row.createdAt + row.ttl.value < now
  }

  function Set(st: Stmt, row: Row, now: Time): Row {
    match st
    case MarkRunning(_, w) =>
      row.(status := Running, startedAt := Some(now), worker := Some(w), lastHeartbeat := Some(now))
    case MarkCompleted(_, result) =>
      row.(status := Completed, result := result, completedAt := Some(now))
    case MarkFailure(_, RetryAfter(attempts, delay), error) =>
      row.(status := Pending, attempts := attempts, error := Some(error), scheduledAt := now + delay,
           startedAt := None, worker := None)
    case MarkFailure(_, GiveUp(attempts), error) =>
      row.(status := Failed, attempts := attempts, error := Some(error), completedAt := Some(now))
    case MarkManualRetry(_, message, countdown) =>
      row.(status := Pending, attempts := row.attempts + 1, error := Some(message),
           scheduledAt := now + countdown, startedAt := None, worker := None)
    case Beat(_) => row.(lastHeartbeat := Some(now))
    case ReapStale(_, _) =>
      row.(status := Pending, startedAt := None, worker := None, attempts := row.attempts + 1,
           error := Some("recovered after timeout"))
    case ResetFailed(_) =>
      row.(status := Pending, attempts := 0, error := None, scheduledAt := now, startedAt := None,
           completedAt := None, worker := None)
    case CancelPending(_) =>
      row.(status := Cancelled, completedAt := Some(now), error := Some("cancelled by user"))
    case ExpireOverdue =>
      row.(status := Expired, completedAt := Some(now), error := Some("ttl expired"))
  }

  function UpdateRow(st: Stmt, id: Id, row: Row, now: Time): Row {
    if Where(st, id, row, now) then Set(st, row, now) else row
  }

  function Update(t: Table, st: Stmt, now: Time): (u: Table)
    ensures u.Keys == t.Keys
    ensures forall id :: id in t ==> u[id] == UpdateRow(st, id, t[id], now)
  {
    map id | id in t :: UpdateRow(st, id, t[id], now)
  }

  function Matched(t: Table, st: Stmt, now: Time): set<Id> {
    set id | id in t && Where(st, id, t[id], now)
  }
}
