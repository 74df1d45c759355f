/** How far apart in time the tries of a failing task are. */
module RetrySpacing {
  import opened Prelude
  import opened TaskTable
  import opened RustTwin
  import opened QueueMachine
  import opened QueueShape
  import opened QueueLease
  import opened QueueLedger

  // ---- After one failure ---------------------------------------------------------------------

  /** Not started, and not to be claimed before `due`. */
  predicate Waiting(row: Row, due: Time) {
    row.startedAt.None? && row.scheduledAt == due && row.status in {Pending, Cancelled, Expired}
  }

  /** The due time has come, or the task is gone or still waiting for it. */
  ghost predicate HeldBack(s: State, id: Id, due: Time) {
    due <= s.clock || (id in s.issued && (id in s.rows ==> Waiting(s.rows[id], due)))
  }

  lemma WaitingStatement(st: Stmt, id: Id, row: Row, now: Time, due: Time)
    requires Waiting(row, due) && RowShape(row, now)
    requires Where(st, id, row, now) ==> !ByIdWrite(st)
    ensures Waiting(UpdateRow(st, id, row, now), due)
  {
  }

  lemma HeldBackStep(s: State, e: Event, id: Id, lease: real, due: Time)
    requires Exclusive(s, id, lease) && KeepsLease(s, e, id, lease) && HeldBack(s, id, due)
    ensures HeldBack(Step(s, e), id, due)
  {
    if Enabled(s, e) && s.clock < due && id in Apply(s, e).rows {
      assert !(e.Enqueue? && e.id == id);
      RowStep(s, e, id);
      assert RowShape(s.rows[id], s.clock);
      if TouchedBy(e, id) {
        WriterIsHolder(s, e, id, lease);
      } else if StmtOf(s, e).Some? {
        WaitingStatement(StmtOf(s, e).value, id, s.rows[id], s.clock, due);
      }
    }
  }

  lemma HeldBackAt(es: seq<Event>, lease: real, j: nat, id: Id, due: Time)
    requires Leased(es, id, lease) && j < |es| && HeldBack(After(es[..j]), id, due)
    ensures HeldBack(After(es[..j + 1]), id, due)
  {
    LeasedPrefix(es, j, id, lease);
    AlwaysExclusive(es[..j], id, lease);
    AfterPrefix(es, j);
    HeldBackStep(After(es[..j]), es[j], id, lease, due);
  }

  lemma {:induction false} HeldBackAlong(es: seq<Event>, lease: real, i: nat, j: nat, id: Id, due: Time)
    requires Leased(es, id, lease) && i <= j <= |es| && HeldBack(After(es[..i]), id, due)
    ensures HeldBack(After(es[..j]), id, due)
    decreases j
  {
    if i < j {
      HeldBackAlong(es, lease, i, j - 1, id, due);
      HeldBackAt(es, lease, j - 1, id, due);
    }
  }

  /** What a failure write of a live executor leaves behind when it sends the row back. */
  lemma FailureSchedules(s: State, e: Event, id: Id, lease: real)
    requires Exclusive(s, id, lease) && KeepsLease(s, e, id, lease) && Hits(Failures, s, e, id) && id in s.rows
    requires s.rows[id].retryBackoff
    ensures id in Step(s, e).rows
    ensures var row := Step(s, e).rows[id];
            && row.attempts == s.rows[id].attempts + 1
            && (row.status == Pending ==> Waiting(row, s.clock + RetryBackoffSeconds(row.attempts) as real))
            && (row.status != Pending ==> row.status == Failed)
            && row.retryBackoff
  {
    RowStep(s, e, id);
    WriterIsHolder(s, e, id, lease);
    assert RowShape(s.rows[id], s.clock);
    if e.RustFailWrite? {
      RustPlanOf(s, e.x, s.rows[id]);
    }
  }

  lemma RustPlanOf(s: State, x: ExecId, row: Row)
    requires x in s.execs && Current(s.execs[x], row) && row.attempts >= 0 && row.retryBackoff
    requires PlanFromClaim(s.execs[x].attempts, s.execs[x].maxRetries).Some?
    ensures PlanFromClaim(s.execs[x].attempts, s.execs[x].maxRetries) == Some(Plan(row))
  {
    PlansAgree(row);
  }

  /**
   * Spacing. When a failure of a task with backoff on brings its attempts to k and sends it back, the task
   * is not claimed again until the backoff for k has passed, reaps or no reaps.
   */
  lemma BackoffIsWaitedFor(es: seq<Event>, lease: real, i: nat, j: nat, id: Id)
    requires Leased(es, id, lease) && i < j < |es|
    requires Hits(Failures, After(es[..i]), es[i], id)
    requires id in After(es[..i]).rows && After(es[..i]).rows[id].retryBackoff
    requires id in After(es[..i + 1]).rows && After(es[..i + 1]).rows[id].status == Pending
    requires Hits(Claims, After(es[..j]), es[j], id)
    ensures After(es[..j]).clock
         >= After(es[..i]).clock + RetryBackoffSeconds(After(es[..i + 1]).rows[id].attempts) as real
  {
    var due := After(es[..i]).clock + RetryBackoffSeconds(After(es[..i + 1]).rows[id].attempts) as real;
    LeasedPrefix(es, i, id, lease);
    AlwaysExclusive(es[..i], id, lease);
    AfterPrefix(es, i);
    FailureSchedules(After(es[..i]), es[i], id, lease);
    AlwaysShaped(es[..i + 1]);
    HeldBackAlong(es, lease, i + 1, j, id, due);
  }

  /** How long a failure makes the task wait: the backoff, always with Rust; or the row's own delay, or 10 seconds. */
  function WaitAfter(row: Row, rust: bool): real {
    if rust || row.retryBackoff then BackoffEntry(row.attempts + 1) as real
    else if row.retryDelay.Some? then row.retryDelay.value
    else 10.0
  }

  lemma RustPlanWaits(attempts: int, maxRetries: int)
    requires attempts >= 0 && PlanFromClaim(attempts, maxRetries).Some?
    ensures PlanFromClaim(attempts, maxRetries).value
         == if attempts + 1 < maxRetries then RetryAfter(attempts + 1, BackoffEntry(attempts + 1) as real)
            else GiveUp(attempts + 1)
  {
    BackoffsAgree(Debug, attempts + 1);
    BackoffSchedule(attempts + 1);
  }

  lemma PythonPlanWaits(row: Row)
    ensures Plan(row)
         == if row.attempts + 1 < row.maxRetries then RetryAfter(row.attempts + 1, WaitAfter(row, false))
            else GiveUp(row.attempts + 1)
  {
    BackoffSchedule(row.attempts + 1);
  }

  /** Any failure write of a live executor, backoff on or off, in either language. */
  lemma AnyFailureSchedules(s: State, e: Event, id: Id, lease: real)
    requires Exclusive(s, id, lease) && KeepsLease(s, e, id, lease) && Hits(Failures, s, e, id) && id in s.rows
    ensures id in Step(s, e).rows
    ensures var row, row' := s.rows[id], Step(s, e).rows[id];
            if row.attempts + 1 < row.maxRetries
            then row'.status == Pending && Waiting(row', s.clock + WaitAfter(row, e.RustFailWrite?))
            else row'.status == Failed
  {
    RowStep(s, e, id);
    WriterIsHolder(s, e, id, lease);
    assert RowShape(s.rows[id], s.clock);
    if e.RustFailWrite? {
      RustPlanWaits(s.execs[e.x].attempts, s.execs[e.x].maxRetries);
    } else {
      PythonPlanWaits(s.rows[id]);
    }
  }

  /**
   * Spacing, whatever the task's settings: a failure that sends it back is followed by no claim before the wait is
   * over, which is its own retry_delay when backoff is off and a Python worker writes the failure.
   */
  lemma {:induction false} DelayIsWaitedFor(es: seq<Event>, lease: real, i: nat, j: nat, id: Id)
    requires Leased(es, id, lease) && i < j < |es|
    requires Hits(Failures, After(es[..i]), es[i], id) && id in After(es[..i]).rows
    requires id in After(es[..i + 1]).rows && After(es[..i + 1]).rows[id].status == Pending
    requires Hits(Claims, After(es[..j]), es[j], id)
    ensures After(es[..j]).clock
         >= After(es[..i]).clock + WaitAfter(After(es[..i]).rows[id], es[i].RustFailWrite?)
  {
    var due := After(es[..i]).clock + WaitAfter(After(es[..i]).rows[id], es[i].RustFailWrite?);
    ExclusiveAt(es, i, id, lease);
    AfterPrefix(es, i);
    AnyFailureSchedules(After(es[..i]), es[i], id, lease);
    AlwaysShaped(es[..i + 1]);
    HeldBackAlong(es, lease, i + 1, j, id, due);
  }

  // ---- Over a whole epoch --------------------------------------------------------------------

  /** The backoffs for 1 to n added up, in seconds. */
  function BackoffSum(n: nat): real {
    if n == 0 then 0.0 else BackoffSum(n - 1) + RetryBackoffSeconds(n) as real
  }

  lemma {:induction false} BackoffSumClosed(n: nat)
    requires n >= 5
    ensures BackoffSum(n) == (1000 + 600 * (n - 5)) as real
  {
    if n == 5 {
      assert BackoffSum(3) == 100.0;
      assert BackoffSum(5) == 1000.0;
    } else {
      BackoffSumClosed(n - 1);
    }
  }

  /** The backoffs but the last. */
  function BackoffsBefore(n: nat): real {
    if n == 0 then 0.0 else BackoffSum(n - 1)
  }

  /** When the first and the latest failure since the task was last enqueued or requeued were written. */
  datatype Span = NoFailure | Between(first: Time, latest: Time)

  ghost function FailureSpan(es: seq<Event>, id: Id): Span {
    if es == [] then NoFailure else
    SpanStep(FailureSpan(es[..|es| - 1], id), After(es[..|es| - 1]), es[|es| - 1], id)
  }

  ghost function SpanStep(span: Span, s: State, e: Event, id: Id): Span {
    if Opens(s, e, id) then NoFailure
    else if !Hits(Failures, s, e, id) then span
    else match span
      case NoFailure => Between(s.clock, s.clock)
      case Between(first, _) => Between(first, s.clock)
  }

  /** When the row last started, or else is next to start. */
  function Start(row: Row): Time {
    if row.startedAt.Some? then row.startedAt.value else row.scheduledAt
  }

  /** With `n` failures and no reap, the failures and the next start are at least the backoffs apart. */
  ghost predicate Spaced(row: Row, n: nat, span: Span) {
    && (n == 0 <==> span.NoFailure?)
    && Apart(row, BackoffsBefore(n), BackoffSum(n), span)
  }

  lemma SpacedOn(before: Row, after: Row, n: nat, span: Span, span': Span, failed: bool)
    requires Spaced(before, n, span)
    requires failed ==>
               span'.Between? && Apart(after, BackoffSum(n), BackoffSum(n) + RetryBackoffSeconds(n + 1) as real, span')
    requires !failed ==>
               span' == span && Apart(after, BackoffsBefore(n), BackoffSum(n), span)
    ensures Spaced(after, n + (if failed then 1 else 0), span')
  {
  }

  /** The failures span the time `waited`, and the next start is `owed` after the first. */
  predicate Apart(row: Row, waited: real, owed: real, span: Span) {
    match span
    case NoFailure => owed == 0.0
    case Between(first, latest) =>
      latest >= first + waited && (row.status != Failed ==> Start(row) >= first + owed)
  }

  lemma ApartStatement(st: Stmt, id: Id, row: Row, now: Time, waited: real, owed: real, span: Span)
    requires RowShape(row, now) && Apart(row, waited, owed, span)
    requires Where(st, id, row, now) ==>
               st.Beat? || st.CancelPending? || st.ExpireOverdue? || (st.MarkCompleted? && row.status != Failed)
               || (st.MarkRunning? && Eligible(row, {Pending}, now))
    ensures Apart(UpdateRow(st, id, row, now), waited, owed, span)
  {
  }

  lemma ApartFailure(s: State, e: Event, id: Id, lease: real, waited: real, owed: real, span: Span)
    requires Exclusive(s, id, lease) && KeepsLease(s, e, id, lease) && Hits(Failures, s, e, id) && id in s.rows
    requires s.rows[id].retryBackoff && Apart(s.rows[id], waited, owed, span)
    ensures id in Step(s, e).rows && SpanStep(span, s, e, id).Between?
    ensures var next := owed + RetryBackoffSeconds(s.rows[id].attempts + 1) as real;
            Apart(Step(s, e).rows[id], owed, next, SpanStep(span, s, e, id))
  {
    FailureSchedules(s, e, id, lease);
    WriterIsHolder(s, e, id, lease);
    assert ExecShape(s, e.x);
  }

  lemma ApartOther(s: State, e: Event, id: Id, lease: real, waited: real, owed: real, span: Span)
    requires Exclusive(s, id, lease) && KeepsLease(s, e, id, lease) && Enabled(s, e)
    requires id in s.rows && id in Apply(s, e).rows && Apart(s.rows[id], waited, owed, span)
    requires !Opens(s, e, id) && !Hits(Failures, s, e, id) && !Hits(Reaps, s, e, id)
    ensures Apart(Apply(s, e).rows[id], waited, owed, span)
  {
    RowStep(s, e, id);
    assert RowShape(s.rows[id], s.clock);
    if StmtOf(s, e).Some? {
      if TouchedBy(e, id) {
        WriterIsHolder(s, e, id, lease);
      }
      ApartStatement(StmtOf(s, e).value, id, s.rows[id], s.clock, waited, owed, span);
    }
  }

  lemma StatementsKeepFlag(st: Stmt, id: Id, row: Row, now: Time)
    ensures UpdateRow(st, id, row, now).retryBackoff == row.retryBackoff
  {
  }

  lemma BackoffFlagIsFixed(s: State, e: Event, id: Id)
    requires Shaped(s) && id in Step(s, e).rows && !Opens(s, e, id)
    ensures id in s.rows && Step(s, e).rows[id].retryBackoff == s.rows[id].retryBackoff
  {
    if Enabled(s, e) {
      assert id in s.rows;
      RowStep(s, e, id);
      if StmtOf(s, e).Some? {
        StatementsKeepFlag(StmtOf(s, e).value, id, s.rows[id], s.clock);
      }
    }
  }

  lemma QuietStep(s: State, e: Event, id: Id, t: Tally)
    requires Shaped(s) && !Opens(s, e, id) && TallyStep(t, s, e, id).reaps == 0
    requires id in Step(s, e).rows && Step(s, e).rows[id].retryBackoff
    ensures id in s.rows && s.rows[id].retryBackoff && t.reaps == 0 && !Hits(Reaps, s, e, id)
    ensures TallyStep(t, s, e, id).failures == t.failures + Hit(Failures, s, e, id)
  {
    BackoffFlagIsFixed(s, e, id);
  }

  lemma ApartNext(s: State, e: Event, id: Id, lease: real, waited: real, owed: real, span: Span)
    requires Exclusive(s, id, lease) && KeepsLease(s, e, id, lease)
    requires id in s.rows && id in Step(s, e).rows && !Opens(s, e, id) && !Hits(Reaps, s, e, id)
    requires s.rows[id].retryBackoff && Apart(s.rows[id], waited, owed, span)
    ensures if Hits(Failures, s, e, id)
            then var next := owed + RetryBackoffSeconds(s.rows[id].attempts + 1) as real;
                 SpanStep(span, s, e, id).Between? && Apart(Step(s, e).rows[id], owed, next, SpanStep(span, s, e, id))
            else SpanStep(span, s, e, id) == span && Apart(Step(s, e).rows[id], waited, owed, span)
  {
    if Hits(Failures, s, e, id) {
      ApartFailure(s, e, id, lease, waited, owed, span);
    } else if Enabled(s, e) {
      ApartOther(s, e, id, lease, waited, owed, span);
    }
  }

  /** The last event of the run, and what it did to the task. */
  ghost predicate LastOpens(es: seq<Event>, id: Id)
    requires es != []
  {
    Opens(After(es[..|es| - 1]), es[|es| - 1], id)
  }

  ghost predicate LastHits(kind: Kind, es: seq<Event>, id: Id)
    requires es != []
  {
    Hits(kind, After(es[..|es| - 1]), es[|es| - 1], id)
  }

  lemma OpenedIsSpaced(es: seq<Event>, id: Id)
    requires es != [] && LastOpens(es, id) && id in After(es).rows
    ensures Spaced(After(es).rows[id], EpochTally(es, id).failures, FailureSpan(es, id))
  {
  }

  lemma QuietAt(es: seq<Event>, id: Id)
    requires es != [] && !LastOpens(es, id) && EpochTally(es, id).reaps == 0
    requires id in After(es).rows && After(es).rows[id].retryBackoff
    ensures var front := es[..|es| - 1];
            && id in After(front).rows && After(front).rows[id].retryBackoff
            && EpochTally(front, id).reaps == 0 && !LastHits(Reaps, es, id)
            && EpochTally(es, id).failures
            == EpochTally(front, id).failures + (if LastHits(Failures, es, id) then 1 else 0)
  {
    var front := es[..|es| - 1];
    AlwaysShaped(front);
    QuietStep(After(front), es[|es| - 1], id, EpochTally(front, id));
  }

  lemma AttemptsAreFailures(es: seq<Event>, lease: real, id: Id)
    requires Leased(es, id, lease) && id in After(es).rows && EpochTally(es, id).reaps == 0
    ensures After(es).rows[id].attempts == EpochTally(es, id).failures
  {
    LedgerIsExact(es, lease, id);
  }

  lemma ApartAt(es: seq<Event>, lease: real, id: Id, row: Row, waited: real, owed: real, span: Span)
    requires es != [] && Leased(es, id, lease) && !LastOpens(es, id) && !LastHits(Reaps, es, id)
    requires id in After(es).rows && id in After(es[..|es| - 1]).rows && row == After(es[..|es| - 1]).rows[id]
    requires row.retryBackoff && Apart(row, waited, owed, span) && span == FailureSpan(es[..|es| - 1], id)
    ensures if LastHits(Failures, es, id)
            then var next := owed + RetryBackoffSeconds(row.attempts + 1) as real;
                 FailureSpan(es, id).Between? && Apart(After(es).rows[id], owed, next, FailureSpan(es, id))
            else FailureSpan(es, id) == span && Apart(After(es).rows[id], waited, owed, span)
  {
    var front := es[..|es| - 1];
    AlwaysExclusive(front, id, lease);
    ApartNext(After(front), es[|es| - 1], id, lease, waited, owed, span);
  }

  /** With backoff on and no reap since the epoch began, the task's failures are spaced. */
  ghost predicate Tracks(es: seq<Event>, id: Id) {
    id in After(es).rows && After(es).rows[id].retryBackoff && EpochTally(es, id).reaps == 0 ==>
      Spaced(After(es).rows[id], EpochTally(es, id).failures, FailureSpan(es, id))
  }

  lemma TracksNext(es: seq<Event>, lease: real, id: Id)
    requires es != [] && Leased(es, id, lease) && !LastOpens(es, id) && Tracks(es[..|es| - 1], id)
    requires id in After(es).rows && After(es).rows[id].retryBackoff && EpochTally(es, id).reaps == 0
    ensures Spaced(After(es).rows[id], EpochTally(es, id).failures, FailureSpan(es, id))
  {
    var front := es[..|es| - 1];
    QuietAt(es, id);
    AttemptsAreFailures(front, lease, id);
    var row, n, span := After(front).rows[id], EpochTally(front, id).failures, FailureSpan(front, id);
    ApartAt(es, lease, id, row, BackoffsBefore(n), BackoffSum(n), span);
    SpacedOn(row, After(es).rows[id], n, span, FailureSpan(es, id), LastHits(Failures, es, id));
  }

  lemma {:induction false} AlwaysTracks(es: seq<Event>, lease: real, id: Id)
    requires Leased(es, id, lease)
    ensures Tracks(es, id)
  {
    if es != [] && id in After(es).rows && After(es).rows[id].retryBackoff && EpochTally(es, id).reaps == 0 {
      if LastOpens(es, id) {
        OpenedIsSpaced(es, id);
      } else {
        AlwaysTracks(es[..|es| - 1], lease, id);
        TracksNext(es, lease, id);
      }
    }
  }

  /** In a leased run, the failures of a task are spaced by the backoffs as long as no reap comes between. */
  lemma {:induction false} FailuresAreSpaced(es: seq<Event>, lease: real, id: Id)
    requires Leased(es, id, lease) && id in After(es).rows && After(es).rows[id].retryBackoff
    requires EpochTally(es, id).reaps == 0
    ensures Spaced(After(es).rows[id], EpochTally(es, id).failures, FailureSpan(es, id))
  {
    AlwaysTracks(es, lease, id);
  }

  /**
   * With backoff on and no reaps, the failures of a task since it was last enqueued or requeued span at least
   * the backoffs in between; from the sixth failure on that is 1000 seconds and 600 more for each further one.
   */
  lemma {:induction false} FailuresSpan(es: seq<Event>, lease: real, id: Id)
    requires Leased(es, id, lease) && id in After(es).rows && After(es).rows[id].retryBackoff
    requires EpochTally(es, id).reaps == 0 && EpochTally(es, id).failures > 0
    ensures FailureSpan(es, id).Between?
    ensures var m, span := EpochTally(es, id).failures, FailureSpan(es, id);
            && span.latest - span.first >= BackoffSum(m - 1)
            && (m >= 6 ==> span.latest - span.first >= (1000 + 600 * (m - 6)) as real)
  {
    FailuresAreSpaced(es, lease, id);
    SpacedSpan(After(es).rows[id], EpochTally(es, id).failures, FailureSpan(es, id));
  }

  lemma SpacedSpan(row: Row, m: nat, span: Span)
    requires m > 0 && Spaced(row, m, span)
    ensures span.Between? && span.latest - span.first >= BackoffSum(m - 1)
    ensures m >= 6 ==> span.latest - span.first >= (1000 + 600 * (m - 6)) as real
  {
    if m >= 6 {
      BackoffSumClosed(m - 1);
    }
  }
}
