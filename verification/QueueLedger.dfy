/** Counting a row's claims, reaps and failures over a run, and what its attempts column says about them. */
module QueueLedger {
  import opened Prelude
  import opened TaskTable
  import opened RustTwin
  import opened QueueMachine
  import opened QueueShape
  import opened QueueLease

  datatype Kind = Claims | Reaps | Failures | ManualRetries

  /** The event is one of this kind for this task, and takes effect. */
  ghost predicate Hits(kind: Kind, s: State, e: Event, id: Id) {
    && Enabled(s, e)
    && match kind
       case Claims => e.Claim? && e.id == id
       case Reaps => e.Reap? && id in s.rows && Where(ReapStale(e.maxRunning, e.locked), id, s.rows[id], s.clock)
       case Failures => (e.FailWrite? || e.RustFailWrite?) && e.id == id
       case ManualRetries => e.ManualRetryWrite? && e.id == id
  }

  ghost function Hit(kind: Kind, s: State, e: Event, id: Id): nat {
    if Hits(kind, s, e, id) then 1 else 0
  }

  /** How often the kind happened to the task in the whole run. */
  ghost function Count(kind: Kind, es: seq<Event>, id: Id): nat {
    if es == [] then 0
    else Count(kind, es[..|es| - 1], id) + Hit(kind, After(es[..|es| - 1]), es[|es| - 1], id)
  }

  /** The task is enqueued, or requeued with its attempts back at zero. */
  ghost predicate Opens(s: State, e: Event, id: Id) {
    Enabled(s, e) && (e.Enqueue? || e.Requeue?) && e.id == id
  }

  // ---- Without any premise -------------------------------------------------------------------

  /** Nothing that is, or is about to be written as, the task's attempts exceeds `n` charges. */
  ghost predicate Charged(s: State, id: Id, n: nat) {
    && (id in s.rows ==> s.rows[id].attempts <= n)
    && (forall x :: Holds(s, x, id) ==> s.execs[x].attempts <= n)
    && (forall x :: Holds(s, x, id) && s.execs[x].phase.Planned? ==> s.execs[x].phase.plan.attempts <= n + 1)
  }

  ghost function Charges(s: State, e: Event, id: Id): nat {
    Hit(Reaps, s, e, id) + Hit(Failures, s, e, id) + Hit(ManualRetries, s, e, id)
  }

  lemma ChargeStatement(st: Stmt, id: Id, row: Row, now: Time)
    requires RowShape(row, now)
    ensures UpdateRow(st, id, row, now).attempts
         <= (if st.MarkFailure? && st.id == id then st.plan.attempts
             else if (st.ReapStale? || st.MarkManualRetry?) && Where(st, id, row, now) then row.attempts + 1
             else row.attempts)
  {
  }

  /** The charge a statement brings with it. */
  lemma ChargeIsCounted(s: State, e: Event, id: Id, n: nat)
    requires Enabled(s, e) && Charged(s, id, n) && id in s.rows && StmtOf(s, e).Some?
    ensures var st := StmtOf(s, e).value;
            && (st.MarkFailure? && st.id == id ==> Charges(s, e, id) >= 1 && st.plan.attempts <= n + 1)
            && ((st.ReapStale? || st.MarkManualRetry?) && Where(st, id, s.rows[id], s.clock) ==> Charges(s, e, id) >= 1)
  {
    if e.FailWrite? || e.RustFailWrite? {
      assert Holds(s, e.x, e.id);
    }
  }

  lemma ChargeRow(s: State, e: Event, id: Id, n: nat)
    requires Shaped(s) && Enabled(s, e) && Charged(s, id, n) && id in Apply(s, e).rows
    ensures Apply(s, e).rows[id].attempts <= n + Charges(s, e, id)
  {
    if id in s.rows && !(e.Enqueue? && e.id == id) {
      RowStep(s, e, id);
      assert RowShape(s.rows[id], s.clock);
      if StmtOf(s, e).Some? {
        ChargeStatement(StmtOf(s, e).value, id, s.rows[id], s.clock);
        ChargeIsCounted(s, e, id, n);
      }
    }
  }

  lemma ChargeStep(s: State, e: Event, id: Id, n: nat)
    requires Shaped(s) && Charged(s, id, n)
    ensures Charged(Step(s, e), id, n + Charges(s, e, id))
  {
    if Enabled(s, e) {
      var s' := Apply(s, e);
      if id in s'.rows {
        ChargeRow(s, e, id, n);
      }
      forall x | Holds(s', x, id)
        ensures s'.execs[x].attempts <= n
        ensures s'.execs[x].phase.Planned? ==> s'.execs[x].phase.plan.attempts <= n + 1
      {
        if x in s.execs {
          assert ExecShape(s, x);
          assert Holds(s, x, id);
        }
      }
    }
  }

  /**
   * With no premise at all, reads and writes of fail_task interleaving with anything: attempts never exceed
   * the reaps, failure writes and manual retries that happened to the task.
   */
  lemma {:induction false} AttemptsAreCharged(es: seq<Event>, id: Id)
    ensures Charged(After(es), id, Count(Reaps, es, id) + Count(Failures, es, id) + Count(ManualRetries, es, id))
  {
    if es != [] {
      var n := |es| - 1;
      AttemptsAreCharged(es[..n], id);
      AlwaysShaped(es[..n]);
      ChargeStep(After(es[..n]), es[n], id,
                 Count(Reaps, es[..n], id) + Count(Failures, es[..n], id) + Count(ManualRetries, es[..n], id));
    }
  }

  ghost function Running01(s: State, id: Id): nat {
    if id in s.rows && s.rows[id].status == Running then 1 else 0
  }

  lemma RunningStatement(st: Stmt, id: Id, row: Row, now: Time)
    ensures UpdateRow(st, id, row, now).status == Running ==> row.status == Running || (st.MarkRunning? && st.id == id)
    ensures Where(st, id, row, now) && st.ReapStale? ==>
              row.status == Running && UpdateRow(st, id, row, now).status == Pending
  {
  }

  lemma ReapStepNeedsClaim(s: State, e: Event, id: Id)
    requires Shaped(s)
    ensures Hit(Reaps, s, e, id) + Running01(Step(s, e), id) <= Hit(Claims, s, e, id) + Running01(s, id)
  {
    if Enabled(s, e) && id in s.rows && !(e.Enqueue? && e.id == id) {
      RowStep(s, e, id);
      if StmtOf(s, e).Some? {
        RunningStatement(StmtOf(s, e).value, id, s.rows[id], s.clock);
      }
    }
  }

  lemma {:induction false} ReapsNeedClaims(es: seq<Event>, id: Id)
    ensures Count(Reaps, es, id) + Running01(After(es), id) <= Count(Claims, es, id)
  {
    if es != [] {
      var n := |es| - 1;
      ReapsNeedClaims(es[..n], id);
      AlwaysShaped(es[..n]);
      ReapStepNeedsClaim(After(es[..n]), es[n], id);
    }
  }

  ghost function Holders(execs: map<ExecId, Executor>, id: Id): set<ExecId> {
    set x | x in execs && execs[x].task == id
  }

  /** Holders that have not yet spent their one manual retry. */
  ghost function FreshHolders(execs: map<ExecId, Executor>, id: Id): set<ExecId> {
    set x | x in execs && execs[x].task == id && !execs[x].manuallyRetried
  }

  lemma NextExecIsOldOrClaimed(s: State, e: Event, x: ExecId)
    requires Enabled(s, e) && x in NextExecs(s, e)
    ensures x in s.execs || (e.Claim? && e.x == x)
    ensures x in s.execs && !(e.Claim? && e.x == x) ==>
              && NextExecs(s, e)[x].task == s.execs[x].task
              && (s.execs[x].manuallyRetried ==> NextExecs(s, e)[x].manuallyRetried)
  {
  }

  lemma NextHolders(s: State, e: Event, id: Id)
    requires Enabled(s, e)
    ensures Holders(NextExecs(s, e), id) <= Holders(s.execs, id) + (if Hits(Claims, s, e, id) then {e.x} else {})
    ensures FreshHolders(NextExecs(s, e), id)
         <= FreshHolders(s.execs, id) + (if Hits(Claims, s, e, id) then {e.x} else {})
  {
    forall x | x in NextExecs(s, e)
      ensures x in s.execs || (e.Claim? && e.x == x)
      ensures x in s.execs && !(e.Claim? && e.x == x) ==>
                && NextExecs(s, e)[x].task == s.execs[x].task
                && (s.execs[x].manuallyRetried ==> NextExecs(s, e)[x].manuallyRetried)
    {
      NextExecIsOldOrClaimed(s, e, x);
    }
  }

  lemma WriterStopsHolding(s: State, e: Event, id: Id)
    requires Enabled(s, e)
    ensures Hits(Failures, s, e, id) ==> e.x in Holders(s.execs, id) && e.x !in NextExecs(s, e)
    ensures Hits(ManualRetries, s, e, id) ==>
              e.x in FreshHolders(s.execs, id) && e.x !in FreshHolders(NextExecs(s, e), id)
  {
  }

  /** No one becomes a holder but by a claim, and a failure write or a manual retry ends one. */
  lemma HoldersStep(s: State, e: Event, id: Id)
    requires Enabled(s, e)
    ensures Hit(Failures, s, e, id) + |Holders(NextExecs(s, e), id)| <= Hit(Claims, s, e, id) + |Holders(s.execs, id)|
  {
    NextHolders(s, e, id);
    WriterStopsHolding(s, e, id);
    SetBudget(Holders(s.execs, id), Holders(NextExecs(s, e), id),
              if Hits(Claims, s, e, id) then {e.x} else {}, if Hits(Failures, s, e, id) then {e.x} else {});
  }

  lemma FreshHoldersStep(s: State, e: Event, id: Id)
    requires Enabled(s, e)
    ensures Hit(ManualRetries, s, e, id) + |FreshHolders(NextExecs(s, e), id)|
         <= Hit(Claims, s, e, id) + |FreshHolders(s.execs, id)|
  {
    NextHolders(s, e, id);
    WriterStopsHolding(s, e, id);
    SetBudget(FreshHolders(s.execs, id), FreshHolders(NextExecs(s, e), id),
              if Hits(Claims, s, e, id) then {e.x} else {}, if Hits(ManualRetries, s, e, id) then {e.x} else {});
  }

  lemma SetBudget(before: set<ExecId>, after: set<ExecId>, added: set<ExecId>, removed: set<ExecId>)
    requires after <= before + added && removed <= before && removed !! after
    ensures |removed| + |after| <= |added| + |before|
  {
    assert |removed + after| == |removed| + |after|;
    SubsetSize(removed + after, before + added);
    assert before + added == before + (added - before);
    SubsetSize(added - before, added);
  }

  lemma {:induction false} FailuresNeedClaims(es: seq<Event>, id: Id)
    ensures Count(Failures, es, id) + |Holders(After(es).execs, id)| <= Count(Claims, es, id)
    ensures Count(ManualRetries, es, id) + |FreshHolders(After(es).execs, id)| <= Count(Claims, es, id)
  {
    if es != [] {
      var n := |es| - 1;
      FailuresNeedClaims(es[..n], id);
      if Enabled(After(es[..n]), es[n]) {
        HoldersStep(After(es[..n]), es[n], id);
        FreshHoldersStep(After(es[..n]), es[n], id);
      }
    } else {
      assert Holders(INIT.execs, id) == {} && FreshHolders(INIT.execs, id) == {};
    }
  }

  /**
   * So attempts are at most twice the task's claims over its life, three times when RetryErrors are raised in
   * subprocesses.
   */
  lemma AttemptsPerClaim(es: seq<Event>, id: Id)
    requires id in After(es).rows
    ensures After(es).rows[id].attempts
         <= Count(Reaps, es, id) + Count(Failures, es, id) + Count(ManualRetries, es, id)
         <= 3 * Count(Claims, es, id)
    ensures Count(ManualRetries, es, id) == 0 ==> After(es).rows[id].attempts <= 2 * Count(Claims, es, id)
  {
    AttemptsAreCharged(es, id);
    ReapsNeedClaims(es, id);
    FailuresNeedClaims(es, id);
  }

  // ---- Under the lease -----------------------------------------------------------------------

  /** Claimed and not charged for it: running, completed, or expired while running. */
  predicate Uncharged(row: Row) {
    row.status == Running || row.status == Completed || (row.status == Expired && row.startedAt.Some?)
  }

  function AtLeastOne(n: int): int {
    if n < 1 then 1 else n
  }

  /** How often a task was claimed, reaped and failed since it was last enqueued or requeued. */
  datatype Tally = Tally(claims: nat, reaps: nat, failures: nat)

  ghost function EpochTally(es: seq<Event>, id: Id): Tally {
    if es == [] then Tally(0, 0, 0)
    else TallyStep(EpochTally(es[..|es| - 1], id), After(es[..|es| - 1]), es[|es| - 1], id)
  }

  ghost function TallyStep(t: Tally, s: State, e: Event, id: Id): Tally {
    if Opens(s, e, id) then Tally(0, 0, 0)
    else Tally(t.claims + Hit(Claims, s, e, id), t.reaps + Hit(Reaps, s, e, id), t.failures + Hit(Failures, s, e, id))
  }

  /** The row's attempts against the epoch's events, and how far they can go. */
  ghost predicate Balanced(row: Row, t: Tally) {
    && t.claims == row.attempts + (if Uncharged(row) then 1 else 0)
    && row.attempts == t.reaps + t.failures
    && row.attempts <= AtLeastOne(row.maxRetries) + t.reaps - (if row.status == Failed then 0 else 1)
  }

  lemma OutcomeStatement(st: Stmt, row: Row, now: Time, t: Tally)
    requires RowShape(row, now) && Balanced(row, t)
    requires row.startedAt.Some? && row.status in {Running, Expired, Completed}
    ensures st.MarkCompleted? ==> Balanced(Set(st, row, now), t)
    ensures st.MarkFailure? && st.plan.attempts == row.attempts + 1 && PlanFits(st.plan, row.maxRetries) ==>
              Balanced(Set(st, row, now), t.(failures := t.failures + 1))
  {
  }

  /** Both workers write one attempt more than the row has, and agree on whether that is the last. */
  lemma OutcomeWrites(s: State, e: Event, id: Id, lease: real)
    requires Exclusive(s, id, lease) && KeepsLease(s, e, id, lease) && Enabled(s, e) && TouchedBy(e, id) && id in s.rows
    ensures StmtOf(s, e).Some? && Where(StmtOf(s, e).value, id, s.rows[id], s.clock)
    ensures e.CompleteWrite? ==> StmtOf(s, e).value.MarkCompleted?
    ensures !e.CompleteWrite? ==>
              && StmtOf(s, e).value.MarkFailure?
              && StmtOf(s, e).value.plan.attempts == s.rows[id].attempts + 1
              && PlanFits(StmtOf(s, e).value.plan, s.rows[id].maxRetries)
    ensures s.rows[id].startedAt.Some? && s.rows[id].status in {Running, Expired, Completed}
  {
    WriterIsHolder(s, e, id, lease);
    EventFits(s, e, id);
  }

  lemma BalanceOutcome(s: State, e: Event, id: Id, lease: real, t: Tally)
    requires Exclusive(s, id, lease) && KeepsLease(s, e, id, lease) && Enabled(s, e) && TouchedBy(e, id)
    requires id in s.rows && Balanced(s.rows[id], t) && id in Apply(s, e).rows
    ensures Balanced(Apply(s, e).rows[id], TallyStep(t, s, e, id))
  {
    RowStep(s, e, id);
    OutcomeWrites(s, e, id, lease);
    OutcomeStatement(StmtOf(s, e).value, s.rows[id], s.clock, t);
    OutcomeIsCounted(s, e, id, t);
  }

  lemma OutcomeIsCounted(s: State, e: Event, id: Id, t: Tally)
    requires Enabled(s, e) && TouchedBy(e, id)
    ensures TallyStep(t, s, e, id) == if e.CompleteWrite? then t else t.(failures := t.failures + 1)
  {
  }

  /** Claims, reaps and requeues are booked; other statements that are no outcome are not. */
  function Booked(t: Tally, st: Stmt, id: Id, row: Row, now: Time): Tally {
    if !Where(st, id, row, now) then t
    else match st
      case MarkRunning(_, _) => t.(claims := t.claims + 1)
      case ReapStale(_, _) => t.(reaps := t.reaps + 1)
      case ResetFailed(_) => Tally(0, 0, 0)
      case _ => t
  }

  lemma BookedStatement(st: Stmt, id: Id, row: Row, now: Time, t: Tally)
    requires RowShape(row, now) && Balanced(row, t)
    requires Where(st, id, row, now) ==> !st.MarkCompleted? && !st.MarkFailure? && !st.MarkManualRetry?
    requires Where(st, id, row, now) && st.MarkRunning? ==> row.status == Pending
    ensures Balanced(UpdateRow(st, id, row, now), Booked(t, st, id, row, now))
  {
  }

  lemma OtherIsCounted(s: State, e: Event, id: Id, t: Tally)
    requires Enabled(s, e) && !TouchedBy(e, id) && id in s.rows
    requires !(e.ManualRetryWrite? && e.id == id) && !(e.Enqueue? && e.id == id)
    ensures TallyStep(t, s, e, id)
         == (match StmtOf(s, e) case None => t case Some(st) => Booked(t, st, id, s.rows[id], s.clock))
    ensures StmtOf(s, e).Some? && Where(StmtOf(s, e).value, id, s.rows[id], s.clock) ==>
              var st := StmtOf(s, e).value;
              && !st.MarkCompleted? && !st.MarkFailure? && !st.MarkManualRetry?
              && (st.MarkRunning? ==> s.rows[id].status == Pending)
  {
  }

  lemma BalanceOther(s: State, e: Event, id: Id, t: Tally)
    requires Enabled(s, e) && !TouchedBy(e, id)
    requires !(e.ManualRetryWrite? && e.id == id) && !(e.Enqueue? && e.id == id)
    requires id in s.rows && RowShape(s.rows[id], s.clock) && Balanced(s.rows[id], t) && id in Apply(s, e).rows
    ensures Balanced(Apply(s, e).rows[id], TallyStep(t, s, e, id))
  {
    RowStep(s, e, id);
    OtherIsCounted(s, e, id, t);
    if StmtOf(s, e).Some? {
      BookedStatement(StmtOf(s, e).value, id, s.rows[id], s.clock, t);
    }
  }

  lemma BalanceStep(s: State, e: Event, id: Id, lease: real, t: Tally)
    requires Exclusive(s, id, lease) && KeepsLease(s, e, id, lease)
    requires id in s.rows ==> Balanced(s.rows[id], t)
    requires id in Step(s, e).rows
    ensures Balanced(Step(s, e).rows[id], TallyStep(t, s, e, id))
  {
    if Enabled(s, e) && id in s.rows {
      if TouchedBy(e, id) {
        BalanceOutcome(s, e, id, lease, t);
      } else {
        BalanceOther(s, e, id, t);
      }
    }
  }

  /**
   * The exact ledger of a leased run: a row's claims since it was last enqueued or requeued are its attempts,
   * plus one exactly when it is running, completed, or expired while running; and its attempts are the reaps
   * and failures since then.
   */
  lemma {:induction false} LedgerIsExact(es: seq<Event>, lease: real, id: Id)
    requires Leased(es, id, lease) && id in After(es).rows
    ensures Balanced(After(es).rows[id], EpochTally(es, id))
  {
    if es != [] {
      var n := |es| - 1;
      AlwaysExclusive(es[..n], id, lease);
      if id in After(es[..n]).rows {
        LedgerIsExact(es[..n], lease, id);
      }
      BalanceStep(After(es[..n]), es[n], id, lease, EpochTally(es[..n], id));
    }
  }

  /** Retries end: between one enqueue or requeue and the next, a task is claimed at most this often. */
  lemma {:induction false} ClaimsAreBounded(es: seq<Event>, lease: real, id: Id)
    requires Leased(es, id, lease) && id in After(es).rows
    ensures EpochTally(es, id).claims <= AtLeastOne(After(es).rows[id].maxRetries) + EpochTally(es, id).reaps
  {
    LedgerIsExact(es, lease, id);
  }

  /** A claim is one too many, past max(1, max_retries), exactly when the row's attempts already say so. */
  lemma ExceedsExactlyWhen(es: seq<Event>, lease: real, j: nat, id: Id)
    requires j < |es| && Leased(es[..j], id, lease) && Hits(Claims, After(es[..j]), es[j], id)
    ensures EpochTally(es[..j + 1], id).claims > AtLeastOne(After(es[..j]).rows[id].maxRetries)
            <==> After(es[..j]).rows[id].attempts >= AtLeastOne(After(es[..j]).rows[id].maxRetries)
  {
    LedgerIsExact(es[..j], lease, id);
    assert es[..j + 1][..j] == es[..j];
  }

  /**
   * With no reaps in the epoch, a task has failed for good exactly when it has failed max(1, max_retries)
   * times; until then every failure sent it back to be tried again.
   */
  lemma {:induction false} FailsForGood(es: seq<Event>, lease: real, id: Id)
    requires Leased(es, id, lease) && id in After(es).rows && EpochTally(es, id).reaps == 0
    ensures After(es).rows[id].status == Failed
            <==> EpochTally(es, id).failures == AtLeastOne(After(es).rows[id].maxRetries)
    ensures EpochTally(es, id).failures <= AtLeastOne(After(es).rows[id].maxRetries)
  {
    LedgerIsExact(es, lease, id);
    RowsAreShaped(es, id);
  }
}
