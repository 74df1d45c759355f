/**
 * The reaper never looks at max_retries: runs that keep the lease and in which a task that may be tried once is
 * claimed as often as one likes, its executors dying one after the other.
 */
module Overrun {
  import opened Prelude
  import opened TaskTable
  import opened QueueMachine
  import opened QueueShape
  import opened QueueLease
  import opened QueueLedger

  const LEASE := 300.0

  const ONCE := Request(None, 1, 0, None, None, None)

  function Overrun(n: nat): seq<Event> {
    if n == 0 then [Enqueue(0, ONCE)]
    else OneMore(Overrun(n - 1), n - 1)
  }

  function OneMore(es: seq<Event>, n: nat): seq<Event> {
    es + [Claim(n, 0, 0), Abandon(n)] + [Tick(301.0 * (n + 1) as real), Reap(LEASE, {})]
  }

  /** The task waits for its executor number n, after n reaps. */
  ghost predicate Waiting(s: State, n: nat) {
    && s.clock == 301.0 * n as real && (forall x :: x in s.seen ==> x < n) && s.execs == map[]
    && 0 in s.rows && s.rows[0].status == Pending && s.rows[0].attempts == n && s.rows[0].maxRetries == 1
    && s.rows[0].scheduledAt == 0.0
  }

  /** The event is harmless to the lease, takes effect, and is tallied so. */
  lemma Snoc(es: seq<Event>, e: Event)
    requires Leased(es, 0, LEASE) && KeepsLease(After(es), e, 0, LEASE)
    ensures Leased(es + [e], 0, LEASE) && After(es + [e]) == Step(After(es), e)
    ensures EpochTally(es + [e], 0) == TallyStep(EpochTally(es, 0), After(es), e, 0)
  {
    assert (es + [e])[..|es|] == es;
  }

  /** The task ran under its executor number n, which is gone. */
  ghost predicate Orphaned(s: State, n: nat, startedAt: Time) {
    && (forall x :: x in s.seen ==> x <= n) && s.execs == map[]
    && 0 in s.rows && s.rows[0].status == Running && s.rows[0].attempts == n && s.rows[0].maxRetries == 1
    && s.rows[0].startedAt == Some(startedAt) && s.rows[0].scheduledAt == 0.0
  }

  lemma ClaimAndDie(s: State, n: nat, t: Tally)
    requires Waiting(s, n)
    ensures var s1 := Step(s, Claim(n, 0, 0));
            && Step(s1, Abandon(n)).clock == s.clock && Orphaned(Step(s1, Abandon(n)), n, s.clock)
            && TallyStep(TallyStep(t, s, Claim(n, 0, 0), 0), s1, Abandon(n), 0) == t.(claims := t.claims + 1)
  {
    RowStep(s, Claim(n, 0, 0), 0);
  }

  lemma WaitAndReap(s: State, n: nat, t: Tally)
    requires s.clock == 301.0 * n as real && Orphaned(s, n, s.clock)
    ensures var tick := Tick(301.0 * (n + 1) as real); var reap := Reap(LEASE, {}); var s1 := Step(s, tick);
            && KeepsLease(s1, reap, 0, LEASE) && Waiting(Step(s1, reap), n + 1)
            && TallyStep(TallyStep(t, s, tick, 0), s1, reap, 0) == t.(reaps := t.reaps + 1)
  {
    assert 301.0 * (n + 1) as real == 301.0 * n as real + 301.0;
    var s1 := Step(s, Tick(301.0 * (n + 1) as real));
    RowStep(s1, Reap(LEASE, {}), 0);
  }

  lemma SnocTwo(es: seq<Event>, a: Event, b: Event)
    requires Leased(es, 0, LEASE) && KeepsLease(After(es), a, 0, LEASE) && KeepsLease(Step(After(es), a), b, 0, LEASE)
    ensures Leased(es + [a, b], 0, LEASE) && After(es + [a, b]) == Step(Step(After(es), a), b)
    ensures EpochTally(es + [a, b], 0)
         == TallyStep(TallyStep(EpochTally(es, 0), After(es), a, 0), Step(After(es), a), b, 0)
  {
    Snoc(es, a);
    Snoc(es + [a], b);
    assert es + [a] + [b] == es + [a, b];
  }

  lemma FirstHalf(es: seq<Event>, n: nat)
    requires Leased(es, 0, LEASE) && Waiting(After(es), n)
    ensures var more, t := es + [Claim(n, 0, 0), Abandon(n)], EpochTally(es, 0);
            && Leased(more, 0, LEASE) && After(more).clock == 301.0 * n as real
            && Orphaned(After(more), n, After(more).clock) && EpochTally(more, 0) == t.(claims := t.claims + 1)
  {
    ClaimAndDie(After(es), n, EpochTally(es, 0));
    SnocTwo(es, Claim(n, 0, 0), Abandon(n));
  }

  lemma SecondHalf(es: seq<Event>, n: nat)
    requires Leased(es, 0, LEASE) && After(es).clock == 301.0 * n as real && Orphaned(After(es), n, After(es).clock)
    ensures var more, t := es + [Tick(301.0 * (n + 1) as real), Reap(LEASE, {})], EpochTally(es, 0);
            && Leased(more, 0, LEASE) && Waiting(After(more), n + 1)
            && EpochTally(more, 0) == t.(reaps := t.reaps + 1)
  {
    WaitAndReap(After(es), n, EpochTally(es, 0));
    SnocTwo(es, Tick(301.0 * (n + 1) as real), Reap(LEASE, {}));
  }

  lemma EnqueueIt(s: State, t: Tally)
    requires s == INIT
    ensures Waiting(Step(s, Enqueue(0, ONCE)), 0) && TallyStep(t, s, Enqueue(0, ONCE), 0) == Tally(0, 0, 0)
  {
  }

  lemma Starts()
    ensures Leased(Overrun(0), 0, LEASE) && Waiting(After(Overrun(0)), 0) && EpochTally(Overrun(0), 0) == Tally(0, 0, 0)
  {
    EnqueueIt(After([]), EpochTally([], 0));
    Snoc([], Enqueue(0, ONCE));
    assert Overrun(0) == [] + [Enqueue(0, ONCE)];
  }

  /** The run keeps the lease, and the task has been claimed and reaped n times. */
  ghost predicate Reached(es: seq<Event>, n: nat) {
    Leased(es, 0, LEASE) && Waiting(After(es), n) && EpochTally(es, 0) == Tally(n, n, 0)
  }

  lemma Round(es: seq<Event>, n: nat)
    requires Reached(es, n)
    ensures Reached(OneMore(es, n), n + 1)
  {
    FirstHalf(es, n);
    SecondHalf(es + [Claim(n, 0, 0), Abandon(n)], n);
  }

  /**
   * For every n there is a run that keeps the lease in which a task with max_retries 1 is claimed n times since
   * it was enqueued, and waits with n attempts to be claimed again.
   */
  lemma {:induction false} ClaimedWithoutEnd(n: nat)
    ensures Reached(Overrun(n), n)
  {
    if n == 0 {
      Starts();
    } else {
      ClaimedWithoutEnd(n - 1);
      Round(Overrun(n - 1), n - 1);
    }
  }
}
