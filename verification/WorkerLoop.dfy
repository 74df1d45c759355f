/** The worker's claim loop and its permits, run beside everything else that happens to the queue. */
module WorkerLoop {
  import opened Prelude
  import opened TaskTable
  import opened QueueMachine
  import opened QueueShape

  /**
   * The loop's own variables: the semaphore's free permits, whether the loop holds one between its acquire and
   * what becomes of its claim, the live process_task coroutines, and the idle sleep to come.
   */
  datatype Local = Local(free: nat, inHand: bool, procs: set<ExecId>, idle: real)

  datatype Settings = Settings(concurrency: nat, pollInterval: real, maxIdle: real)

  function Permits(l: Local): nat {
    l.free + |l.procs| + (if l.inHand then 1 else 0)
  }

  function Start(cfg: Settings): Local {
    Local(cfg.concurrency, false, {}, cfg.pollInterval)
  }

  /** The stretches of the loop and of process_task that run without an await. */
  datatype LocalEvent = Acquire | GotTask(x: ExecId) | NothingToClaim | Finish(x: ExecId)

  predicate LocalEnabled(l: Local, e: LocalEvent) {
    match e
    case Acquire => l.free > 0 && !l.inHand
    case GotTask(x) => l.inHand && x !in l.procs
    case NothingToClaim => l.inHand
    case Finish(x) => x in l.procs
  }

  function Min(a: real, b: real): real {
    if a <= b then a else b
  }

  function NextIdle(cfg: Settings, idle: real): real {
    Min(idle * 2.0, cfg.maxIdle)
  }

  function LocalStep(cfg: Settings, l: Local, e: LocalEvent): Local
    requires LocalEnabled(l, e)
  {
    match e
    case Acquire => l.(free := l.free - 1, inHand := true)
    case GotTask(x) => l.(inHand := false, procs := l.procs + {x}, idle := cfg.pollInterval)
    case NothingToClaim => l.(inHand := false, free := l.free + 1, idle := NextIdle(cfg, l.idle))
    case Finish(x) => l.(procs := l.procs - {x}, free := l.free + 1)
  }

  lemma LocalStepKeepsPermits(cfg: Settings, l: Local, e: LocalEvent)
    requires LocalEnabled(l, e)
    ensures Permits(LocalStep(cfg, l, e)) == Permits(l)
  {
  }

  /** The loop as an object whose coroutines update its fields. */
  class Loop {
    const cfg: Settings
    var free: nat
    var inHand: bool
    var active: set<ExecId>
    var idleBackoff: real

    ghost function Abs(): Local
      reads this
    {
      Local(free, inHand, active, idleBackoff)
    }

    /** No permit is lost and none is made. */
    ghost predicate Valid()
      reads this
    {
      Permits(Abs()) == cfg.concurrency
    }

    constructor (cfg: Settings)
      ensures Valid() && this.cfg == cfg && Abs() == Start(cfg)
    {
      this.cfg := cfg;
      free, inHand, active, idleBackoff := cfg.concurrency, false, {}, cfg.pollInterval;
    }

    /** Waits when no permit is free, which here is to return false and change nothing. */
    method TryAcquire() returns (ok: bool)
      requires Valid() && !inHand
      modifies this
      ensures Valid()
      ensures ok <==> LocalEnabled(old(Abs()), Acquire)
      ensures Abs() == (if ok then LocalStep(cfg, old(Abs()), Acquire) else old(Abs()))
      ensures ok <==> old(free) > 0
      ensures active == old(active) && idleBackoff == old(idleBackoff)
      ensures if ok then inHand && free == old(free) - 1 else !inHand && free == old(free)
    {
      ok := free > 0;
      if ok {
        free := free - 1;
        inHand := true;
      }
    }

    /** The claim has returned: start a process_task, or give the permit back and return how long to sleep. */
    method OnClaim(claimed: Option<ExecId>) returns (sleep: Option<real>)
      requires Valid() && inHand && (claimed.Some? ==> claimed.value !in active)
      modifies this
      ensures Valid()
      ensures claimed.Some? ==> sleep.None? && Abs() == LocalStep(cfg, old(Abs()), GotTask(claimed.value))
      ensures claimed.None? ==> sleep == Some(old(idleBackoff)) && Abs() == LocalStep(cfg, old(Abs()), NothingToClaim)
      ensures !inHand
      ensures claimed.Some? ==>
                free == old(free) && active == old(active) + {claimed.value} && idleBackoff == cfg.pollInterval
      ensures claimed.None? ==>
                && free == old(free) + 1 && active == old(active)
                && idleBackoff <= old(idleBackoff) * 2.0 && idleBackoff <= cfg.maxIdle
                && (idleBackoff == old(idleBackoff) * 2.0 || idleBackoff == cfg.maxIdle)
    {
      inHand := false;
      if claimed.Some? {
        idleBackoff := cfg.pollInterval;
        active := active + {claimed.value};
        sleep := None;
      } else {
        free := free + 1;
        sleep := Some(idleBackoff);
        idleBackoff := Min(idleBackoff * 2.0, cfg.maxIdle);
      }
    }

    /** The finally clause of process_task, reached on every outcome. */
    method OnFinish(x: ExecId)
      requires Valid() && x in active
      modifies this
      ensures Valid()
      ensures Abs() == LocalStep(cfg, old(Abs()), Finish(x))
      ensures free == old(free) + 1 && active == old(active) - {x}
      ensures inHand == old(inHand) && idleBackoff == old(idleBackoff)
    {
      active := active - {x};
      free := free + 1;
    }
  }

  /** The duration doubled n times. */
  function Doubled(d: real, n: nat): real {
    if n == 0 then d else Doubled(d, n - 1) * 2.0
  }

  function IdleAfter(cfg: Settings, n: nat): real {
    if n == 0 then cfg.pollInterval else NextIdle(cfg, IdleAfter(cfg, n - 1))
  }

  /** After n empty claims in a row the next sleep is the poll interval doubled n times, up to the maximum. */
  lemma {:induction false} IdleDoubles(cfg: Settings, n: nat)
    requires n >= 1 && cfg.maxIdle >= 0.0
    ensures IdleAfter(cfg, n) == Min(Doubled(cfg.pollInterval, n), cfg.maxIdle)
  {
    if n > 1 {
      IdleDoubles(cfg, n - 1);
    }
  }

  // ---- The loop beside the queue -------------------------------------------------------------

  /** One worker `w` in full and the whole queue, in which others claim, reap and write as they like. */
  datatype World = World(local: Local, q: State)

  /**
   * Elsewhere: any event of the queue but a claim by this worker, outcome writes of its own process_tasks
   * included. A process_task finishes when its executor has written or given up.
   */
  datatype WorldEvent =
    | Elsewhere(e: Event)
    | TakePermit
    | ClaimSome(x: ExecId, id: Id)
    | ClaimNone
    | Finished(x: ExecId)

  predicate WorldEnabled(v: World, w: WorkerId, e: WorldEvent) {
    match e
    case Elsewhere(qe) => !(qe.Claim? && qe.owner == w)
    case TakePermit => LocalEnabled(v.local, Acquire)
    case ClaimSome(x, id) => LocalEnabled(v.local, GotTask(x)) && Enabled(v.q, Claim(x, id, w))
    case ClaimNone => LocalEnabled(v.local, NothingToClaim)
    case Finished(x) => LocalEnabled(v.local, Finish(x)) && x !in v.q.execs
  }

  function WorldStep(cfg: Settings, v: World, w: WorkerId, e: WorldEvent): World {
    if !WorldEnabled(v, w, e) then v else
    match e
    case Elsewhere(qe) => v.(q := Step(v.q, qe))
    case TakePermit => v.(local := LocalStep(cfg, v.local, Acquire))
    case ClaimSome(x, id) => World(LocalStep(cfg, v.local, GotTask(x)), Step(v.q, Claim(x, id, w)))
    case ClaimNone => v.(local := LocalStep(cfg, v.local, NothingToClaim))
    case Finished(x) => v.(local := LocalStep(cfg, v.local, Finish(x)))
  }

  /** The worker starts beside a queue that has any reachable state `q0` in which it has claimed nothing. */
  function WorldAfter(cfg: Settings, q0: State, w: WorkerId, es: seq<WorldEvent>): World {
    if es == [] then World(Start(cfg), q0)
    else WorldStep(cfg, WorldAfter(cfg, q0, w, es[..|es| - 1]), w, es[|es| - 1])
  }

  /** Beside the loop anything may happen to the queue but a claim in the worker's name, at any moment. */
  lemma ElsewhereMayAct(cfg: Settings, v: World, w: WorkerId, e: Event)
    requires e.Claim? ==> e.owner != w
    ensures WorldStep(cfg, v, w, Elsewhere(e)) == v.(q := Step(v.q, e))
  {
  }

  /** With a permit in hand the loop may claim any row that is due, or come back with none and keep the permit free. */
  lemma LoopMayClaim(cfg: Settings, v: World, w: WorkerId, x: ExecId, id: Id)
    requires v.local.inHand && x !in v.local.procs && x !in v.q.seen
    requires id in v.q.rows && v.q.rows[id].status == Pending && v.q.rows[id].scheduledAt <= v.q.clock
    ensures var v' := WorldStep(cfg, v, w, ClaimSome(x, id));
            && v'.q == Step(v.q, Claim(x, id, w)) && !v'.local.inHand && v'.local.procs == v.local.procs + {x}
            && v'.local.free == v.local.free && v'.local.idle == cfg.pollInterval
    ensures var v' := WorldStep(cfg, v, w, ClaimNone);
            && v'.q == v.q && !v'.local.inHand && v'.local.procs == v.local.procs && v'.local.free == v.local.free + 1
  {
  }

  /** Permit conservation: in every interleaving the permits free, in hand and in use add up to the concurrency. */
  lemma {:induction false} PermitsAreConserved(cfg: Settings, q0: State, w: WorkerId, es: seq<WorldEvent>)
    ensures Permits(WorldAfter(cfg, q0, w, es).local) == cfg.concurrency
  {
    if es != [] {
      var v, e := WorldAfter(cfg, q0, w, es[..|es| - 1]), es[|es| - 1];
      PermitsAreConserved(cfg, q0, w, es[..|es| - 1]);
      if WorldEnabled(v, w, e) {
        match e
        case Elsewhere(_) =>
        case TakePermit => LocalStepKeepsPermits(cfg, v.local, Acquire);
        case ClaimSome(x, _) => LocalStepKeepsPermits(cfg, v.local, GotTask(x));
        case ClaimNone => LocalStepKeepsPermits(cfg, v.local, NothingToClaim);
        case Finished(x) => LocalStepKeepsPermits(cfg, v.local, Finish(x));
      }
    }
  }

  /**
   * Every permit can be used: in every run, whenever the loop holds none, it can take one exactly when fewer
   * process_tasks are live than the concurrency, the last permit included.
   */
  lemma {:induction false} PermitFreeExactlyWhen(cfg: Settings, q0: State, w: WorkerId, es: seq<WorldEvent>)
    requires !WorldAfter(cfg, q0, w, es).local.inHand
    ensures var v := WorldAfter(cfg, q0, w, es);
            WorldStep(cfg, v, w, TakePermit).local.inHand <==> |v.local.procs| < cfg.concurrency
  {
    PermitsAreConserved(cfg, q0, w, es);
  }

  /** How many claims have come back empty since the last that did not. */
  function EmptyClaims(cfg: Settings, q0: State, w: WorkerId, es: seq<WorldEvent>): nat {
    if es == [] then 0
    else
      var front, e := es[..|es| - 1], es[|es| - 1];
      if !WorldEnabled(WorldAfter(cfg, q0, w, front), w, e) then EmptyClaims(cfg, q0, w, front)
      else if e.ClaimNone? then EmptyClaims(cfg, q0, w, front) + 1
      else if e.ClaimSome? then 0
      else EmptyClaims(cfg, q0, w, front)
  }

  /**
   * In every run the next idle sleep is the poll interval doubled once for each empty claim since the last
   * successful one, up to the maximum, whatever else happens in between.
   */
  lemma {:induction false} IdleFollowsEmptyClaims(cfg: Settings, q0: State, w: WorkerId, es: seq<WorldEvent>)
    requires cfg.maxIdle >= 0.0
    ensures var n, idle := EmptyClaims(cfg, q0, w, es), WorldAfter(cfg, q0, w, es).local.idle;
            idle == (if n == 0 then cfg.pollInterval else Min(Doubled(cfg.pollInterval, n), cfg.maxIdle))
  {
    IdleIsIdleAfter(cfg, q0, w, es);
    if EmptyClaims(cfg, q0, w, es) > 0 {
      IdleDoubles(cfg, EmptyClaims(cfg, q0, w, es));
    }
  }

  lemma {:induction false} IdleIsIdleAfter(cfg: Settings, q0: State, w: WorkerId, es: seq<WorldEvent>)
    ensures WorldAfter(cfg, q0, w, es).local.idle == IdleAfter(cfg, EmptyClaims(cfg, q0, w, es))
  {
    if es != [] {
      IdleIsIdleAfter(cfg, q0, w, es[..|es| - 1]);
    }
  }

  function RunningUnder(q: State, w: WorkerId): set<Id> {
    set id | id in q.rows && q.rows[id].status == Running && q.rows[id].worker == Some(w)
  }

  /** Some executor of this worker is at work on the task. */
  ghost predicate Served(q: State, w: WorkerId, id: Id) {
    exists x :: Holds(q, x, id) && q.execs[x].worker == w
  }

  ghost predicate Accounted(v: World, w: WorkerId) {
    && Shaped(v.q)
    && (forall id :: id in RunningUnder(v.q, w) ==> Served(v.q, w, id))
    && (forall x :: x in v.q.execs && v.q.execs[x].worker == w ==> x in v.local.procs)
  }

  /** No executor of this worker gives up without a write. */
  ghost predicate Reliable(q: State, w: WorkerId, e: Event) {
    e.Abandon? && e.x in q.execs ==> q.execs[e.x].worker != w
  }

  lemma StaysRunning(st: Stmt, id: Id, row: Row, now: Time)
    requires UpdateRow(st, id, row, now).status == Running && !(st.MarkRunning? && st.id == id)
    ensures row.status == Running && UpdateRow(st, id, row, now).worker == row.worker
    ensures !((st.MarkCompleted? || st.MarkFailure?) && st.id == id)
  {
  }

  lemma ServedStep(q: State, w: WorkerId, e: Event, id: Id)
    requires Shaped(q) && Enabled(q, e) && Reliable(q, w, e) && !(e.Claim? && e.id == id)
    requires id in RunningUnder(Apply(q, e), w) && (id in RunningUnder(q, w) ==> Served(q, w, id))
    ensures Served(Apply(q, e), w, id)
  {
    assert !(e.Enqueue? && e.id == id);
    assert id in q.rows;
    RowStep(q, e, id);
    if StmtOf(q, e).Some? {
      StaysRunning(StmtOf(q, e).value, id, q.rows[id], q.clock);
    }
    assert id in RunningUnder(q, w);
    StaysServed(q, w, e, id);
  }

  /** Its executor goes on: what would end it would end the running too. */
  lemma StaysServed(q: State, w: WorkerId, e: Event, id: Id)
    requires Shaped(q) && Enabled(q, e) && Reliable(q, w, e) && Served(q, w, id) && id in q.rows
    requires id in RunningUnder(Apply(q, e), w)
    requires StmtOf(q, e).Some? ==>
               var st := StmtOf(q, e).value; !((st.MarkCompleted? || st.MarkFailure?) && st.id == id)
    ensures Served(Apply(q, e), w, id)
  {
    var x :| Holds(q, x, id) && q.execs[x].worker == w;
    assert ExecShape(q, x);
    assert Holds(Apply(q, e), x, id) && Apply(q, e).execs[x].worker == w;
  }

  lemma ClaimServes(q: State, w: WorkerId, x: ExecId, id: Id)
    requires Enabled(q, Claim(x, id, w))
    ensures Served(Apply(q, Claim(x, id, w)), w, id)
  {
    assert Holds(Apply(q, Claim(x, id, w)), x, id);
  }

  lemma ExecsKeepWorker(q: State, e: Event, x: ExecId)
    requires Shaped(q) && Enabled(q, e) && x in Apply(q, e).execs
    ensures x in q.execs || (e.Claim? && e.x == x && Apply(q, e).execs[x].worker == e.owner)
    ensures x in q.execs ==> Apply(q, e).execs[x].worker == q.execs[x].worker
  {
    assert x in q.execs ==> ExecShape(q, x);
  }

  lemma AccountedQueueStep(v: World, w: WorkerId, e: Event, local: Local)
    requires Accounted(v, w) && Enabled(v.q, e) && Reliable(v.q, w, e) && v.local.procs <= local.procs
    requires e.Claim? ==> e.owner != w || e.x in local.procs
    ensures Accounted(World(local, Step(v.q, e)), w)
  {
    var q' := Step(v.q, e);
    StepKeepsShape(v.q, e);
    forall id | id in RunningUnder(q', w) ensures Served(q', w, id) {
      if e.Claim? && e.id == id {
        assert q'.rows[id].worker == Some(e.owner);
        ClaimServes(v.q, w, e.x, id);
      } else {
        ServedStep(v.q, w, e, id);
      }
    }
    forall x | x in q'.execs && q'.execs[x].worker == w ensures x in local.procs {
      ExecsKeepWorker(v.q, e, x);
    }
  }

  lemma AccountedStep(cfg: Settings, v: World, w: WorkerId, e: WorldEvent)
    requires Accounted(v, w) && (e.Elsewhere? ==> Reliable(v.q, w, e.e))
    ensures Accounted(WorldStep(cfg, v, w, e), w)
  {
    if WorldEnabled(v, w, e) {
      match e
      case Elsewhere(qe) =>
        if Enabled(v.q, qe) {
          AccountedQueueStep(v, w, qe, v.local);
        }
      case ClaimSome(x, id) =>
        AccountedQueueStep(v, w, Claim(x, id, w), LocalStep(cfg, v.local, GotTask(x)));
      case TakePermit =>
      case ClaimNone =>
      case Finished(_) =>
    }
  }

  ghost predicate ReliableRun(cfg: Settings, q0: State, w: WorkerId, es: seq<WorldEvent>) {
    forall n :: 0 <= n < |es| && es[n].Elsewhere? ==> Reliable(WorldAfter(cfg, q0, w, es[..n]).q, w, es[n].e)
  }

  lemma {:induction false} AlwaysAccounted(cfg: Settings, q0: State, w: WorkerId, es: seq<WorldEvent>)
    requires Accounted(World(Start(cfg), q0), w) && ReliableRun(cfg, q0, w, es)
    ensures Accounted(WorldAfter(cfg, q0, w, es), w)
  {
    if es != [] {
      var n := |es| - 1;
      forall k | 0 <= k < n && es[..n][k].Elsewhere?
        ensures Reliable(WorldAfter(cfg, q0, w, es[..n][..k]).q, w, es[..n][k].e)
      {
        assert es[..n][..k] == es[..k];
      }
      AlwaysAccounted(cfg, q0, w, es[..n]);
      AccountedStep(cfg, WorldAfter(cfg, q0, w, es[..n]), w, es[n]);
    }
  }

  /** The worker has nothing running and no one at work. */
  ghost predicate Absent(q: State, w: WorkerId) {
    && Shaped(q)
    && (forall x :: x in q.execs ==> q.execs[x].worker != w)
    && (forall id :: id in q.rows && q.rows[id].status == Running ==> q.rows[id].worker != Some(w))
  }

  lemma NotRunningUnder(q: State, w: WorkerId, e: Event, id: Id)
    requires Absent(q, w) && Enabled(q, e) && !(e.Claim? && e.owner == w) && id in Apply(q, e).rows
    ensures Apply(q, e).rows[id].status == Running ==> Apply(q, e).rows[id].worker != Some(w)
  {
    if id in q.rows && !(e.Enqueue? && e.id == id) {
      RowStep(q, e, id);
      if StmtOf(q, e).Some? && !(e.Claim? && e.id == id) && Apply(q, e).rows[id].status == Running {
        StaysRunning(StmtOf(q, e).value, id, q.rows[id], q.clock);
      }
    }
  }

  lemma AbsentStep(q: State, w: WorkerId, e: Event)
    requires Absent(q, w) && !(e.Claim? && e.owner == w)
    ensures Absent(Step(q, e), w)
  {
    StepKeepsShape(q, e);
    if Enabled(q, e) {
      forall id | id in Apply(q, e).rows && Apply(q, e).rows[id].status == Running
        ensures Apply(q, e).rows[id].worker != Some(w)
      {
        NotRunningUnder(q, w, e, id);
      }
      forall x | x in Apply(q, e).execs ensures Apply(q, e).execs[x].worker != w {
        ExecsKeepWorker(q, e, x);
      }
    }
  }

  ghost predicate NeverClaims(es: seq<Event>, w: WorkerId) {
    forall n :: 0 <= n < |es| && es[n].Claim? ==> es[n].owner != w
  }

  lemma {:induction false} AbsentUntilClaim(es: seq<Event>, w: WorkerId)
    requires NeverClaims(es, w)
    ensures Absent(After(es), w)
  {
    if es != [] {
      AbsentUntilClaim(es[..|es| - 1], w);
      AbsentStep(After(es[..|es| - 1]), w, es[|es| - 1]);
    }
  }

  /**
   * The worker starts beside a queue in any reachable state in which it has claimed nothing. When no claim is
   * lost and no executor gives up without a write, the rows running under the worker never outnumber its
   * concurrency, whatever reapers, other workers and stale writers do.
   */
  lemma {:induction false} RunningIsBounded(cfg: Settings, before: seq<Event>, w: WorkerId, es: seq<WorldEvent>)
    requires NeverClaims(before, w) && ReliableRun(cfg, After(before), w, es)
    ensures |RunningUnder(WorldAfter(cfg, After(before), w, es).q, w)| <= cfg.concurrency
  {
    AbsentUntilClaim(before, w);
    BoundedFrom(cfg, After(before), w, es);
  }

  lemma BoundedFrom(cfg: Settings, q0: State, w: WorkerId, es: seq<WorldEvent>)
    requires Absent(q0, w) && ReliableRun(cfg, q0, w, es)
    ensures |RunningUnder(WorldAfter(cfg, q0, w, es).q, w)| <= cfg.concurrency
  {
    assert Accounted(World(Start(cfg), q0), w);
    AlwaysAccounted(cfg, q0, w, es);
    PermitsAreConserved(cfg, q0, w, es);
    RunningHavePermits(WorldAfter(cfg, q0, w, es), w);
  }

  lemma RunningHavePermits(v: World, w: WorkerId)
    requires Accounted(v, w)
    ensures |RunningUnder(v.q, w)| <= |v.local.procs|
  {
    var mine := set x | x in v.q.execs && v.q.execs[x].worker == w;
    var task := map x | x in mine :: v.q.execs[x].task;
    forall id | id in RunningUnder(v.q, w) ensures exists x :: x in mine && task[x] == id {
      assert Served(v.q, w, id);
      var x :| Holds(v.q, x, id) && v.q.execs[x].worker == w;
      assert x in mine && task[x] == id;
    }
    ImageIsNoLarger(mine, task, RunningUnder(v.q, w));
    SubsetSize(mine, v.local.procs);
  }

  // ---- The concurrency is reached ------------------------------------------------------------

  lemma {:induction false} SomeBound(xs: set<nat>) returns (bound: nat)
    ensures forall x :: x in xs ==> x < bound
  {
    bound := 0;
    if xs != {} {
      var x :| x in xs;
      var rest := SomeBound(xs - {x});
      bound := if rest <= x then x + 1 else rest;
      forall y | y in xs ensures y < bound {
        assert y == x || y in xs - {x};
      }
    }
  }

  /** After claiming n tasks: n process_tasks, the other permits free, new executors from x + n on. */
  ghost predicate LocalClaimed(cfg: Settings, l: Local, x: ExecId, n: nat) {
    l.free + n == cfg.concurrency && !l.inHand && |l.procs| == n && forall y :: y in l.procs ==> y < x + n
  }

  ghost predicate QueueClaimed(q0: State, w: WorkerId, q: State, x: ExecId, ids: seq<Id>) {
    && (forall y :: y in q.seen ==> y < x + |ids|)
    && (forall id :: Claimable(q0, id) && id !in ids ==> Claimable(q, id))
    && (forall id :: id in ids ==> RunsUnder(q, w, id))
  }

  predicate Claimable(q: State, id: Id) {
    id in EligibleIds(q.rows, {Pending}, q.clock)
  }

  predicate RunsUnder(q: State, w: WorkerId, id: Id) {
    id in RunningUnder(q, w)
  }

  predicate Distinct(ids: seq<Id>) {
    forall i, j :: 0 <= i < j < |ids| ==> ids[i] != ids[j]
  }

  ghost predicate Claims(q: State, w: WorkerId, y: ExecId, id: Id, q': State) {
    Enabled(q, Claim(y, id, w)) && q' == Apply(q, Claim(y, id, w))
  }

  lemma ClaimedRow(q: State, w: WorkerId, y: ExecId, id: Id, other: Id)
    requires Enabled(q, Claim(y, id, w))
    ensures var q' := Apply(q, Claim(y, id, w));
            && (other == id ==> RunsUnder(q', w, other))
            && (other != id && Claimable(q, other) ==> Claimable(q', other))
            && (RunsUnder(q, w, other) ==> RunsUnder(q', w, other))
  {
    if other in q.rows {
      RowStep(q, Claim(y, id, w), other);
    }
  }

  lemma QueueClaimsOneMore(q0: State, w: WorkerId, q: State, x: ExecId, front: seq<Id>, id: Id) returns (q': State)
    requires QueueClaimed(q0, w, q, x, front) && Claimable(q0, id) && id !in front
    ensures Claims(q, w, x + |front|, id, q') && QueueClaimed(q0, w, q', x, front + [id])
  {
    var y := x + |front|;
    assert Claimable(q, id);
    q' := Apply(q, Claim(y, id, w));
    forall other | Claimable(q0, other) && other !in front + [id] ensures Claimable(q', other) {
      assert other != id && other !in front;
      ClaimedRow(q, w, y, id, other);
    }
    forall other | other in front + [id] ensures RunsUnder(q', w, other) {
      ClaimedRow(q, w, y, id, other);
    }
  }

  predicate Starts(cfg: Settings, l: Local, y: ExecId, l': Local) {
    && LocalEnabled(l, Acquire) && LocalEnabled(LocalStep(cfg, l, Acquire), GotTask(y))
    && l' == LocalStep(cfg, LocalStep(cfg, l, Acquire), GotTask(y))
  }

  lemma LocalClaimsOneMore(cfg: Settings, l: Local, x: ExecId, n: nat) returns (l': Local)
    requires LocalClaimed(cfg, l, x, n) && n < cfg.concurrency
    ensures Starts(cfg, l, x + n, l') && LocalClaimed(cfg, l', x, n + 1)
  {
    assert x + n !in l.procs;
    l' := LocalStep(cfg, LocalStep(cfg, l, Acquire), GotTask(x + n));
  }

  lemma TakesAndClaims(cfg: Settings, v: World, w: WorkerId, y: ExecId, id: Id, l': Local, q': State)
    requires Starts(cfg, v.local, y, l') && Claims(v.q, w, y, id, q')
    ensures WorldStep(cfg, WorldStep(cfg, v, w, TakePermit), w, ClaimSome(y, id)) == World(l', q')
  {
  }

  lemma WorldNextTwo(cfg: Settings, q0: State, w: WorkerId, es: seq<WorldEvent>, a: WorldEvent, b: WorldEvent)
    ensures WorldAfter(cfg, q0, w, es + [a] + [b])
         == WorldStep(cfg, WorldStep(cfg, WorldAfter(cfg, q0, w, es), w, a), w, b)
  {
    assert (es + [a])[..|es|] == es;
    assert (es + [a] + [b])[..|es| + 1] == es + [a];
  }

  lemma {:induction false} ClaimsAll(cfg: Settings, q0: State, w: WorkerId, x: ExecId, ids: seq<Id>)
    returns (es: seq<WorldEvent>, v: World)
    requires |ids| <= cfg.concurrency && Distinct(ids) && (forall y :: y in q0.seen ==> y < x)
    requires forall id :: id in ids ==> Claimable(q0, id)
    ensures v == WorldAfter(cfg, q0, w, es)
    ensures LocalClaimed(cfg, v.local, x, |ids|) && QueueClaimed(q0, w, v.q, x, ids)
  {
    if ids == [] {
      es, v := [], World(Start(cfg), q0);
    } else {
      var front, id := ids[..|ids| - 1], ids[|ids| - 1];
      assert ids == front + [id];
      var es1, v1 := ClaimsAll(cfg, q0, w, x, front);
      es := es1 + [TakePermit] + [ClaimSome(x + |front|, id)];
      var l' := LocalClaimsOneMore(cfg, v1.local, x, |front|);
      var q' := QueueClaimsOneMore(q0, w, v1.q, x, front, id);
      v := World(l', q');
      TakesAndClaims(cfg, v1, w, x + |front|, id, l', q');
      WorldNextTwo(cfg, q0, w, es1, TakePermit, ClaimSome(x + |front|, id));
    }
  }

  /**
   * The concurrency is reached: beside a queue with that many tasks to claim, the loop has a run in which all its
   * permits are in use at once, by process_tasks for exactly those tasks.
   */
  lemma ConcurrencyIsReached(cfg: Settings, q0: State, w: WorkerId, ids: seq<Id>) returns (es: seq<WorldEvent>)
    requires |ids| == cfg.concurrency && Distinct(ids)
    requires forall id :: id in ids ==>
               id in q0.rows && q0.rows[id].status == Pending && q0.rows[id].scheduledAt <= q0.clock
    ensures var v := WorldAfter(cfg, q0, w, es);
            && |v.local.procs| == cfg.concurrency && v.local.free == 0
            && forall id :: id in ids ==> id in RunningUnder(v.q, w)
  {
    var x := SomeBound(q0.seen);
    assert forall id :: id in ids ==> Claimable(q0, id);
    var v;
    es, v := ClaimsAll(cfg, q0, w, x, ids);
    assert forall id :: id in ids ==> RunsUnder(v.q, w, id);
  }

  /** A process_task whose executor is done gives its permit back, and the loop can take it again. */
  lemma PermitComesBack(cfg: Settings, v: World, w: WorkerId, x: ExecId)
    requires x in v.local.procs && x !in v.q.execs && !v.local.inHand
    ensures var v1 := WorldStep(cfg, v, w, Finished(x));
            && v1.local.procs == v.local.procs - {x} && v1.local.free == v.local.free + 1
            && WorldStep(cfg, v1, w, TakePermit).local.inHand
  {
  }
}
