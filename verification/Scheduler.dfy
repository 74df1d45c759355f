/** The scheduler's tick, and how often a schedule fires over a run of ticks. */
module Scheduler {
  import opened Prelude
  import opened Cron

  type ScheduleId = nat

  datatype Schedule = Schedule(cron: string, enabled: bool, ttl: Option<real>, lastTriggeredAt: Option<Time>)

  /** Minutes since the epoch, and the moment at which one begins: now.replace(second=0, microsecond=0). */
  function Minute(t: Time): int {
    (t / 60.0).Floor
  }

  function MinuteStart(m: int): Time {
    60.0 * m as real
  }

  lemma MinuteBounds(t: Time)
    ensures MinuteStart(Minute(t)) <= t < MinuteStart(Minute(t) + 1)
  {
    var q := t / 60.0;
    assert t == 60.0 * q;
    assert q.Floor as real <= q < q.Floor as real + 1.0;
  }

  lemma MinuteOf(t: Time, m: int)
    ensures MinuteStart(m) <= t <==> m <= Minute(t)
  {
    MinuteBounds(t);
  }

  /** Minutes are sixty seconds long, and counted from time zero. */
  lemma MinutesAreSixtySeconds(t: Time)
    ensures Minute(0.0) == 0 && Minute(t + 60.0) == Minute(t) + 1 && Minute(MinuteStart(Minute(t))) == Minute(t)
    ensures MinuteStart(Minute(t)) <= t < MinuteStart(Minute(t)) + 60.0
  {
    MinuteBounds(t);
    MinuteBounds(t + 60.0);
    MinuteBounds(MinuteStart(Minute(t)));
  }

  /** The calendar gives each minute its date. */
  type Calendar = int -> DateTime

  predicate Matches(cal: Calendar, cron: string, m: int) {
    ParseCron(cron).Some? && ShouldRun(ParseCron(cron).value, cal(m))
  }

  /** Already triggered in or after the minute of `now`. */
  predicate Triggered(last: Option<Time>, now: Time) {
    last.Some? && last.value >= MinuteStart(Minute(now))
  }

  predicate Fires(cal: Calendar, s: Schedule, now: Time) {
    s.enabled && Matches(cal, s.cron, Minute(now)) && !Triggered(s.lastTriggeredAt, now)
  }

  /**
   * A schedule of written numbers fires exactly when it is enabled, the date of the current minute has its
   * coordinates in the fields, and it has not been stamped in or after that minute.
   */
  lemma FiresOnNumbers(cal: Calendar, s: Schedule, now: Time, fields: seq<NumberField>, gaps: seq<string>)
    requires NumberFieldsOk(fields) && |gaps| == 6 && GapsSeparate(gaps)
    requires s.cron == Layout(FieldTexts(WriteAll(fields)), gaps)
    ensures Fires(cal, s, now)
            <==> && s.enabled && (exists w :: Coordinates(fields, cal(Minute(now)), w))
                 && (s.lastTriggeredAt.Some? ==> s.lastTriggeredAt.value < MinuteStart(Minute(now)))
  {
    CronOnNumbers(fields, gaps, cal(Minute(now)));
  }

  /** One enqueue call; no row is inserted for a time-to-live of zero. */
  datatype Trigger = Trigger(id: ScheduleId, inserted: bool)

  /** One trigger for each of the schedules `fired`, and no other. */
  ghost predicate Announces(news: seq<Trigger>, rows: map<ScheduleId, Schedule>, fired: set<ScheduleId>)
    requires fired <= rows.Keys
  {
    && (forall i :: 0 <= i < |news| ==> news[i].id in fired && news[i].inserted == (rows[news[i].id].ttl != Some(0.0)))
    && (forall id :: id in fired ==> exists i :: 0 <= i < |news| && news[i].id == id)
    && (forall i, j :: 0 <= i < j < |news| ==> news[i].id != news[j].id)
  }

  lemma AnnouncesNext(news: seq<Trigger>, rows: map<ScheduleId, Schedule>, fired: set<ScheduleId>, id: ScheduleId)
    requires fired <= rows.Keys && Announces(news, rows, fired) && id in rows && id !in fired
    ensures Announces(news + [Trigger(id, rows[id].ttl != Some(0.0))], rows, fired + {id})
  {
    var more := news + [Trigger(id, rows[id].ttl != Some(0.0))];
    forall x | x in fired + {id} ensures exists i :: 0 <= i < |more| && more[i].id == x {
      if x == id {
        assert more[|news|].id == id;
      } else {
        var i :| 0 <= i < |news| && news[i].id == x;
        assert more[i].id == x;
      }
    }
  }

  /** An announced trigger inserts a task exactly unless its schedule has a time-to-live of zero. */
  lemma TriggersInsert(news: seq<Trigger>, rows: map<ScheduleId, Schedule>, fired: set<ScheduleId>, i: nat)
    requires fired <= rows.Keys && Announces(news, rows, fired) && i < |news|
    ensures news[i].id in fired
    ensures news[i].inserted <==> (rows[news[i].id].ttl.Some? ==> rows[news[i].id].ttl.value != 0.0)
  {
  }

  ghost predicate Firing(cal: Calendar, rows: map<ScheduleId, Schedule>, now: Time, id: ScheduleId) {
    id in rows && Fires(cal, rows[id], now)
  }

  ghost function FiringIds(cal: Calendar, rows: map<ScheduleId, Schedule>, now: Time): (ids: set<ScheduleId>)
    ensures ids <= rows.Keys
  {
    set id | id in rows && Firing(cal, rows, now, id)
  }

  /** The rows with those of `fired` stamped. */
  ghost function Stamped(rows: map<ScheduleId, Schedule>, fired: set<ScheduleId>, stamps: map<ScheduleId, Time>)
    : map<ScheduleId, Schedule>
    requires rows.Keys <= stamps.Keys
  {
    map id | id in rows :: if id in fired then rows[id].(lastTriggeredAt := Some(stamps[id])) else rows[id]
  }

  lemma StampedNext(
      rows: map<ScheduleId, Schedule>, fired: set<ScheduleId>, stamps: map<ScheduleId, Time>, id: ScheduleId)
    requires rows.Keys <= stamps.Keys && id in rows
    ensures Stamped(rows, fired + {id}, stamps)
         == Stamped(rows, fired, stamps)[id := rows[id].(lastTriggeredAt := Some(stamps[id]))]
  {
  }

  /** Where a pass stands: the schedules still to visit, those that fired, and their triggers. */
  ghost predicate Progress(
      cal: Calendar, rows: map<ScheduleId, Schedule>, now: Time, todo: set<ScheduleId>, fired: set<ScheduleId>,
      news: seq<Trigger>)
  {
    && todo <= rows.Keys && fired <= rows.Keys && todo !! fired
    && (forall id :: id in todo ==> rows[id].enabled)
    && (forall id :: id in rows && id !in todo ==> (id in fired <==> Firing(cal, rows, now, id)))
    && Announces(news, rows, fired)
  }

  lemma ProgressNext(
      cal: Calendar, rows: map<ScheduleId, Schedule>, now: Time, todo: set<ScheduleId>, fired: set<ScheduleId>,
      news: seq<Trigger>, id: ScheduleId)
    requires Progress(cal, rows, now, todo, fired, news) && id in todo
    ensures Firing(cal, rows, now, id) ==>
              Progress(cal, rows, now, todo - {id}, fired + {id}, news + [Trigger(id, rows[id].ttl != Some(0.0))])
    ensures !Firing(cal, rows, now, id) ==> Progress(cal, rows, now, todo - {id}, fired, news)
  {
    AnnouncesNext(news, rows, fired, id);
  }

  lemma ProgressDone(
      cal: Calendar, rows: map<ScheduleId, Schedule>, now: Time, fired: set<ScheduleId>, news: seq<Trigger>)
    requires Progress(cal, rows, now, {}, fired, news)
    ensures fired == FiringIds(cal, rows, now)
  {
  }

  class TaskScheduler {
    const cal: Calendar
    var schedules: map<ScheduleId, Schedule>
    var triggers: seq<Trigger>

    constructor (cal: Calendar, schedules: map<ScheduleId, Schedule>)
      ensures this.cal == cal && this.schedules == schedules && triggers == []
    {
      this.cal := cal;
      this.schedules := schedules;
      triggers := [];
    }

    /** Whether an enabled schedule is to be enqueued now; never when its expression does not parse. */
    method Due(task: Schedule, now: Time) returns (due: bool)
      requires task.enabled
      ensures due <==> Fires(cal, task, now)
      ensures due <==>
                && ParseCron(task.cron).Some? && ShouldRun(ParseCron(task.cron).value, cal(Minute(now)))
                && (task.lastTriggeredAt.Some? ==> task.lastTriggeredAt.value < MinuteStart(Minute(now)))
    {
      var cron := Parse(task.cron);
      due := cron.Some? && ShouldRun(cron.value, cal(Minute(now))) && !Triggered(task.lastTriggeredAt, now);
    }

    /**
     * One pass over the enabled schedules: a schedule that fires is enqueued and stamped with the database's
     * time, `stamps[id]`; one whose expression does not parse is skipped.
     */
    method Tick(now: Time, stamps: map<ScheduleId, Time>)
      requires schedules.Keys <= stamps.Keys
      modifies this
      ensures schedules == Stamped(old(schedules), FiringIds(cal, old(schedules), now), stamps)
      ensures old(triggers) <= triggers
      ensures Announces(triggers[|old(triggers)|..], old(schedules), FiringIds(cal, old(schedules), now))
    {
      var todo := set id | id in schedules && schedules[id].enabled;
      ghost var rows, news, fired := schedules, [], {};
      while todo != {}
        invariant Progress(cal, rows, now, todo, fired, news)
        invariant schedules == Stamped(rows, fired, stamps)
        invariant triggers == old(triggers) + news
        decreases todo
      {
        var id :| id in todo;
        ProgressNext(cal, rows, now, todo, fired, news, id);
        todo := todo - {id};
        var task := schedules[id];
        var due := Due(task, now);
        if due {
          StampedNext(rows, fired, stamps, id);
          news := news + [Trigger(id, task.ttl != Some(0.0))];
          fired := fired + {id};
          triggers := triggers + [Trigger(id, task.ttl != Some(0.0))];
          schedules := schedules[id := task.(lastTriggeredAt := Some(stamps[id]))];
        }
      }
      ProgressDone(cal, rows, now, fired, news);
      assert triggers[|old(triggers)|..] == news;
    }
  }

  // ---- One schedule over many ticks ----------------------------------------------------------

  /** A tick as one schedule sees it: its row may be edited between ticks, but not its stamp. */
  datatype TickEvent = TickEvent(now: Time, stamp: Time, cron: string, enabled: bool)

  function Row(e: TickEvent, last: Option<Time>): Schedule {
    Schedule(e.cron, e.enabled, None, last)
  }

  /** The schedule's stamp after the ticks. */
  function LastAfter(cal: Calendar, last: Option<Time>, es: seq<TickEvent>): Option<Time> {
    if es == [] then last else
    var e := es[|es| - 1];
    var before := LastAfter(cal, last, es[..|es| - 1]);
    if Fires(cal, Row(e, before), e.now) then Some(e.stamp) else before
  }

  predicate FiresAtLast(cal: Calendar, last: Option<Time>, es: seq<TickEvent>)
    requires es != []
  {
    var e := es[|es| - 1];
    Fires(cal, Row(e, LastAfter(cal, last, es[..|es| - 1])), e.now)
  }

  /** How often the schedule fires in minutes lo up to, not including, hi. */
  function Fired(cal: Calendar, last: Option<Time>, es: seq<TickEvent>, lo: int, hi: int): nat {
    if es == [] then 0
    else
      Fired(cal, last, es[..|es| - 1], lo, hi)
      + (if FiresAtLast(cal, last, es) && lo <= Minute(es[|es| - 1].now) < hi then 1 else 0)
  }

  /** One scheduler and agreeing clocks: ticks follow each other, each stamp falls between its tick and the next. */
  predicate Timed(es: seq<TickEvent>) {
    && (forall i :: 0 <= i < |es| ==> es[i].now <= es[i].stamp)
    && (forall i, j :: 0 <= i < j < |es| ==> es[i].stamp <= es[j].now)
  }

  lemma TimedPrefix(es: seq<TickEvent>, n: nat)
    requires n <= |es| && Timed(es)
    ensures Timed(es[..n])
  {
  }

  lemma {:induction false} FiredHasTick(cal: Calendar, last: Option<Time>, es: seq<TickEvent>, m: int) returns (i: nat)
    requires Fired(cal, last, es, m, m + 1) >= 1
    ensures i < |es| && Minute(es[i].now) == m
  {
    i := |es| - 1;
    if Minute(es[i].now) != m {
      i := FiredHasTick(cal, last, es[..i], m);
    }
  }

  /** Once the schedule has fired in a minute its stamp is no earlier than that minute, for good. */
  lemma {:induction false} StampGrows(cal: Calendar, last: Option<Time>, es: seq<TickEvent>, m: int)
    requires Timed(es) && Fired(cal, last, es, m, m + 1) >= 1
    ensures LastAfter(cal, last, es).Some? && LastAfter(cal, last, es).value >= MinuteStart(m)
  {
    var n := |es| - 1;
    if FiresAtLast(cal, last, es) {
      var i := FiredHasTick(cal, last, es, m);
      MinuteBounds(es[i].now);
      assert es[n].stamp >= es[i].now;
    } else {
      StampGrows(cal, last, es[..n], m);
    }
  }

  /** With one scheduler a schedule fires at most once in any calendar minute, however its row is edited. */
  lemma {:induction false} FiresAtMostOnce(cal: Calendar, last: Option<Time>, es: seq<TickEvent>, m: int)
    requires Timed(es)
    ensures Fired(cal, last, es, m, m + 1) <= 1
  {
    if es != [] {
      var front := es[..|es| - 1];
      TimedPrefix(es, |es| - 1);
      FiresAtMostOnce(cal, last, front, m);
      if Fired(cal, last, front, m, m + 1) == 1 && Minute(es[|es| - 1].now) == m {
        StampGrows(cal, last, front, m);
      }
    }
  }

  // ---- The same over the whole table ---------------------------------------------------------

  /** One Tick: the rows it finds, and the database times it stamps with. */
  datatype Pass = Pass(now: Time, rows: map<ScheduleId, Schedule>, stamps: map<ScheduleId, Time>)

  /** The rows as a Tick leaves them. */
  ghost function Left(cal: Calendar, p: Pass): map<ScheduleId, Schedule>
    requires p.rows.Keys <= p.stamps.Keys
  {
    Stamped(p.rows, FiringIds(cal, p.rows, p.now), p.stamps)
  }

  /** Schedules come, go and are edited between passes; this one stays, and only Tick stamps it. */
  ghost predicate Stays(cal: Calendar, ps: seq<Pass>, id: ScheduleId) {
    && (forall i :: 0 <= i < |ps| ==> id in ps[i].rows && ps[i].rows.Keys <= ps[i].stamps.Keys)
    && (forall i :: 0 < i < |ps| ==> CarriesOn(cal, ps[i - 1], ps[i], id))
  }

  ghost predicate CarriesOn(cal: Calendar, p: Pass, q: Pass, id: ScheduleId)
    requires p.rows.Keys <= p.stamps.Keys && id in p.rows && id in q.rows
  {
    q.rows[id].lastTriggeredAt == Left(cal, p)[id].lastTriggeredAt
  }

  lemma StaysFront(cal: Calendar, front: seq<Pass>, p: Pass, id: ScheduleId)
    requires Stays(cal, front + [p], id)
    ensures Stays(cal, front, id) && id in p.rows && p.rows.Keys <= p.stamps.Keys
    ensures front != [] ==> CarriesOn(cal, front[|front| - 1], p, id)
  {
    var ps := front + [p];
    assert ps[|front|] == p;
    forall i | 0 <= i < |front| ensures ps[i] == front[i] {
    }
    forall i | 0 < i < |front| ensures CarriesOn(cal, front[i - 1], front[i], id) {
      assert CarriesOn(cal, ps[i - 1], ps[i], id);
    }
    if front != [] {
      assert CarriesOn(cal, ps[|front| - 1], ps[|front|], id);
    }
  }

  ghost function Seen(ps: seq<Pass>, id: ScheduleId): (es: seq<TickEvent>)
    requires forall i :: 0 <= i < |ps| ==> id in ps[i].rows && ps[i].rows.Keys <= ps[i].stamps.Keys
    ensures |es| == |ps|
  {
    seq(|ps|, i requires 0 <= i < |ps| => EventOf(ps[i], id))
  }

  /** How many enqueues of this schedule the passes made in minute m. */
  ghost function Enqueued(cal: Calendar, ps: seq<Pass>, id: ScheduleId, m: int): nat {
    if ps == [] then 0
    else
      var p := ps[|ps| - 1];
      Enqueued(cal, ps[..|ps| - 1], id, m)
      + (if id in FiringIds(cal, p.rows, p.now) && Minute(p.now) == m then 1 else 0)
  }

  function EventOf(p: Pass, id: ScheduleId): TickEvent
    requires id in p.rows && id in p.stamps
  {
    TickEvent(p.now, p.stamps[id], p.rows[id].cron, p.rows[id].enabled)
  }

  lemma PassIsTick(cal: Calendar, p: Pass, id: ScheduleId)
    requires id in p.rows && p.rows.Keys <= p.stamps.Keys
    ensures id in FiringIds(cal, p.rows, p.now) <==> Fires(cal, Row(EventOf(p, id), p.rows[id].lastTriggeredAt), p.now)
    ensures Left(cal, p)[id].lastTriggeredAt
         == if id in FiringIds(cal, p.rows, p.now) then Some(p.stamps[id]) else p.rows[id].lastTriggeredAt
  {
  }

  lemma TickNext(cal: Calendar, last: Option<Time>, front: seq<TickEvent>, e: TickEvent, m: int)
    ensures var before, fires := LastAfter(cal, last, front), Fires(cal, Row(e, LastAfter(cal, last, front)), e.now);
            && LastAfter(cal, last, front + [e]) == (if fires then Some(e.stamp) else before)
            && Fired(cal, last, front + [e], m, m + 1)
            == Fired(cal, last, front, m, m + 1) + (if fires && Minute(e.now) == m then 1 else 0)
  {
    assert (front + [e])[..|front|] == front;
  }

  lemma PassNext(cal: Calendar, last: Option<Time>, front: seq<Pass>, p: Pass, id: ScheduleId, m: int)
    requires forall i :: 0 <= i < |front| ==> id in front[i].rows && front[i].rows.Keys <= front[i].stamps.Keys
    requires id in p.rows && p.rows.Keys <= p.stamps.Keys
    requires p.rows[id].lastTriggeredAt == LastAfter(cal, last, Seen(front, id))
    requires Enqueued(cal, front, id, m) == Fired(cal, last, Seen(front, id), m, m + 1)
    ensures Enqueued(cal, front + [p], id, m) == Fired(cal, last, Seen(front + [p], id), m, m + 1)
    ensures Left(cal, p)[id].lastTriggeredAt == LastAfter(cal, last, Seen(front + [p], id))
  {
    assert (front + [p])[..|front|] == front;
    assert Seen(front + [p], id) == Seen(front, id) + [EventOf(p, id)];
    PassIsTick(cal, p, id);
    TickNext(cal, last, Seen(front, id), EventOf(p, id), m);
  }

  lemma {:induction false} PassesAreTicks(cal: Calendar, ps: seq<Pass>, id: ScheduleId, m: int)
    requires ps != [] && Stays(cal, ps, id)
    ensures Enqueued(cal, ps, id, m) == Fired(cal, ps[0].rows[id].lastTriggeredAt, Seen(ps, id), m, m + 1)
    ensures Left(cal, ps[|ps| - 1])[id].lastTriggeredAt == LastAfter(cal, ps[0].rows[id].lastTriggeredAt, Seen(ps, id))
  {
    var front, p := ps[..|ps| - 1], ps[|ps| - 1];
    assert front + [p] == ps;
    StaysFront(cal, front, p, id);
    if front != [] {
      PassesAreTicks(cal, front, id, m);
    }
    PassNext(cal, ps[0].rows[id].lastTriggeredAt, front, p, id, m);
  }

  /** Over any run of ticks on the whole table, no schedule is enqueued twice in one calendar minute. */
  lemma EnqueuedAtMostOnce(cal: Calendar, ps: seq<Pass>, id: ScheduleId, m: int)
    requires Stays(cal, ps, id) && Timed(Seen(ps, id))
    ensures Enqueued(cal, ps, id, m) <= 1
  {
    if ps != [] {
      PassesAreTicks(cal, ps, id, m);
      FiresAtMostOnce(cal, ps[0].rows[id].lastTriggeredAt, Seen(ps, id), m);
    }
  }

  // ---- Exactly when it fires -----------------------------------------------------------------

  /** The row is enabled and its expression the same at every tick. */
  predicate Steady(es: seq<TickEvent>, cron: string) {
    forall i :: 0 <= i < |es| ==> es[i].enabled && es[i].cron == cron
  }

  predicate FirstIn(es: seq<TickEvent>, i: nat, m: int) {
    i < |es| && Minute(es[i].now) == m && forall k :: 0 <= k < i ==> Minute(es[k].now) != m
  }

  lemma {:induction false} FiredNowhere(cal: Calendar, last: Option<Time>, es: seq<TickEvent>, m: int)
    requires forall k :: 0 <= k < |es| ==> Minute(es[k].now) != m
    ensures Fired(cal, last, es, m, m + 1) == 0
  {
    if es != [] {
      FiredNowhere(cal, last, es[..|es| - 1], m);
    }
  }

  predicate ReachedBy(last: Option<Time>, m: int) {
    last.Some? && last.value >= MinuteStart(m)
  }

  /** A stamp at or past the minute stays so. */
  lemma {:induction false} StaysReached(cal: Calendar, last: Option<Time>, es: seq<TickEvent>, i: nat, j: nat, m: int)
    requires Timed(es) && i <= j <= |es| && ReachedBy(LastAfter(cal, last, es[..i]), m)
    requires i < |es| ==> Minute(es[i].now) == m
    ensures ReachedBy(LastAfter(cal, last, es[..j]), m)
    decreases j
  {
    if i < j {
      StaysReached(cal, last, es, i, j - 1, m);
      assert es[..j][..j - 1] == es[..j - 1];
      MinuteBounds(es[i].now);
      assert es[j - 1].stamp >= es[i].now;
    }
  }

  lemma {:induction false} FiredSince(
      cal: Calendar, last: Option<Time>, es: seq<TickEvent>, cron: string, i: nat, j: nat, m: int)
    requires Timed(es) && Steady(es, cron) && FirstIn(es, i, m) && i < j <= |es|
    ensures Fired(cal, last, es[..j], m, m + 1)
         == (if Matches(cal, cron, m) && !ReachedBy(LastAfter(cal, last, es[..i]), m) then 1 else 0)
    decreases j
  {
    var k := j - 1;
    assert es[..j][..k] == es[..k];
    if k == i {
      FiredNowhere(cal, last, es[..i], m);
    } else {
      FiredSince(cal, last, es, cron, i, k, m);
      if ReachedBy(LastAfter(cal, last, es[..i]), m) {
        StaysReached(cal, last, es, i, k, m);
      } else if Matches(cal, cron, m) {
        TimedPrefix(es, k);
        StampGrows(cal, last, es[..k], m);
      }
    }
  }

  /**
   * A schedule left alone fires in a minute with a tick exactly when its expression matches the minute and no
   * stamp had already reached it when the minute's first tick came: neither an earlier trigger's, late enough
   * to spill over, nor the one it started with.
   */
  lemma FiresExactlyWhen(cal: Calendar, last: Option<Time>, es: seq<TickEvent>, cron: string, i: nat, m: int)
    requires Timed(es) && Steady(es, cron) && FirstIn(es, i, m)
    ensures Fired(cal, last, es, m, m + 1) == 1
            <==> Matches(cal, cron, m) && !ReachedBy(LastAfter(cal, last, es[..i]), m)
  {
    FiredSince(cal, last, es, cron, i, |es|, m);
    assert es[..|es|] == es;
  }

  /** Every stamp lands in the minute of its tick. */
  predicate Prompt(es: seq<TickEvent>) {
    forall i :: 0 <= i < |es| ==> Minute(es[i].stamp) == Minute(es[i].now)
  }

  lemma {:induction false} PromptStamps(cal: Calendar, last: Option<Time>, es: seq<TickEvent>, m: int)
    requires Prompt(es) && (forall k :: 0 <= k < |es| ==> Minute(es[k].now) < m) && !ReachedBy(last, m)
    ensures !ReachedBy(LastAfter(cal, last, es), m)
  {
    if es != [] {
      var n := |es| - 1;
      PromptStamps(cal, last, es[..n], m);
      MinuteOf(es[n].stamp, m);
    }
  }

  lemma MinutesGrow(s: Time, t: Time)
    requires s <= t
    ensures Minute(s) <= Minute(t)
  {
    MinuteBounds(s);
    MinuteOf(t, Minute(s));
  }

  lemma {:induction false} FirstTickIn(es: seq<TickEvent>, i: nat, m: int) returns (first: nat)
    requires i < |es| && Minute(es[i].now) == m
    ensures first <= i && FirstIn(es, first, m)
    decreases i
  {
    first := i;
    if k :| 0 <= k < i && Minute(es[k].now) == m {
      first := FirstTickIn(es, k, m);
    }
  }

  /** With prompt stamps, a minute with a tick sees one trigger if it matches and none if it does not. */
  lemma PromptMinute(cal: Calendar, last: Option<Time>, es: seq<TickEvent>, cron: string, i: nat, m: int)
    requires Timed(es) && Steady(es, cron) && Prompt(es) && !ReachedBy(last, m)
    requires i < |es| && Minute(es[i].now) == m
    ensures Fired(cal, last, es, m, m + 1) == (if Matches(cal, cron, m) then 1 else 0)
  {
    var first := FirstTickIn(es, i, m);
    forall k | 0 <= k < first ensures Minute(es[..first][k].now) < m {
      assert es[k].now <= es[first].now;
      MinutesGrow(es[k].now, es[first].now);
    }
    PromptStamps(cal, last, es[..first], m);
    FiresExactlyWhen(cal, last, es, cron, first, m);
    FiresAtMostOnce(cal, last, es, m);
  }

  function MatchingMinutes(cal: Calendar, cron: string, lo: int, hi: int): nat
    requires lo <= hi
    decreases hi - lo
  {
    if lo == hi then 0
    else MatchingMinutes(cal, cron, lo, hi - 1) + (if Matches(cal, cron, hi - 1) then 1 else 0)
  }

  lemma {:induction false} FiredAdds(cal: Calendar, last: Option<Time>, es: seq<TickEvent>, lo: int, mid: int, hi: int)
    requires lo <= mid <= hi
    ensures Fired(cal, last, es, lo, hi) == Fired(cal, last, es, lo, mid) + Fired(cal, last, es, mid, hi)
  {
    if es != [] {
      FiredAdds(cal, last, es[..|es| - 1], lo, mid, hi);
    }
  }

  lemma {:induction false} FiredInNoMinute(cal: Calendar, last: Option<Time>, es: seq<TickEvent>, m: int)
    ensures Fired(cal, last, es, m, m) == 0
  {
    if es != [] {
      FiredInNoMinute(cal, last, es[..|es| - 1], m);
    }
  }

  predicate HasTick(es: seq<TickEvent>, m: int) {
    exists i :: 0 <= i < |es| && Minute(es[i].now) == m
  }

  /**
   * When every minute of a stretch has a tick and every stamp is prompt, a schedule left alone fires exactly
   * as often as the stretch has matching minutes.
   */
  lemma {:induction false} FiresEveryMatchingMinute(
      cal: Calendar, last: Option<Time>, es: seq<TickEvent>, cron: string, lo: int, hi: int)
    requires Timed(es) && Steady(es, cron) && Prompt(es) && !ReachedBy(last, lo)
    requires lo <= hi && forall m :: lo <= m < hi ==> HasTick(es, m)
    ensures Fired(cal, last, es, lo, hi) == MatchingMinutes(cal, cron, lo, hi)
    decreases hi - lo
  {
    if lo == hi {
      FiredInNoMinute(cal, last, es, lo);
    } else {
      var m := hi - 1;
      FiresEveryMatchingMinute(cal, last, es, cron, lo, m);
      assert HasTick(es, m);
      var i :| 0 <= i < |es| && Minute(es[i].now) == m;
      PromptMinute(cal, last, es, cron, i, m);
      FiredAdds(cal, last, es, lo, m, hi);
    }
  }

  // ---- Ticks that drift ----------------------------------------------------------------------

  /** Successive ticks are at least a minute and `delay` apart. */
  predicate Drifting(es: seq<TickEvent>, delay: real) {
    forall i, j :: 0 <= i && j == i + 1 < |es| ==> es[j].now >= es[i].now + 60.0 + delay
  }

  lemma {:induction false} DriftAddsUp(es: seq<TickEvent>, delay: real, n: nat)
    requires delay >= 0.0 && Drifting(es, delay) && n < |es|
    ensures es[n].now >= es[0].now + 60.0 * n as real + delay * n as real
  {
    if n > 0 {
      DriftAddsUp(es, delay, n - 1);
      assert n as real == (n - 1) as real + 1.0;
      assert delay * n as real == delay * (n - 1) as real + delay;
    }
  }

  /** Ticks that have gained on the minutes have jumped over one. */
  lemma {:induction false} FindJump(es: seq<TickEvent>, n: nat) returns (i: nat)
    requires n < |es| && Minute(es[n].now) > Minute(es[0].now) + n
    ensures i < n && Minute(es[i + 1].now) > Minute(es[i].now) + 1
  {
    i := n - 1;
    if Minute(es[n].now) <= Minute(es[i].now) + 1 {
      i := FindJump(es, i);
    }
  }

  lemma {:induction false} TicksAscend(es: seq<TickEvent>, i: nat, j: nat)
    requires Drifting(es, 0.0) && i <= j < |es|
    ensures Minute(es[i].now) <= Minute(es[j].now)
    decreases j
  {
    if i < j {
      TicksAscend(es, i, j - 1);
      assert es[j].now >= es[j - 1].now + 60.0 + 0.0;
      MinutesGrow(es[j - 1].now, es[j].now);
    }
  }

  /**
   * The loop sleeps a full minute after the work of each tick. However little that work takes, enough ticks
   * leave a minute out, and no schedule fires in it.
   */
  lemma DriftSkipsAMinute(cal: Calendar, last: Option<Time>, es: seq<TickEvent>, delay: real) returns (m: int)
    requires delay > 0.0 && Drifting(es, delay) && es != [] && delay * (|es| - 1) as real >= 60.0
    ensures Minute(es[0].now) < m < Minute(es[|es| - 1].now) && !HasTick(es, m)
    ensures Fired(cal, last, es, m, m + 1) == 0
  {
    var n := |es| - 1;
    DriftAddsUp(es, delay, n);
    MinuteBounds(es[0].now);
    MinuteOf(es[n].now, Minute(es[0].now) + n + 1);
    var i := FindJump(es, n);
    m := Minute(es[i].now) + 1;
    assert Drifting(es, 0.0);
    TicksAscend(es, 0, i);
    TicksAscend(es, i + 1, n);
    forall k | 0 <= k < |es| ensures Minute(es[k].now) != m {
      if k <= i {
        TicksAscend(es, k, i);
      } else {
        TicksAscend(es, i + 1, k);
      }
    }
    FiredNowhere(cal, last, es, m);
  }
}
