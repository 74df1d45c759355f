/** The time-to-live shown for a task, and the expiry it announces. */
module Ttl {
  import opened Prelude
  import opened TaskTable

  datatype Display =
    | Infinite
    | Raw(ttl: real)
    | Overdue
    | DaysHours(days: int, hours: int)
    | HoursMinutes(hours: int, minutes: int)
    | MinutesSeconds(minutes: int, seconds: int)
    | Seconds(seconds: int)

  const MINUTE := 60.0
  const HOUR := 3600.0
  const DAY := 86400.0

  /** Python's x // unit and x % unit, unit positive. */
  function Quotient(x: real, unit: real): int
    requires unit > 0.0
  {
    (x / unit).Floor
  }

  function Remainder(x: real, unit: real): real
    requires unit > 0.0
  {
    x - unit * Quotient(x, unit) as real
  }

  function Remaining(left: real): Display {
    if left <= 0.0 then Overdue
    else if left >= DAY then DaysHours(Quotient(left, DAY), Quotient(Remainder(left, DAY), HOUR))
    else if left >= HOUR then HoursMinutes(Quotient(left, HOUR), Quotient(Remainder(left, HOUR), MINUTE))
    else if left >= MINUTE then MinutesSeconds(Quotient(left, MINUTE), Quotient(Remainder(left, MINUTE), 1.0))
    else Seconds(Quotient(left, 1.0))
  }

  function FormatTtl(createdAt: Option<Time>, ttl: Option<real>, now: Time): Display {
    if ttl.None? then Infinite
    else if createdAt.None? then Raw(ttl.value)
    else Remaining(createdAt.value + ttl.value - now)
  }

  function Shown(row: Row, now: Time): Display {
    FormatTtl(Some(row.createdAt), row.ttl, now)
  }

  // ---- The value shown -----------------------------------------------------------------------

  lemma QuotientBounds(x: real, unit: real)
    requires unit == 1.0 || unit == MINUTE || unit == HOUR || unit == DAY
    ensures 0.0 <= Remainder(x, unit) < unit
  {
    var f := (x / unit).Floor as real;
    assert f <= x / unit < f + 1.0;
  }

  /** Upper unit at least one, lower unit inside its base. */
  predicate WellFormed(d: Display) {
    match d
    case DaysHours(days, hours) => days >= 1 && 0 <= hours < 24
    case HoursMinutes(hours, minutes) => 1 <= hours < 24 && 0 <= minutes < 60
    case MinutesSeconds(minutes, seconds) => 1 <= minutes < 60 && 0 <= seconds < 60
    case Seconds(seconds) => 0 <= seconds < 60
    case _ => false
  }

  function Value(d: Display): real
    requires WellFormed(d)
  {
    match d
    case DaysHours(days, hours) => 86400.0 * days as real + 3600.0 * hours as real
    case HoursMinutes(hours, minutes) => 3600.0 * hours as real + 60.0 * minutes as real
    case MinutesSeconds(minutes, seconds) => 60.0 * minutes as real + seconds as real
    case Seconds(seconds) => seconds as real
  }

  /** The smaller unit shown. */
  function Unit(d: Display): real {
    match d
    case DaysHours(_, _) => 3600.0
    case HoursMinutes(_, _) => 60.0
    case _ => 1.0
  }

  predicate Denotes(d: Display, left: real) {
    WellFormed(d) && Value(d) <= left < Value(d) + Unit(d)
  }

  /** What is shown of a time left is well formed, at most that time, and less than a smaller unit below it. */
  lemma ShownWithinAUnit(left: real)
    requires left > 0.0
    ensures Denotes(Remaining(left), left)
  {
    if left >= DAY {
      QuotientBounds(left, DAY);
      QuotientBounds(Remainder(left, DAY), HOUR);
    } else if left >= HOUR {
      QuotientBounds(left, HOUR);
      QuotientBounds(Remainder(left, HOUR), MINUTE);
    } else if left >= MINUTE {
      QuotientBounds(left, MINUTE);
      QuotientBounds(Remainder(left, MINUTE), 1.0);
    } else {
      QuotientBounds(left, 1.0);
    }
  }

  /** No other well-formed display would do. */
  lemma ShownIsTheOnlyOne(left: real, d: Display)
    requires left > 0.0 && Denotes(d, left)
    ensures d == Remaining(left)
  {
    ShownWithinAUnit(left);
    AtMostOne(d, Remaining(left), left);
  }

  lemma AtMostOne(d: Display, e: Display, left: real)
    requires Denotes(d, left) && Denotes(e, left)
    ensures d == e
  {
  }

  /** What is shown of a row is the time left until its creation plus its time-to-live. */
  lemma ShownOfRow(row: Row, now: Time)
    ensures row.ttl.None? ==> Shown(row, now) == Infinite && FormatTtl(None, row.ttl, now) == Infinite
    ensures row.ttl.Some? ==> FormatTtl(None, row.ttl, now) == Raw(row.ttl.value)
    ensures row.ttl.Some? ==>
              var left := row.createdAt + row.ttl.value - now;
              if left <= 0.0 then Shown(row, now) == Overdue else Denotes(Shown(row, now), left)
  {
    if row.ttl.Some? && row.createdAt + row.ttl.value - now > 0.0 {
      ShownWithinAUnit(row.createdAt + row.ttl.value - now);
    }
  }

  // ---- Display and cleanup -------------------------------------------------------------------

  /**
   * Cleanup expires a row exactly when it has a positive time-to-live, is not terminal, and was already shown
   * as overdue at some earlier instant.
   */
  lemma CleanedExactlyWhenShownBefore(id: Id, row: Row, now: Time)
    ensures Where(ExpireOverdue, id, row, now)
            <==> row.ttl.Some? && row.ttl.value > 0.0 && !Terminal(row.status)
                 && exists earlier :: earlier < now && Shown(row, earlier) == Overdue
  {
    if row.ttl.Some? {
      var deadline := row.createdAt + row.ttl.value;
      assert forall t :: Shown(row, t) == Overdue <==> deadline <= t;
      if deadline < now {
        assert Shown(row, deadline) == Overdue;
      }
    }
  }

  /** A row that cleanup would expire is shown as overdue then and ever after. */
  lemma CleanedIsShown(id: Id, row: Row, now: Time, later: Time)
    requires Where(ExpireOverdue, id, row, now) && now <= later
    ensures Shown(row, later) == Overdue
  {
  }

  /** A row shown as overdue and not terminal is for cleanup at every later instant, if its time-to-live is positive. */
  lemma ShownIsCleaned(id: Id, row: Row, now: Time, later: Time)
    requires Shown(row, now) == Overdue && !Terminal(row.status) && now < later
    ensures Where(ExpireOverdue, id, row, later) <==> row.ttl.value > 0.0
  {
  }
}
