/** From a usage query to the strings the store compares, and why that is safe. */
module UsageWindow {
  import opened Common
  import opened Timestamps
  import EventLog

  // ------------------------------------------- the calendar's inverse

  const DAYS := 3_652_425
  const NANOS_PER_DAY := 86_400_000_000_000

  /** Nanoseconds since the start of year 0000, up to the end of year 9999. */
  type Instant = n: nat | n < 3_652_425 * 86_400_000_000_000

  /** Leap days before year `y`. */
  function LeapDays(y: nat): int {
    (y + 3) / 4 - (y + 99) / 100 + (y + 399) / 400
  }

  lemma {:induction false} YearsClosedForm(y: nat)
    ensures DaysBeforeYear(y) == 365 * y + LeapDays(y)
  {
    if y > 0 {
      YearsClosedForm(y - 1);
      LeapDayStep(y - 1);
    }
  }

  lemma LeapDayStep(y: nat)
    ensures LeapDays(y + 1) == LeapDays(y) + if Leap(y) then 1 else 0
  {
    Ceiling(y, 4);
    Ceiling(y, 100);
    Ceiling(y, 400);
    Multiples(y);
  }

  lemma Multiples(y: nat)
    ensures y % 400 == 0 ==> y % 100 == 0
    ensures y % 100 == 0 ==> y % 4 == 0
  {
    if y % 400 == 0 {
      assert y == 100 * (4 * (y / 400));
    }
    if y % 100 == 0 {
      assert y == 4 * (25 * (y / 100));
    }
  }

  lemma {:induction false} MoreTimes(p: nat, q: nat, d: nat)
    ensures p < q ==> p * d + d <= q * d
    decreases q
  {
    if p < q {
      assert q * d == (q - 1) * d + d;
      if p < q - 1 {
        MoreTimes(p, q - 1, d);
      }
    }
  }

  lemma QuotientIs(x: nat, d: nat, q: nat, rest: nat)
    requires x == q * d + rest && rest < d
    ensures x / d == q
  {
    MoreTimes(x / d, q, d);
    MoreTimes(q, x / d, d);
  }

  lemma Ceiling(y: nat, d: nat)
    requires d > 0
    ensures (y + d) / d == (y + (d - 1)) / d + if y % d == 0 then 1 else 0
  {
    var q, rest := y / d, y % d;
    QuotientIs(y + d, d, q + 1, rest);
    if rest == 0 {
      QuotientIs(y + (d - 1), d, q, d - 1);
    } else {
      QuotientIs(y + (d - 1), d, q + 1, rest - 1);
    }
  }

  lemma YearsInRange(y: nat)
    ensures y >= 10000 <==> DaysBeforeYear(y) >= DAYS
  {
    YearsClosedForm(y);
  }

  function YearOf(day: nat, from: nat): (y: nat)
    requires DaysBeforeYear(from) <= day
    ensures DaysBeforeYear(y) <= day < DaysBeforeYear(y) + DaysInYear(y)
    decreases day - DaysBeforeYear(from)
  {
    if day < DaysBeforeYear(from) + DaysInYear(from) then from else YearOf(day, from + 1)
  }

  function MonthOf(y: nat, day: nat, from: nat): (m: nat)
    requires 1 <= from <= 12 && DaysBeforeMonth(y, from) <= day < DaysBeforeMonth(y, 13)
    ensures 1 <= m <= 12 && DaysBeforeMonth(y, m) <= day < DaysBeforeMonth(y, m) + DaysInMonth(y, m)
    decreases 12 - from
  {
    if day < DaysBeforeMonth(y, from) + DaysInMonth(y, from) then from else MonthOf(y, day, from + 1)
  }

  function DateOf(day: nat): (date: (nat, nat, nat))
    requires day < DAYS
    ensures ValidDate(date.0, date.1, date.2) && DayNumber(date.0, date.1, date.2) == day
  {
    var y := YearOf(day, 0);
    YearIsItsMonths(y);
    assert y <= 9999 by {
      YearsInRange(y);
    }
    var m := MonthOf(y, day - DaysBeforeYear(y), 1);
    (y, m, day - DaysBeforeYear(y) - DaysBeforeMonth(y, m) + 1)
  }

  lemma InstantParts(n: Instant, secs: nat)
    requires secs == n / 1_000_000_000
    ensures secs / 86400 < DAYS && secs == secs / 86400 * 86400 + secs % 86400
    ensures n == secs * 1_000_000_000 + n % 1_000_000_000
  {
  }

  lemma ClockParts(s: nat)
    requires s < 86400
    ensures s / 3600 < 24 && s / 60 % 60 < 60 && s % 60 < 60
    ensures s == s / 3600 * 3600 + s / 60 % 60 * 60 + s % 60
  {
  }

  /** Every instant is some civil time. */
  function CivilAt(n: Instant): (c: Civil)
    ensures Valid(c) && Nanos(c) == n
  {
    var secs := n / 1_000_000_000;
    InstantParts(n, secs);
    var (y, m, d) := DateOf(secs / 86400);
    var s := secs % 86400;
    ClockParts(s);
    Civil(y, m, d, s / 3600, s / 60 % 60, s % 60, n % 1_000_000_000)
  }

  lemma ValidIsInstant(c: Civil)
    requires Valid(c)
    ensures Nanos(c) < DAYS * NANOS_PER_DAY
  {
    YearIsItsMonths(c.year);
    MonthsGrow(c.year, c.month, 13);
    YearsClosedForm(c.year + 1);
    assert DayNumber(c.year, c.month, c.day) < DaysBeforeYear(c.year + 1) <= DAYS;
    assert SecondOfDay(c) < 86400;
  }

  lemma SameParts(a: nat, b: nat, a': nat, b': nat, unit: nat)
    requires unit == 60 || unit == 3600 || unit == 86400 || unit == 1_000_000_000
    requires b < unit && b' < unit && a * unit + b == a' * unit + b'
    ensures a == a' && b == b'
  {
  }

  lemma SameClock(c: Civil, d: Civil)
    requires Valid(c) && Valid(d) && SecondOfDay(c) == SecondOfDay(d)
    ensures c.hour == d.hour && c.minute == d.minute && c.second == d.second
  {
    SameParts(c.hour, c.minute * 60 + c.second, d.hour, d.minute * 60 + d.second, 3600);
    SameParts(c.minute, c.second, d.minute, d.second, 60);
  }

  /** An instant is one civil time only. */
  lemma SameNanos(c: Civil, d: Civil)
    requires Valid(c) && Valid(d) && Nanos(c) == Nanos(d)
    ensures c == d
  {
    SameParts(Seconds(c), c.nano, Seconds(d), d.nano, 1_000_000_000);
    var x, y := DayNumber(c.year, c.month, c.day), DayNumber(d.year, d.month, d.day);
    assert SecondOfDay(c) < 86400 && SecondOfDay(d) < 86400;
    SameParts(x, SecondOfDay(c), y, SecondOfDay(d), 86400);
    SameClock(c, d);
    DateOrder(c.year, c.month, c.day, d.year, d.month, d.day);
  }

  /** Civil time and instants are in one-to-one correspondence. */
  lemma CivilRoundTrip(c: Civil)
    requires Valid(c)
    ensures Nanos(c) < DAYS * NANOS_PER_DAY && CivilAt(Nanos(c)) == c
  {
    ValidIsInstant(c);
    SameNanos(CivilAt(Nanos(c)), c);
  }

  // ------------------------------------------------------- usage_window

  datatype Query = Query(since: Option<string>, until: Option<string>, days: Option<int>)

  datatype WindowError = BadUntil | BadSince | TooManyDays | OutOfRange

  const DEFAULT_USAGE_WINDOW_DAYS := 7
  const MAX_USAGE_WINDOW_DAYS := 36_500

  /** The first nanosecond after year 9999. */
  const END: nat := 3_652_425 * 86_400_000_000_000

  /** How far back a query without `since` looks. */
  function DaysBack(q: Query): (back: nat)
    ensures 1 <= back
  {
    var days := if q.days.Some? then q.days.value else DEFAULT_USAGE_WINDOW_DAYS;
    if days < 1 then 1 else days
  }

  /** How dates are handled beyond what this model spells out: reading an RFC 3339
      timestamp with any offset, the earliest instant that can be represented, and what
      follows the sign of a year outside 0000 to 9999. */
  datatype Calendar = Calendar(parse: string -> Option<int>, earliest: int, far: int -> string)

  /** `to_rfc3339` of any instant: a year outside 0000 to 9999 is written with a sign. */
  function Text(cal: Calendar, n: int): string {
    if n < 0 then ['-'] + cal.far(n) else if n < END then Render(CivilAt(n)) else ['+'] + cal.far(n)
  }

  /** The window as instants. */
  function Bounds(q: Query, now: int, cal: Calendar): Result<(int, int), WindowError> {
    if q.until.Some? && cal.parse(q.until.value).None? then Err(BadUntil)
    else
      var until := if q.until.Some? then cal.parse(q.until.value).value else now;
      match q.since
      case Some(raw) => (match cal.parse(raw) case None => Err(BadSince) case Some(since) => Ok((since, until)))
      case None =>
        var back := DaysBack(q);
        if back > MAX_USAGE_WINDOW_DAYS then Err(TooManyDays)
        else if until - back * NANOS_PER_DAY < cal.earliest then Err(OutOfRange)
        else Ok((until - back * NANOS_PER_DAY, until))
  }

  /** Where the query says the window ends. */
  function EndOf(q: Query, now: int, cal: Calendar): Option<int> {
    if q.until.Some? then cal.parse(q.until.value) else Some(now)
  }

  /** The window a query asks for.  It ends at `until`, or now; it starts at `since`, or
      as many whole days of 24 hours before its end as the query says, 7 if it says
      nothing and at least 1.  It is refused for a bound that is no timestamp, the end
      first, and then for more than 36500 days or a start before any date. */
  lemma WindowIs(q: Query, now: int, cal: Calendar, since: int, until: int, days: int)
    requires days == match q.days { case None => 7 case Some(n) => if n < 1 then 1 else n }
    ensures Bounds(q, now, cal) == Ok((since, until)) <==>
              && EndOf(q, now, cal) == Some(until)
              && (q.since.Some? ==> cal.parse(q.since.value) == Some(since))
              && (q.since.None? ==> days <= 36_500 && cal.earliest <= since && until - since == days * 86_400 * 1_000_000_000)
    ensures Bounds(q, now, cal) == Err(BadUntil) <==> EndOf(q, now, cal).None?
    ensures Bounds(q, now, cal) == Err(BadSince) <==>
              EndOf(q, now, cal).Some? && q.since.Some? && cal.parse(q.since.value).None?
    ensures Bounds(q, now, cal) == Err(TooManyDays) <==> EndOf(q, now, cal).Some? && q.since.None? && days > 36_500
    ensures Bounds(q, now, cal) == Err(OutOfRange) <==>
              && EndOf(q, now, cal).Some? && q.since.None? && days <= 36_500
              && EndOf(q, now, cal).value - days * 86_400 * 1_000_000_000 < cal.earliest
  {
    assert days * 86_400 * 1_000_000_000 == days * NANOS_PER_DAY;
  }

  /** What `usage_window` hands the store. */
  function UsageWindow(q: Query, now: int, cal: Calendar): Result<(string, string), WindowError> {
    match Bounds(q, now, cal)
    case Err(e) => Err(e)
    case Ok(w) => Ok((Text(cal, w.0), Text(cal, w.1)))
  }

  /** Whether the store's string comparison selects a timestamp. */
  predicate Selected(ts: string, since: string, until: string) {
    !Before(ts, since) && Before(ts, until)
  }

  lemma RenderStartsWithDigit(c: Civil)
    requires Valid(c)
    ensures |Render(c)| > 0 && '0' <= Render(c)[0] <= '9'
  {
    DateOnly(c);
    assert DateText(c, "")[0] == Pad(c.year, 4)[0];
  }

  /** An event's timestamp sorts before a bound exactly when it is earlier, as long as the
      bound is not after year 9999; before such a bound it never sorts. */
  lemma BoundOrder(cal: Calendar, event: Civil, n: int)
    requires Valid(event)
    ensures Before(Render(event), Text(cal, n)) <==> n < END && Nanos(event) < n
  {
    RenderStartsWithDigit(event);
    if 0 <= n < END {
      RenderOrder(event, CivilAt(n));
    }
  }

  /** A window selects what it should. */
  ghost predicate SelectsRight(cal: Calendar, w: (int, int)) {
    forall event :: Valid(event) ==>
      (Selected(Render(event), Text(cal, w.0), Text(cal, w.1)) <==> w.0 <= Nanos(event) < w.1)
  }

  /** The last instant and the first one of the calendar. */
  lemma Extremes() returns (first: Civil, last: Civil)
    ensures Valid(first) && Nanos(first) == 0 && Valid(last) && Nanos(last) == END - 1
  {
    first := SomeCivil(0);
    last := SomeCivil(END - 1);
  }

  lemma SomeCivil(n: Instant) returns (c: Civil)
    ensures Valid(c) && Nanos(c) == n
  {
    c := CivilAt(n);
  }

  /** A window's strings select exactly the events its instants do, whatever fraction
      digits either side carries, if and only if both bounds or neither lie after year
      9999, or the window ends before the calendar begins. */
  lemma WindowSelectsIff(q: Query, now: int, cal: Calendar)
    requires Bounds(q, now, cal).Ok?
    ensures
      var w := Bounds(q, now, cal).value;
      && UsageWindow(q, now, cal) == Ok((Text(cal, w.0), Text(cal, w.1)))
      && (SelectsRight(cal, w) <==> (w.0 < END <==> w.1 < END) || w.1 <= 0)
  {
    var w := Bounds(q, now, cal).value;
    forall event | Valid(event)
      ensures Selected(Render(event), Text(cal, w.0), Text(cal, w.1)) <==>
        !(w.0 < END && Nanos(event) < w.0) && w.1 < END && Nanos(event) < w.1
      ensures 0 <= Nanos(event) < END
    {
      BoundOrder(cal, event, w.0);
      BoundOrder(cal, event, w.1);
      ValidIsInstant(event);
    }
    var first, last := Extremes();
    assert Selected(Render(first), Text(cal, w.0), Text(cal, w.1)) <==> !(w.0 < END && 0 < w.0) && w.1 < END && 0 < w.1;
    assert Selected(Render(last), Text(cal, w.0), Text(cal, w.1)) <==> !(w.0 < END && END - 1 < w.0) && w.1 < END && END - 1 < w.1;
  }

  /** An `until` whose offset carries it into year 10000 selects nothing at all. */
  lemma YearTenThousandSelectsNothing(cal: Calendar, since: int, until: int, event: Civil)
    requires Valid(event) && since < END <= until
    ensures !Selected(Render(event), Text(cal, since), Text(cal, until))
  {
    BoundOrder(cal, event, until);
  }

  /** Retention: pruning a table at a rendered bound keeps exactly the rows stamped no
      earlier than the bound in time. */
  lemma PruneSelects(rows: EventLog.Rows, row: EventLog.Row, at: Civil, bound: Civil)
    requires Valid(at) && Valid(bound) && row in rows && row.event.ts == Render(at)
    ensures row in EventLog.Pruned(rows, Render(bound)) <==> Nanos(bound) <= Nanos(at)
  {
    EventLog.PruneExact(rows, Render(bound));
    RenderOrder(at, bound);
  }

  /** The day column is the first ten characters, and it is the civil date. */
  lemma DayColumn(a: Civil, b: Civil)
    requires Valid(a) && Valid(b)
    ensures |Render(a)| >= 10
    ensures Render(a)[..10] == Render(b)[..10] <==> (a.year, a.month, a.day) == (b.year, b.month, b.day)
    ensures Before(Render(a)[..10], Render(b)[..10]) <==> DateLess(a.year, a.month, a.day, b.year, b.month, b.day)
  {
    DateOnly(a);
    DateOnly(b);
    DateTextOrder(a, b, "", "");
    DateTextOrder(b, a, "", "");
    DateOrder(a.year, a.month, a.day, b.year, b.month, b.day);
    BeforeTotal(DateText(a, ""), DateText(b, ""));
    BeforeIrreflexive(DateText(a, ""));
  }

  lemma DateOnly(c: Civil)
    requires Valid(c)
    ensures |Render(c)| >= 10 && Render(c)[..10] == DateText(c, "")
  {
    var rest := ClockText(c, Fraction(c.nano) + UTC_OFFSET);
    assert Render(c) == DateText(c, rest);
    assert |DateText(c, "")| == 10;
    assert DateText(c, rest) == DateText(c, "") + rest;
  }
}
