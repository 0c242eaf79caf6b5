/** Timestamps as the store sees them: strings, compared as strings.  The calendar
    is the proleptic Gregorian one, years 0000 to 9999, in UTC. */
module Timestamps {
  import opened Common

  // ------------------------------------------------------------ string order

  /** How SQL and Rust compare text: character by character, a prefix first. */
  predicate Before(a: string, b: string) {
    b != [] && (a == [] || a[0] < b[0] || (a[0] == b[0] && Before(a[1..], b[1..])))
  }

  lemma {:induction false} BeforeIrreflexive(a: string)
    ensures !Before(a, a)
  {
    if a != [] {
      BeforeIrreflexive(a[1..]);
    }
  }

  lemma {:induction false} BeforeTotal(a: string, b: string)
    ensures a == b || Before(a, b) || Before(b, a)
  {
    if a != [] && b != [] && a[0] == b[0] {
      BeforeTotal(a[1..], b[1..]);
      assert a == [a[0]] + a[1..] && b == [b[0]] + b[1..];
    }
  }

  lemma {:induction false} BeforeTransitive(a: string, b: string, c: string)
    requires Before(a, b) && Before(b, c)
    ensures Before(a, c)
  {
    if a != [] && a[0] == b[0] && b[0] == c[0] {
      BeforeTransitive(a[1..], b[1..], c[1..]);
    }
  }

  lemma BeforeAsymmetric(a: string, b: string)
    requires Before(a, b)
    ensures !Before(b, a) && a != b
  {
    BeforeIrreflexive(a);
    if Before(b, a) {
      BeforeTransitive(a, b, a);
    }
  }

  lemma BeforeAfterCommon(c: char, x: string, y: string)
    ensures Before([c] + x, [c] + y) <==> Before(x, y)
  {
    assert ([c] + x)[1..] == x && ([c] + y)[1..] == y;
  }

  // ------------------------------------------------------------- fixed width

  function Pow10(w: nat): (p: nat)
    ensures p > 0
  {
    if w == 0 then 1 else 10 * Pow10(w - 1)
  }

  function Digit(d: nat): (c: char)
    requires d < 10
    ensures '0' <= c <= '9'
  {
    ('0' as int + d) as char
  }

  /** `n` in exactly `w` decimal digits. */
  function Pad(n: nat, w: nat): (s: string)
    ensures |s| == w
    ensures forall i :: 0 <= i < w ==> '0' <= s[i] <= '9'
  {
    if w == 0 then "" else Pad(n / 10, w - 1) + [Digit(n % 10)]
  }

  /** Equal-width numbers sort by value, and ties go to what follows. */
  lemma {:induction false} PadOrder(a: nat, b: nat, w: nat, x: string, y: string)
    requires a < Pow10(w) && b < Pow10(w)
    ensures Before(Pad(a, w) + x, Pad(b, w) + y) <==> a < b || (a == b && Before(x, y))
    decreases w
  {
    if w == 0 {
      assert Pad(a, w) + x == x && Pad(b, w) + y == y;
    } else {
      var x', y' := [Digit(a % 10)] + x, [Digit(b % 10)] + y;
      assert Pad(a, w) + x == Pad(a / 10, w - 1) + x';
      assert Pad(b, w) + y == Pad(b / 10, w - 1) + y';
      PadOrder(a / 10, b / 10, w - 1, x', y');
      assert x'[1..] == x && y'[1..] == y;
    }
  }

  /** And they read back as themselves. */
  lemma {:induction false} PadNumeral(n: nat, w: nat)
    requires n < Pow10(w)
    ensures Numeral(Pad(n, w)) == n
  {
    if w > 0 {
      PadNumeral(n / 10, w - 1);
      assert Pad(n, w)[..w - 1] == Pad(n / 10, w - 1);
    }
  }

  lemma PadLast(q: nat, d: nat, w: nat)
    requires d < 10
    ensures Pad(10 * q + d, w + 1) == Pad(q, w) + [Digit(d)]
  {
    assert (10 * q + d) / 10 == q && (10 * q + d) % 10 == d;
  }

  lemma PadPeel(q: nat, a: nat, b: nat, c: nat, w: nat)
    requires a < 10 && b < 10 && c < 10
    ensures Pad(1000 * q + 100 * a + 10 * b + c, w + 3) == Pad(q, w) + [Digit(a), Digit(b), Digit(c)]
  {
    var n1 := 10 * q + a;
    var n2 := 10 * n1 + b;
    PadLast(q, a, w);
    PadLast(n1, b, w + 1);
    PadLast(n2, c, w + 2);
    assert 1000 * q + 100 * a + 10 * b + c == 10 * n2 + c;
  }

  lemma ThreeDigits(m: nat) returns (a: nat, b: nat, c: nat)
    requires m < 1000
    ensures a < 10 && b < 10 && c < 10 && m == 100 * a + 10 * b + c
    ensures Pad(m, 3) == [Digit(a), Digit(b), Digit(c)]
  {
    a := m / 100;
    b := (m - 100 * a) / 10;
    c := m - 100 * a - 10 * b;
    PadPeel(0, a, b, c, 0);
  }

  /** The last three digits stand alone. */
  lemma PadThree(q: nat, m: nat, w: nat)
    requires m < 1000
    ensures Pad(1000 * q + m, w + 3) == Pad(q, w) + Pad(m, 3)
  {
    var a, b, c := ThreeDigits(m);
    PadPeel(q, a, b, c, w);
    assert 1000 * q + m == 1000 * q + 100 * a + 10 * b + c;
  }

  // ---------------------------------------------------------------- calendar

  datatype Civil = Civil(year: nat, month: nat, day: nat, hour: nat, minute: nat, second: nat, nano: nat)

  predicate Leap(y: nat) {
    y % 4 == 0 && (y % 100 != 0 || y % 400 == 0)
  }

  function DaysInYear(y: nat): nat {
    if Leap(y) then 366 else 365
  }

  function DaysInMonth(y: nat, m: nat): (d: nat)
    ensures 28 <= d <= 31
  {
    if m == 2 then (if Leap(y) then 29 else 28)
    else if m == 4 || m == 6 || m == 9 || m == 11 then 30
    else 31
  }

  predicate ValidDate(y: nat, m: nat, d: nat) {
    y <= 9999 && 1 <= m <= 12 && 1 <= d <= DaysInMonth(y, m)
  }

  predicate Valid(c: Civil) {
    && ValidDate(c.year, c.month, c.day)
    && c.hour < 24 && c.minute < 60 && c.second < 60 && c.nano < 1_000_000_000
  }

  function DaysBeforeYear(y: nat): nat {
    if y == 0 then 0 else DaysBeforeYear(y - 1) + DaysInYear(y - 1)
  }

  function DaysBeforeMonth(y: nat, m: nat): nat
    requires m >= 1
  {
    if m == 1 then 0 else DaysBeforeMonth(y, m - 1) + DaysInMonth(y, m - 1)
  }

  /** Days since 0000-01-01. */
  function DayNumber(y: nat, m: nat, d: nat): nat
    requires 1 <= m && 1 <= d
  {
    DaysBeforeYear(y) + DaysBeforeMonth(y, m) + (d - 1)
  }

  function SecondOfDay(c: Civil): nat {
    c.hour * 3600 + c.minute * 60 + c.second
  }

  /** Seconds since the start of year 0000: the instant, whole seconds only. */
  function Seconds(c: Civil): nat
    requires Valid(c)
  {
    DayNumber(c.year, c.month, c.day) * 86400 + SecondOfDay(c)
  }

  /** Nanoseconds since the start of year 0000: the instant. */
  function Nanos(c: Civil): nat
    requires Valid(c)
  {
    Seconds(c) * 1_000_000_000 + c.nano
  }

  lemma YearIsItsMonths(y: nat)
    ensures DaysBeforeMonth(y, 13) == DaysInYear(y)
  {
    assert DaysBeforeMonth(y, 2) == 31;
    assert DaysBeforeMonth(y, 4) == DaysBeforeMonth(y, 3) + 31;
    assert DaysBeforeMonth(y, 6) == DaysBeforeMonth(y, 5) + 31;
    assert DaysBeforeMonth(y, 8) == DaysBeforeMonth(y, 7) + 31;
    assert DaysBeforeMonth(y, 10) == DaysBeforeMonth(y, 9) + 30;
    assert DaysBeforeMonth(y, 12) == DaysBeforeMonth(y, 11) + 30;
  }

  lemma {:induction false} MonthsGrow(y: nat, m: nat, n: nat)
    requires 1 <= m < n <= 13
    ensures DaysBeforeMonth(y, m) + DaysInMonth(y, m) <= DaysBeforeMonth(y, n)
    decreases n
  {
    if m + 1 < n {
      MonthsGrow(y, m, n - 1);
    }
  }

  lemma {:induction false} YearsGrow(y: nat, z: nat)
    requires y < z
    ensures DaysBeforeYear(y) + DaysInYear(y) <= DaysBeforeYear(z)
    decreases z
  {
    if y + 1 < z {
      YearsGrow(y, z - 1);
    }
  }

  predicate DateLess(y: nat, m: nat, d: nat, y': nat, m': nat, d': nat) {
    y < y' || (y == y' && (m < m' || (m == m' && d < d')))
  }

  lemma EarlierDate(y: nat, m: nat, d: nat, y': nat, m': nat, d': nat)
    requires ValidDate(y, m, d) && ValidDate(y', m', d') && DateLess(y, m, d, y', m', d')
    ensures DayNumber(y, m, d) < DayNumber(y', m', d')
  {
    if y < y' {
      YearsGrow(y, y');
      YearIsItsMonths(y);
      MonthsGrow(y, m, 13);
    } else if m < m' {
      MonthsGrow(y, m, m');
    }
  }

  /** The calendar numbers days in order. */
  lemma DateOrder(y: nat, m: nat, d: nat, y': nat, m': nat, d': nat)
    requires ValidDate(y, m, d) && ValidDate(y', m', d')
    ensures DayNumber(y, m, d) < DayNumber(y', m', d') <==> DateLess(y, m, d, y', m', d')
    ensures DayNumber(y, m, d) == DayNumber(y', m', d') <==> y == y' && m == m' && d == d'
  {
    if DateLess(y, m, d, y', m', d') {
      EarlierDate(y, m, d, y', m', d');
    } else if DateLess(y', m', d', y, m, d) {
      EarlierDate(y', m', d', y, m, d);
    }
  }

  // --------------------------------------------------------------- rendering

  function DateText(c: Civil, rest: string): string {
    Pad(c.year, 4) + (['-'] + (Pad(c.month, 2) + (['-'] + (Pad(c.day, 2) + rest))))
  }

  function ClockText(c: Civil, rest: string): string {
    ['T'] + (Pad(c.hour, 2) + ([':'] + (Pad(c.minute, 2) + ([':'] + (Pad(c.second, 2) + rest)))))
  }

  /** The fraction with 0, 3, 6 or 9 digits, the fewest that lose nothing. */
  function Fraction(nano: nat): string
    requires nano < 1_000_000_000
  {
    if nano == 0 then ""
    else if nano % 1_000_000 == 0 then ['.'] + Pad(nano / 1_000_000, 3)
    else if nano % 1_000 == 0 then ['.'] + Pad(nano / 1_000, 6)
    else ['.'] + Pad(nano, 9)
  }

  const UTC_OFFSET := "+00:00"

  /** `to_rfc3339()` of a UTC instant: how events, deadlines and usage bounds are spelled. */
  function Render(c: Civil): string
    requires Valid(c)
  {
    DateText(c, ClockText(c, Fraction(c.nano) + UTC_OFFSET))
  }

  /** The automation engine's `stamp`: whole seconds and a literal `Z`. */
  function Stamp(c: Civil): string
    requires Valid(c)
  {
    DateText(c, ClockText(c, "Z"))
  }

  /** The CLI's `stamp`, before percent-encoding: whole seconds and an offset. */
  function CliStamp(c: Civil): string
    requires Valid(c)
  {
    DateText(c, ClockText(c, UTC_OFFSET))
  }

  // ------------------------------------------------- how it is spelled

  /** The text at `from`, `w` characters long, is the number `n` in digits. */
  ghost predicate NumberAt(s: string, from: nat, w: nat, n: nat) {
    from + w <= |s| && (forall i :: from <= i < from + w ==> '0' <= s[i] <= '9') && Numeral(s[from..from + w]) == n
  }

  /** `YYYY-MM-DDThh:mm:ss`, read off the characters. */
  ghost predicate SpellsSecond(s: string, c: Civil) {
    && |s| >= 19
    && NumberAt(s, 0, 4, c.year) && s[4] == '-' && NumberAt(s, 5, 2, c.month) && s[7] == '-' && NumberAt(s, 8, 2, c.day)
    && s[10] == 'T'
    && NumberAt(s, 11, 2, c.hour) && s[13] == ':' && NumberAt(s, 14, 2, c.minute) && s[16] == ':' && NumberAt(s, 17, 2, c.second)
  }

  /** A number standing in front of a text. */
  lemma NumberFirst(n: nat, w: nat, rest: string)
    requires n < Pow10(w)
    ensures NumberAt(Pad(n, w) + rest, 0, w, n)
  {
    PadNumeral(n, w);
    assert (Pad(n, w) + rest)[0..w] == Pad(n, w);
  }

  /** A text standing behind another. */
  lemma NumberBehind(before: string, s: string, from: nat, w: nat, n: nat)
    requires NumberAt(s, from, w, n)
    ensures NumberAt(before + s, |before| + from, w, n)
  {
    var all := before + s;
    assert all[|before| + from..|before| + from + w] == s[from..from + w];
    forall i | |before| + from <= i < |before| + from + w
      ensures '0' <= all[i] <= '9'
    {
      assert all[i] == s[i - |before|];
    }
  }

  /** Two digits and a text behind a text. */
  lemma TwoDigitsAt(before: string, n: nat, rest: string)
    requires n < 100
    ensures NumberAt(before + (Pad(n, 2) + rest), |before|, 2, n)
  {
    Tens();
    NumberFirst(n, 2, rest);
    NumberBehind(before, Pad(n, 2) + rest, 0, 2, n);
  }

  ghost predicate Digits(s: string) {
    forall i :: 0 <= i < |s| ==> '0' <= s[i] <= '9'
  }

  /** Two texts of digits, equally long, that read as the same number are the same. */
  lemma {:induction false} DigitsAreUnique(s: string, t: string)
    requires |s| == |t| && Digits(s) && Digits(t) && Numeral(s) == Numeral(t)
    ensures s == t
  {
    if s != "" {
      var n := |s| - 1;
      assert s[n] == t[n] && Numeral(s[..n]) == Numeral(t[..n]);
      DigitsAreUnique(s[..n], t[..n]);
      assert s == s[..n] + [s[n]] && t == t[..n] + [t[n]];
    }
  }

  lemma DateSpelled(c: Civil, rest: string)
    requires Valid(c)
    ensures
      var s := DateText(c, rest);
      && |s| == 10 + |rest| && s[10..] == rest
      && NumberAt(s, 0, 4, c.year) && s[4] == '-' && NumberAt(s, 5, 2, c.month) && s[7] == '-' && NumberAt(s, 8, 2, c.day)
  {
    Tens();
    var s := DateText(c, rest);
    var tail := ['-'] + (Pad(c.day, 2) + rest);
    NumberFirst(c.year, 4, ['-'] + (Pad(c.month, 2) + tail));
    assert s == (Pad(c.year, 4) + ['-']) + (Pad(c.month, 2) + tail);
    TwoDigitsAt(Pad(c.year, 4) + ['-'], c.month, tail);
    assert s == (Pad(c.year, 4) + ['-'] + Pad(c.month, 2) + ['-']) + (Pad(c.day, 2) + rest);
    TwoDigitsAt(Pad(c.year, 4) + ['-'] + Pad(c.month, 2) + ['-'], c.day, rest);
  }

  lemma ClockSpelled(c: Civil, rest: string)
    requires Valid(c)
    ensures
      var s := ClockText(c, rest);
      && |s| == 9 + |rest| && s[9..] == rest && s[0] == 'T'
      && NumberAt(s, 1, 2, c.hour) && s[3] == ':' && NumberAt(s, 4, 2, c.minute) && s[6] == ':' && NumberAt(s, 7, 2, c.second)
  {
    var s := ClockText(c, rest);
    var tail := [':'] + (Pad(c.second, 2) + rest);
    TwoDigitsAt(['T'], c.hour, [':'] + (Pad(c.minute, 2) + tail));
    assert s == (['T'] + Pad(c.hour, 2) + [':']) + (Pad(c.minute, 2) + tail);
    TwoDigitsAt(['T'] + Pad(c.hour, 2) + [':'], c.minute, tail);
    assert s == (['T'] + Pad(c.hour, 2) + [':'] + Pad(c.minute, 2) + [':']) + (Pad(c.second, 2) + rest);
    TwoDigitsAt(['T'] + Pad(c.hour, 2) + [':'] + Pad(c.minute, 2) + [':'], c.second, rest);
  }

  lemma SecondSpelled(c: Civil, rest: string)
    requires Valid(c)
    ensures
      var s := DateText(c, ClockText(c, rest));
      SpellsSecond(s, c) && |s| == 19 + |rest| && s[19..] == rest
  {
    var clock := ClockText(c, rest);
    var s := DateText(c, clock);
    DateSpelled(c, clock);
    ClockSpelled(c, rest);
    assert s == s[..10] + clock;
    NumberBehind(s[..10], clock, 1, 2, c.hour);
    NumberBehind(s[..10], clock, 4, 2, c.minute);
    NumberBehind(s[..10], clock, 7, 2, c.second);
    assert s[10] == clock[0] && s[13] == clock[3] && s[16] == clock[6];
    assert s[19..] == clock[9..];
  }

  /** What follows the seconds: nothing for a whole one, and otherwise a dot and the
      fraction in three, six or nine digits, the last three of them not all zero. */
  ghost predicate SpellsFraction(s: string, nano: nat) {
    if nano == 0 then s == ""
    else
      && (|s| == 4 || |s| == 7 || |s| == 10) && s[0] == '.'
      && NumberAt(s, 1, |s| - 1, Numeral(s[1..])) && Numeral(s[1..]) * Pow10(10 - |s|) == nano
      && Numeral(s[1..]) % 1000 != 0
  }

  lemma PowersOfTen()
    ensures Pow10(0) == 1 && Pow10(3) == 1_000 && Pow10(6) == 1_000_000 && Pow10(9) == 1_000_000_000
  {
    Tens();
    assert Pow10(5) == 100_000;
    assert Pow10(8) == 100_000_000;
  }

  lemma DotNumber(n: nat, w: nat)
    requires n < Pow10(w)
    ensures
      var s := ['.'] + Pad(n, w);
      |s| == w + 1 && s[0] == '.' && Numeral(s[1..]) == n && NumberAt(s, 1, w, n)
  {
    PadNumeral(n, w);
    NumberFirst(n, w, "");
    assert Pad(n, w) + "" == Pad(n, w);
    NumberBehind(['.'], Pad(n, w), 0, w, n);
    assert (['.'] + Pad(n, w))[1..] == Pad(n, w);
  }

  lemma Thousands(nano: nat)
    requires 0 < nano < 1_000_000_000
    ensures nano % 1_000_000 == 0 ==> nano / 1_000_000 * 1_000_000 == nano && nano / 1_000_000 % 1000 != 0 && nano / 1_000_000 < 1000
    ensures nano % 1_000 == 0 && nano % 1_000_000 != 0 ==>
              nano / 1_000 * 1_000 == nano && nano / 1_000 % 1000 != 0 && nano / 1_000 < 1_000_000
  {
    if nano % 1_000 == 0 && nano / 1_000 % 1000 == 0 {
      assert nano == 1_000_000 * (nano / 1_000 / 1000);
    }
  }

  lemma FractionText(n: nat, w: nat, nano: nat)
    requires (w == 3 || w == 6 || w == 9) && n < Pow10(w) && n % 1000 != 0 && 0 < nano && n * Pow10(9 - w) == nano
    ensures SpellsFraction(['.'] + Pad(n, w), nano)
  {
    DotNumber(n, w);
  }

  lemma FractionSpelled(nano: nat)
    requires nano < 1_000_000_000
    ensures SpellsFraction(Fraction(nano), nano)
  {
    PowersOfTen();
    if nano > 0 {
      Thousands(nano);
      if nano % 1_000_000 == 0 {
        FractionText(nano / 1_000_000, 3, nano);
      } else if nano % 1_000 == 0 {
        FractionText(nano / 1_000, 6, nano);
      } else {
        FractionText(nano, 9, nano);
      }
    }
  }

  /** A rendered instant, read off its characters: the civil fields in their places, the
      shortest fraction of whole thousands, and the UTC offset. */
  lemma RenderSpells(c: Civil)
    requires Valid(c)
    ensures
      var s := Render(c);
      && SpellsSecond(s, c) && |s| >= 25 && SpellsFraction(s[19..|s| - 6], c.nano)
      && s[|s| - 6..] == ['+', '0', '0', ':', '0', '0']
  {
    var s, rest := Render(c), Fraction(c.nano) + UTC_OFFSET;
    SecondSpelled(c, rest);
    FractionSpelled(c.nano);
    assert s[19..|s| - 6] == s[19..][..|Fraction(c.nano)|] == Fraction(c.nano);
    assert s[|s| - 6..] == s[19..][|Fraction(c.nano)|..] == UTC_OFFSET;
  }

  /** A fire time, likewise: whole seconds, and a `Z` at the end. */
  lemma StampSpells(c: Civil)
    requires Valid(c)
    ensures SpellsSecond(Stamp(c), c) && Stamp(c)[19..] == ['Z']
  {
    SecondSpelled(c, "Z");
  }

  lemma DateTextOrder(a: Civil, b: Civil, x: string, y: string)
    requires Valid(a) && Valid(b)
    ensures
      var da, db := DayNumber(a.year, a.month, a.day), DayNumber(b.year, b.month, b.day);
      Before(DateText(a, x), DateText(b, y)) <==> da < db || (da == db && Before(x, y))
  {
    var x1, y1 := Pad(a.day, 2) + x, Pad(b.day, 2) + y;
    var x2, y2 := Pad(a.month, 2) + (['-'] + x1), Pad(b.month, 2) + (['-'] + y1);
    Tens();
    PadOrder(a.year, b.year, 4, ['-'] + x2, ['-'] + y2);
    BeforeAfterCommon('-', x2, y2);
    PadOrder(a.month, b.month, 2, ['-'] + x1, ['-'] + y1);
    BeforeAfterCommon('-', x1, y1);
    PadOrder(a.day, b.day, 2, x, y);
    DateOrder(a.year, a.month, a.day, b.year, b.month, b.day);
  }

  lemma Tens()
    ensures Pow10(1) == 10 && Pow10(2) == 100 && Pow10(3) == 1000 && Pow10(4) == 10000
  {
    assert Pow10(1) == 10 && Pow10(2) == 100;
  }

  lemma ClockTextOrder(a: Civil, b: Civil, x: string, y: string)
    requires Valid(a) && Valid(b)
    ensures Before(ClockText(a, x), ClockText(b, y)) <==>
            SecondOfDay(a) < SecondOfDay(b) || (SecondOfDay(a) == SecondOfDay(b) && Before(x, y))
  {
    var x1, y1 := Pad(a.second, 2) + x, Pad(b.second, 2) + y;
    var x2, y2 := Pad(a.minute, 2) + ([':'] + x1), Pad(b.minute, 2) + ([':'] + y1);
    var x3, y3 := Pad(a.hour, 2) + ([':'] + x2), Pad(b.hour, 2) + ([':'] + y2);
    Tens();
    BeforeAfterCommon('T', x3, y3);
    PadOrder(a.hour, b.hour, 2, [':'] + x2, [':'] + y2);
    BeforeAfterCommon(':', x2, y2);
    PadOrder(a.minute, b.minute, 2, [':'] + x1, [':'] + y1);
    BeforeAfterCommon(':', x1, y1);
    PadOrder(a.second, b.second, 2, x, y);
  }

  /** Text up to the second sorts by the second; ties go to what follows. */
  lemma WholeOrder(a: Civil, b: Civil, x: string, y: string)
    requires Valid(a) && Valid(b)
    ensures Before(DateText(a, ClockText(a, x)), DateText(b, ClockText(b, y))) <==>
            Seconds(a) < Seconds(b) || (Seconds(a) == Seconds(b) && Before(x, y))
  {
    DateTextOrder(a, b, ClockText(a, x), ClockText(b, y));
    ClockTextOrder(a, b, x, y);
    assert SecondOfDay(a) < 86400 && SecondOfDay(b) < 86400;
  }

  // A fraction as its three-digit groups, trailing zero groups left out.

  function Group3(g3: nat): string {
    if g3 == 0 then "" else Pad(g3, 3)
  }

  function Group2(g2: nat, g3: nat): string {
    if g2 == 0 && g3 == 0 then "" else Pad(g2, 3) + Group3(g3)
  }

  function Groups(g1: nat, g2: nat, g3: nat): string {
    if g1 == 0 && g2 == 0 && g3 == 0 then "" else ['.'] + (Pad(g1, 3) + Group2(g2, g3))
  }

  function Nano(g1: nat, g2: nat, g3: nat): nat {
    1000 * (1000 * g1 + g2) + g3
  }

  lemma NanoParts(g1: nat, g2: nat, g3: nat)
    requires g1 < 1000 && g2 < 1000 && g3 < 1000
    ensures var n := Nano(g1, g2, g3);
      n < 1_000_000_000 && n % 1000 == g3 && n / 1000 == 1000 * g1 + g2 && n % 1_000_000 == 1000 * g2 + g3 && n / 1_000_000 == g1
  {
  }

  lemma Regroup(a: string, b: string, c: string)
    ensures a + b + c == a + (b + c)
  {
  }

  lemma PadGroups(g1: nat, g2: nat, g3: nat, q: nat, w: nat, v: nat, three: nat)
    requires g2 < 1000 && g3 < 1000 && three == 3 && v == w + 3 && q == 1000 * g1 + g2
    ensures Pad(1000 * q + g3, v + 3) == Pad(g1, w) + (Pad(g2, three) + Pad(g3, three))
  {
    PadThree(q, g3, v);
    PadThree(g1, g2, w);
    Regroup(Pad(g1, w), Pad(g2, three), Pad(g3, three));
  }

  lemma NineDigits(g1: nat, g2: nat, g3: nat)
    requires g1 < 1000 && g2 < 1000 && 0 < g3 < 1000
    ensures Nano(g1, g2, g3) < 1_000_000_000 && Fraction(Nano(g1, g2, g3)) == Groups(g1, g2, g3)
  {
    PadGroups(g1, g2, g3, 1000 * g1 + g2, 3, 6, 3);
    NanoParts(g1, g2, g3);
  }

  lemma SixDigits(g1: nat, g2: nat)
    requires g1 < 1000 && 0 < g2 < 1000
    ensures Nano(g1, g2, 0) < 1_000_000_000 && Fraction(Nano(g1, g2, 0)) == Groups(g1, g2, 0)
  {
    PadThree(g1, g2, 3);
    assert Pad(g2, 3) + "" == Pad(g2, 3);
    NanoParts(g1, g2, 0);
  }

  lemma FractionIsGroups(g1: nat, g2: nat, g3: nat)
    requires g1 < 1000 && g2 < 1000 && g3 < 1000
    ensures Nano(g1, g2, g3) < 1_000_000_000
    ensures Fraction(Nano(g1, g2, g3)) == Groups(g1, g2, g3)
  {
    if g3 != 0 {
      NineDigits(g1, g2, g3);
    } else if g2 != 0 {
      SixDigits(g1, g2);
    } else {
      NanoParts(g1, g2, g3);
      assert Pad(g1, 3) + "" == Pad(g1, 3);
    }
  }

  /** `+` sorts before every digit, so a shorter fraction sorts before the longer
      ones that extend it. */
  lemma Group3Order(a: nat, b: nat)
    requires a < 1000 && b < 1000
    ensures Before(Group3(a) + UTC_OFFSET, Group3(b) + UTC_OFFSET) <==> a < b
  {
    Tens();
    BeforeIrreflexive(UTC_OFFSET);
    assert "" + UTC_OFFSET == UTC_OFFSET;
    assert a != 0 ==> (Group3(a) + UTC_OFFSET)[0] == Pad(a, 3)[0];
    assert b != 0 ==> (Group3(b) + UTC_OFFSET)[0] == Pad(b, 3)[0];
    PadOrder(a, b, 3, UTC_OFFSET, UTC_OFFSET);
  }

  lemma Group2Order(a2: nat, a3: nat, b2: nat, b3: nat)
    requires a2 < 1000 && a3 < 1000 && b2 < 1000 && b3 < 1000
    ensures Before(Group2(a2, a3) + UTC_OFFSET, Group2(b2, b3) + UTC_OFFSET) <==> a2 < b2 || (a2 == b2 && a3 < b3)
  {
    Tens();
    BeforeIrreflexive(UTC_OFFSET);
    assert "" + UTC_OFFSET == UTC_OFFSET;
    assert (a2 != 0 || a3 != 0) ==> Group2(a2, a3) + UTC_OFFSET == Pad(a2, 3) + (Group3(a3) + UTC_OFFSET);
    assert (b2 != 0 || b3 != 0) ==> Group2(b2, b3) + UTC_OFFSET == Pad(b2, 3) + (Group3(b3) + UTC_OFFSET);
    PadOrder(a2, b2, 3, Group3(a3) + UTC_OFFSET, Group3(b3) + UTC_OFFSET);
    Group3Order(a3, b3);
  }

  lemma NanoOrder(a1: nat, a2: nat, a3: nat, b1: nat, b2: nat, b3: nat)
    requires a2 < 1000 && a3 < 1000 && b2 < 1000 && b3 < 1000
    ensures Nano(a1, a2, a3) < Nano(b1, b2, b3) <==> a1 < b1 || (a1 == b1 && (a2 < b2 || (a2 == b2 && a3 < b3)))
  {
  }

  lemma GroupsText(g1: nat, g2: nat, g3: nat)
    ensures Groups(g1, g2, g3) + UTC_OFFSET ==
            if g1 == 0 && g2 == 0 && g3 == 0 then UTC_OFFSET
            else ['.'] + (Pad(g1, 3) + (Group2(g2, g3) + UTC_OFFSET))
  {
  }

  lemma GroupsOrder(a1: nat, a2: nat, a3: nat, b1: nat, b2: nat, b3: nat)
    requires a1 < 1000 && a2 < 1000 && a3 < 1000 && b1 < 1000 && b2 < 1000 && b3 < 1000
    ensures Before(Groups(a1, a2, a3) + UTC_OFFSET, Groups(b1, b2, b3) + UTC_OFFSET)
            <==> Nano(a1, a2, a3) < Nano(b1, b2, b3)
  {
    NanoOrder(a1, a2, a3, b1, b2, b3);
    GroupsText(a1, a2, a3);
    GroupsText(b1, b2, b3);
    var zero := (a1 == 0 && a2 == 0 && a3 == 0) || (b1 == 0 && b2 == 0 && b3 == 0);
    if zero {
      BeforeIrreflexive(UTC_OFFSET);
    } else {
      BeforeAfterCommon('.', Pad(a1, 3) + (Group2(a2, a3) + UTC_OFFSET), Pad(b1, 3) + (Group2(b2, b3) + UTC_OFFSET));
      Tens();
      PadOrder(a1, b1, 3, Group2(a2, a3) + UTC_OFFSET, Group2(b2, b3) + UTC_OFFSET);
      Group2Order(a2, a3, b2, b3);
    }
  }

  lemma InGroups(n: nat) returns (g1: nat, g2: nat, g3: nat)
    requires n < 1_000_000_000
    ensures g1 < 1000 && g2 < 1000 && g3 < 1000 && n == Nano(g1, g2, g3)
  {
    g1, g2, g3 := n / 1000 / 1000, n / 1000 % 1000, n % 1000;
  }

  lemma FractionOrder(a: nat, b: nat)
    requires a < 1_000_000_000 && b < 1_000_000_000
    ensures Before(Fraction(a) + UTC_OFFSET, Fraction(b) + UTC_OFFSET) <==> a < b
  {
    var a1, a2, a3 := InGroups(a);
    var b1, b2, b3 := InGroups(b);
    FractionIsGroups(a1, a2, a3);
    FractionIsGroups(b1, b2, b3);
    GroupsOrder(a1, a2, a3, b1, b2, b3);
  }

  /** Timestamp order: rendered instants compare as strings exactly as they do in
      time, whatever mixture of 0, 3, 6 and 9 fraction digits they carry. */
  lemma RenderOrder(a: Civil, b: Civil)
    requires Valid(a) && Valid(b)
    ensures Before(Render(a), Render(b)) <==> Nanos(a) < Nanos(b)
  {
    WholeOrder(a, b, Fraction(a.nano) + UTC_OFFSET, Fraction(b.nano) + UTC_OFFSET);
    FractionOrder(a.nano, b.nano);
  }

  lemma RenderInjective(a: Civil, b: Civil)
    requires Valid(a) && Valid(b)
    ensures Render(a) == Render(b) <==> Nanos(a) == Nanos(b)
  {
    RenderOrder(a, b);
    RenderOrder(b, a);
    BeforeIrreflexive(Render(a));
    BeforeTotal(Render(a), Render(b));
  }

  /** Fire times compare by whole second. */
  lemma StampOrder(a: Civil, b: Civil)
    requires Valid(a) && Valid(b)
    ensures Before(Stamp(a), Stamp(b)) <==> Seconds(a) < Seconds(b)
  {
    WholeOrder(a, b, "Z", "Z");
    BeforeIrreflexive("Z");
  }

  /** The CLI's spelling is a rendered whole second, so it bounds events correctly. */
  lemma CliStampIsRendered(c: Civil)
    requires Valid(c)
    ensures CliStamp(c) == Render(c.(nano := 0))
  {
    assert Fraction(0) + UTC_OFFSET == UTC_OFFSET;
  }

  /** Mixing the two spellings: a `Z` bound misplaces exactly the events inside its
      own second, all of which sort before it. */
  lemma MixedOrder(bound: Civil, event: Civil)
    requires Valid(bound) && Valid(event) && bound.nano == 0
    ensures Before(Render(event), Stamp(bound)) <==> Seconds(event) <= Seconds(bound)
    ensures (Before(Render(event), Stamp(bound)) <==> Nanos(event) < Nanos(bound)) <==> Seconds(event) != Seconds(bound)
  {
    WholeOrder(event, bound, Fraction(event.nano) + UTC_OFFSET, "Z");
    var tail := Fraction(event.nano) + UTC_OFFSET;
    assert tail[0] == '+' || tail[0] == '.';
  }

  /** For any whole second: an event later in that second sorts before the `Z` bound. */
  lemma MixedOrderFails(bound: Civil, nano: nat)
    requires Valid(bound) && bound.nano == 0 && 0 < nano < 1_000_000_000
    ensures Nanos(bound) < Nanos(bound.(nano := nano)) && Before(Render(bound.(nano := nano)), Stamp(bound))
  {
    MixedOrder(bound, bound.(nano := nano));
  }
}
