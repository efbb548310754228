/** Retry deadlines: computed to the microsecond, stored as whole-second text, compared as text. */
module Retry {
  import opened Options
  import opened TextOrder

  // ------------------------------------------------------------------ calendar

  /** A UTC date and time as the clock library stores it. */
  datatype Stamp = Stamp(year: int, month: int, day: int, hour: int, minute: int, second: int, micro: int)

  predicate Leap(year: int) { year % 4 == 0 && (year % 100 != 0 || year % 400 == 0) }

  function DaysInMonth(year: int, month: int): int {
    if month == 2 then (if Leap(year) then 29 else 28)
    else if month == 4 || month == 6 || month == 9 || month == 11 then 30 else 31
  }

  predicate Valid(s: Stamp) {
    && 1 <= s.year <= 9999 && 1 <= s.month <= 12 && 1 <= s.day <= DaysInMonth(s.year, s.month)
    && 0 <= s.hour < 24 && 0 <= s.minute < 60 && 0 <= s.second < 60 && 0 <= s.micro < 1_000_000
  }

  function DaysBeforeYear(year: int): int {
    var y := year - 1;
    y * 365 + y / 4 - y / 100 + y / 400
  }

  function DaysBeforeMonth(year: int, month: int): (days: int)
    ensures days >= 0
    decreases month
  {
    if month <= 1 then 0 else DaysBeforeMonth(year, month - 1) + DaysInMonth(year, month - 1)
  }

  function DaysInYear(year: int): int { if Leap(year) then 366 else 365 }

  /** Whole days since 1 January of year 1. */
  function Day(s: Stamp): int { DaysBeforeYear(s.year) + DaysBeforeMonth(s.year, s.month) + s.day - 1 }

  function SecondOfDay(s: Stamp): int { s.hour * 3600 + s.minute * 60 + s.second }

  function Seconds(s: Stamp): int { Day(s) * 86400 + SecondOfDay(s) }

  function Micros(s: Stamp): int { Seconds(s) * 1_000_000 + s.micro }

  const LAST_DAY := 3_652_058
  const LAST_SECOND := 315_537_897_599

  lemma Multiples4(y: int)
    ensures y / 4 == (y - 1) / 4 + if y % 4 == 0 then 1 else 0
  {
  }

  lemma Multiples100(y: int)
    ensures y / 100 == (y - 1) / 100 + if y % 100 == 0 then 1 else 0
    ensures y % 100 == 0 ==> y % 4 == 0
  {
  }

  lemma Multiples400(y: int)
    ensures y / 400 == (y - 1) / 400 + if y % 400 == 0 then 1 else 0
    ensures y % 400 == 0 ==> y % 100 == 0
  {
  }

  lemma YearStep(year: int)
    ensures DaysBeforeYear(year + 1) == DaysBeforeYear(year) + DaysInYear(year)
  {
    Multiples4(year);
    Multiples100(year);
    Multiples400(year);
  }

  lemma {:induction false} YearsApart(a: int, b: int)
    requires a < b
    ensures DaysBeforeYear(a) + DaysInYear(a) <= DaysBeforeYear(b)
    decreases b - a
  {
    YearStep(b - 1);
    if a < b - 1 { YearsApart(a, b - 1); }
  }

  lemma {:induction false} MonthsApart(year: int, a: int, b: int)
    requires 1 <= a < b
    ensures DaysBeforeMonth(year, a) + DaysInMonth(year, a) <= DaysBeforeMonth(year, b)
    decreases b - a
  {
    if a < b - 1 { MonthsApart(year, a, b - 1); }
  }

  lemma TwelveMonths(year: int)
    ensures DaysBeforeMonth(year, 12) + DaysInMonth(year, 12) == DaysInYear(year)
  {
    assert DaysBeforeMonth(year, 3) == 31 + DaysInMonth(year, 2);
    assert DaysBeforeMonth(year, 6) == DaysBeforeMonth(year, 3) + 92;
    assert DaysBeforeMonth(year, 9) == DaysBeforeMonth(year, 6) + 92;
    assert DaysBeforeMonth(year, 12) == DaysBeforeMonth(year, 9) + 91;
  }

  lemma DayInsideYear(s: Stamp)
    requires Valid(s)
    ensures DaysBeforeYear(s.year) <= Day(s) < DaysBeforeYear(s.year) + DaysInYear(s.year)
  {
    TwelveMonths(s.year);
    if s.month < 12 { MonthsApart(s.year, s.month, 12); }
  }

  predicate DateBefore(a: Stamp, b: Stamp) {
    a.year < b.year || (a.year == b.year && (a.month < b.month || (a.month == b.month && a.day < b.day)))
  }

  predicate SameDate(a: Stamp, b: Stamp) { a.year == b.year && a.month == b.month && a.day == b.day }

  /** Calendar order is day order. */
  lemma DateOrder(a: Stamp, b: Stamp)
    requires Valid(a) && Valid(b) && DateBefore(a, b)
    ensures Day(a) < Day(b)
  {
    DayInsideYear(a);
    DayInsideYear(b);
    if a.year < b.year {
      YearsApart(a.year, b.year);
    } else if a.month < b.month {
      MonthsApart(a.year, a.month, b.month);
    }
  }

  predicate ClockBefore(a: Stamp, b: Stamp) {
    a.hour < b.hour || (a.hour == b.hour && (a.minute < b.minute || (a.minute == b.minute && a.second < b.second)))
  }

  predicate FieldsBefore(a: Stamp, b: Stamp) { DateBefore(a, b) || (SameDate(a, b) && ClockBefore(a, b)) }

  /** Comparing fields from the year down to the second is comparing seconds. */
  lemma FieldOrder(a: Stamp, b: Stamp)
    requires Valid(a) && Valid(b)
    ensures FieldsBefore(a, b) <==> Seconds(a) < Seconds(b)
  {
    if DateBefore(a, b) {
      DateOrder(a, b);
    } else if DateBefore(b, a) {
      DateOrder(b, a);
    }
  }

  lemma LastStamp(s: Stamp)
    requires Valid(s)
    ensures 0 <= Day(s) <= LAST_DAY && 0 <= Seconds(s) <= LAST_SECOND
  {
    DayInsideYear(s);
    if s.year < 9999 { YearsApart(s.year, 9999); }
    if s.year > 1 { YearsApart(1, s.year); }
    assert DaysBeforeYear(9999) == 3_651_694;
  }

  // --------------------------------------------------------- instants to stamps

  function YearAt(day: int, year: int): (y: int)
    requires 1 <= year <= 9999 && DaysBeforeYear(year) <= day <= LAST_DAY
    ensures year <= y <= 9999 && DaysBeforeYear(y) <= day < DaysBeforeYear(y) + DaysInYear(y)
    decreases 9999 - year
  {
    YearStep(year);
    assert DaysBeforeYear(10000) == LAST_DAY + 1;
    if day < DaysBeforeYear(year) + DaysInYear(year) then year else YearAt(day, year + 1)
  }

  function MonthAt(rest: int, year: int, month: int): (m: int)
    requires 1 <= month <= 12 && DaysBeforeMonth(year, month) <= rest < DaysInYear(year)
    ensures month <= m <= 12 && DaysBeforeMonth(year, m) <= rest < DaysBeforeMonth(year, m) + DaysInMonth(year, m)
    decreases 12 - month
  {
    TwelveMonths(year);
    if rest < DaysBeforeMonth(year, month) + DaysInMonth(year, month) then month else MonthAt(rest, year, month + 1)
  }

  function FromMicros(t: int): (s: Stamp)
    requires 0 <= t < (LAST_SECOND + 1) * 1_000_000
    ensures Valid(s) && Micros(s) == t
  {
    var second, micro := t / 1_000_000, t % 1_000_000;
    var day, rest := second / 86400, second % 86400;
    var year := YearAt(day, 1);
    var inYear := day - DaysBeforeYear(year);
    var month := MonthAt(inYear, year, 1);
    Stamp(year, month, inYear - DaysBeforeMonth(year, month) + 1, rest / 3600, rest % 3600 / 60, rest % 60, micro)
  }

  const CEILING := Stamp(9999, 12, 31, 23, 59, 59, 999_999)

  /** Adding a duration; a sum past the last representable instant overflows. */
  function Plus(s: Stamp, micros: nat): (r: Option<Stamp>)
    requires Valid(s)
    ensures r.Some? <==> Micros(s) + micros < (LAST_SECOND + 1) * 1_000_000
    ensures r.Some? ==> Valid(r.value) && Micros(r.value) == Micros(s) + micros
  {
    LastStamp(s);
    if Micros(s) + micros < (LAST_SECOND + 1) * 1_000_000 then Some(FromMicros(Micros(s) + micros)) else None
  }

  // ---------------------------------------------------------------------- text

  function Digit(n: int): char { '0' + (n % 10) as char }

  function Two(n: int): string { [Digit(n / 10), Digit(n)] }

  function Four(n: int): string { Two(n / 100) + Two(n % 100) }

  function DateText(s: Stamp): string { Four(s.year) + ("-" + (Two(s.month) + ("-" + Two(s.day)))) }

  function ClockText(s: Stamp): string { Two(s.hour) + (":" + (Two(s.minute) + (":" + Two(s.second)))) }

  /** RFC 3339 text at second precision; microseconds are dropped. */
  function Iso(s: Stamp): string { DateText(s) + ("T" + (ClockText(s) + "Z")) }

  lemma OneOrder(x: char, y: char)
    ensures Before([x], [y]) <==> x < y
  {
    assert [x][1..] == [] && [y][1..] == [];
  }

  lemma TwoOrder(a: int, b: int)
    requires 0 <= a < 100 && 0 <= b < 100
    ensures Before(Two(a), Two(b)) <==> a < b
    ensures Two(a) == Two(b) <==> a == b
  {
    OneOrder(Digit(a), Digit(b));
    assert Two(a)[1..] == [Digit(a)] && Two(b)[1..] == [Digit(b)];
    assert a == a / 10 * 10 + a % 10 && b == b / 10 * 10 + b % 10;
    assert Two(a) == Two(b) ==> Two(a)[0] == Two(b)[0] && Two(a)[1] == Two(b)[1];
  }

  /** Texts whose first parts have one length compare by those parts, then by the rest. */
  lemma PartOrder(p: string, q: string, x: string, y: string)
    requires |p| == |q|
    ensures Before(p + x, q + y) <==> Before(p, q) || (p == q && Before(x, y))
    ensures |x| == |y| ==> (p + x == q + y <==> p == q && x == y)
  {
    if p == q {
      CommonPrefix(p, x, y);
      Irreflexive(p);
    } else {
      FirstDifference(p, q, x, y);
    }
    assert (p + x)[..|p|] == p && (q + y)[..|q|] == q;
    assert (p + x)[|p|..] == x && (q + y)[|q|..] == y;
  }

  lemma FourOrder(a: int, b: int)
    requires 0 <= a < 10000 && 0 <= b < 10000
    ensures Before(Four(a), Four(b)) <==> a < b
    ensures Four(a) == Four(b) <==> a == b
  {
    TwoOrder(a / 100, b / 100);
    TwoOrder(a % 100, b % 100);
    PartOrder(Two(a / 100), Two(b / 100), Two(a % 100), Two(b % 100));
  }

  lemma SepOrder(sep: string, x: string, y: string)
    ensures Before(sep + x, sep + y) <==> Before(x, y)
    ensures |x| == |y| ==> (sep + x == sep + y <==> x == y)
  {
    PartOrder(sep, sep, x, y);
    Irreflexive(sep);
  }

  lemma PairOrder(a: int, b: int, sep: string, x: string, y: string)
    requires 0 <= a < 100 && 0 <= b < 100 && |x| == |y|
    ensures Before(Two(a) + (sep + x), Two(b) + (sep + y)) <==> a < b || (a == b && Before(x, y))
    ensures Two(a) + (sep + x) == Two(b) + (sep + y) <==> a == b && x == y
  {
    TwoOrder(a, b);
    SepOrder(sep, x, y);
    PartOrder(Two(a), Two(b), sep + x, sep + y);
  }

  lemma DateTextOrder(a: Stamp, b: Stamp)
    requires Valid(a) && Valid(b)
    ensures Before(DateText(a), DateText(b)) <==> DateBefore(a, b)
    ensures DateText(a) == DateText(b) <==> SameDate(a, b)
  {
    var x, y := Two(a.month) + ("-" + Two(a.day)), Two(b.month) + ("-" + Two(b.day));
    TwoOrder(a.day, b.day);
    PairOrder(a.month, b.month, "-", Two(a.day), Two(b.day));
    SepOrder("-", x, y);
    FourOrder(a.year, b.year);
    PartOrder(Four(a.year), Four(b.year), "-" + x, "-" + y);
  }

  lemma ClockTextOrder(a: Stamp, b: Stamp)
    requires Valid(a) && Valid(b)
    ensures Before(ClockText(a), ClockText(b)) <==> ClockBefore(a, b)
  {
    TwoOrder(a.second, b.second);
    PairOrder(a.minute, b.minute, ":", Two(a.second), Two(b.second));
    PairOrder(a.hour, b.hour, ":", Two(a.minute) + (":" + Two(a.second)), Two(b.minute) + (":" + Two(b.second)));
  }

  /** The text order of fixed-width UTC timestamps is the order of time in whole seconds. */
  lemma TextOrderIsTimeOrder(a: Stamp, b: Stamp)
    requires Valid(a) && Valid(b)
    ensures Before(Iso(a), Iso(b)) <==> Seconds(a) < Seconds(b)
  {
    DateTextOrder(a, b);
    ClockTextOrder(a, b);
    PartOrder(ClockText(a), ClockText(b), "Z", "Z");
    Irreflexive("Z");
    SepOrder("T", ClockText(a) + "Z", ClockText(b) + "Z");
    PartOrder(DateText(a), DateText(b), "T" + (ClockText(a) + "Z"), "T" + (ClockText(b) + "Z"));
    FieldOrder(a, b);
  }

  // ------------------------------------------------------------------ deadlines

  const SECOND := 1_000_000

  function Power2(n: nat): nat { if n == 0 then 1 else 2 * Power2(n - 1) }

  /** The ordinary delay: doubling from the base for at most ten attempts, plus jitter, capped. */
  function OrdinaryDelay(attempts: int, base: nat, cap: nat, jitter: nat): nat {
    var steps := if attempts < 1 then 1 else if attempts > 10 then 10 else attempts;
    var delay := base * Power2(steps - 1) + jitter;
    if delay < cap then delay else cap
  }

  /** Rounds a target up to whole seconds, except where that overflows. */
  function WholeSecond(target: Stamp): (r: Stamp)
    requires Valid(target)
  {
    if target.micro == 0 then target
    else
      var up := Plus(target, SECOND);
      (if up.Some? then up.value else target).(micro := 0)
  }

  /** The stored deadline, or None where the addition raises. */
  function Backoff(now: Stamp, retryAfter: Option<int>, ordinary: nat): Option<string>
    requires Valid(now)
  {
    if retryAfter.Some? then
      var target := Plus(now, if retryAfter.value < 0 then 0 else retryAfter.value);
      Some(Iso(WholeSecond(if target.Some? then target.value else CEILING)))
    else
      var target := Plus(now, ordinary);
      if target.Some? then Some(Iso(WholeSecond(target.value))) else None
  }

  /** What the due scans test: the stored text is not after the current second's text. */
  predicate Due(next: Option<string>, now: Stamp) {
    next.None? || !Before(Iso(now), next.value)
  }

  lemma DropMicros(s: Stamp)
    requires Valid(s)
    ensures Valid(s.(micro := 0)) && Seconds(s.(micro := 0)) == Seconds(s)
  {
  }

  lemma WholePart(s: int, m: int, s': int, m': int)
    requires 0 <= m < SECOND && 0 <= m' < SECOND && s' * SECOND + m' == s * SECOND + m + SECOND
    ensures s' == s + 1 && m' == m
  {
  }

  /** The whole second that is stored for a target: itself, the next one, or at the end the last one. */
  lemma WholeSecondSeconds(target: Stamp)
    requires Valid(target)
    ensures Valid(WholeSecond(target)) && WholeSecond(target).micro == 0
    ensures Seconds(WholeSecond(target)) ==
            if target.micro == 0 || Seconds(target) == LAST_SECOND then Seconds(target) else Seconds(target) + 1
  {
    LastStamp(target);
    if target.micro != 0 {
      var up := Plus(target, SECOND);
      if up.Some? {
        WholePart(Seconds(target), target.micro, Seconds(up.value), up.value.micro);
        LastStamp(up.value);
        DropMicros(up.value);
      } else {
        DropMicros(target);
      }
    }
  }

  lemma WholeSecondIs(target: Stamp)
    requires Valid(target)
    ensures Valid(WholeSecond(target)) && WholeSecond(target).micro == 0
    ensures Micros(target) <= LAST_SECOND * SECOND ==> Micros(target) <= Micros(WholeSecond(target)) < Micros(target) + SECOND
    ensures Micros(target) > LAST_SECOND * SECOND ==> Micros(WholeSecond(target)) == LAST_SECOND * SECOND
  {
    WholeSecondSeconds(target);
    LastStamp(target);
  }

  lemma CeilingIsLast()
    ensures Valid(CEILING) && Micros(CEILING) == (LAST_SECOND + 1) * SECOND - 1
  {
    TwelveMonths(9999);
    assert DaysBeforeYear(9999) == 3_651_694;
    assert DaysInYear(9999) == 365;
  }

  /** The whole second behind the stored text of a Retry-After deadline. */
  function Stored(now: Stamp, delay: nat): (s: Stamp)
    requires Valid(now)
    ensures Valid(s)
  {
    CeilingIsLast();
    var target := Plus(now, delay);
    var t := if target.Some? then target.value else CEILING;
    WholeSecondIs(t);
    WholeSecond(t)
  }

  /** A deadline at or before the last whole second is stored rounded up by less than a second;
      any later one is stored as that last second. */
  lemma StoredBounds(now: Stamp, delay: nat)
    requires Valid(now)
    ensures Backoff(now, Some(delay), 0) == Some(Iso(Stored(now, delay)))
    ensures var deadline := Micros(now) + delay;
            if deadline <= LAST_SECOND * SECOND then deadline <= Seconds(Stored(now, delay)) * SECOND < deadline + SECOND
            else Seconds(Stored(now, delay)) == LAST_SECOND
  {
    CeilingIsLast();
    var target := Plus(now, delay);
    WholeSecondIs(if target.Some? then target.value else CEILING);
  }

  lemma DueIsReached(stored: Stamp, now: Stamp)
    requires Valid(stored) && Valid(now)
    ensures Due(Some(Iso(stored)), now) <==> Micros(now) >= Seconds(stored) * SECOND
  {
    TextOrderIsTimeOrder(now, stored);
  }

  /** Never early, and due one second after the deadline at the latest. */
  lemma NeverEarly(now: Stamp, delay: nat, later: Stamp)
    requires Valid(now) && Valid(later)
    requires Micros(now) + delay <= LAST_SECOND * SECOND
    ensures Due(Backoff(now, Some(delay), 0), later) ==> Micros(later) >= Micros(now) + delay
    ensures Micros(later) >= Micros(now) + delay + SECOND ==> Due(Backoff(now, Some(delay), 0), later)
  {
    StoredBounds(now, delay);
    DueIsReached(Stored(now, delay), later);
  }

  /** Past the last whole second rounding up overflows: exactly these deadlines are stored early,
      and the row comes due before them. */
  lemma EarlyExactlyPastTheCeiling(now: Stamp, delay: nat)
    requires Valid(now)
    ensures Micros(now) + delay <= LAST_SECOND * SECOND <==>
            forall later :: Valid(later) && Due(Backoff(now, Some(delay), 0), later) ==> Micros(later) >= Micros(now) + delay
  {
    if Micros(now) + delay <= LAST_SECOND * SECOND {
      forall later | Valid(later) && Due(Backoff(now, Some(delay), 0), later)
        ensures Micros(later) >= Micros(now) + delay
      {
        NeverEarly(now, delay, later);
      }
    } else {
      CeilingIsLast();
      var last := CEILING.(micro := 0);
      assert Valid(last) && Micros(last) == LAST_SECOND * SECOND;
      StoredBounds(now, delay);
      DueIsReached(Stored(now, delay), last);
    }
  }

  /** A representable deadline that is stored half a second early. */
  lemma LastSecondExample()
    ensures var now := Stamp(9999, 12, 31, 23, 59, 58, 500_000);
            && Valid(now) && Plus(now, SECOND).Some?
            && Seconds(Stored(now, SECOND)) * SECOND < Micros(now) + SECOND
  {
    var now := Stamp(9999, 12, 31, 23, 59, 58, 500_000);
    CeilingIsLast();
    assert Micros(CEILING) - Micros(now) == SECOND + 499_999;
    StoredBounds(now, SECOND);
  }

  /** The ordinary backoff is never early either; where its addition raises, nothing is stored. */
  lemma OrdinaryNeverEarly(now: Stamp, delay: nat, later: Stamp)
    requires Valid(now) && Valid(later)
    requires Micros(now) + delay <= LAST_SECOND * SECOND
    ensures Backoff(now, None, delay).Some?
    ensures Due(Backoff(now, None, delay), later) ==> Micros(later) >= Micros(now) + delay
  {
    WholeSecondIs(Plus(now, delay).value);
    DueIsReached(WholeSecond(Plus(now, delay).value), later);
  }

  lemma {:induction false} PowerGrows(a: nat, b: nat)
    requires a <= b
    ensures 1 <= Power2(a) <= Power2(b)
    decreases b
  {
    if a < b { PowerGrows(a, b - 1); } else if a > 0 { PowerGrows(a - 1, a - 1); }
  }

  lemma Scale(base: nat, p: nat, q: nat)
    requires p <= q
    ensures base * p <= base * q
  {
  }

  /** The ordinary delay never exceeds the cap nor falls below the capped base, and never shrinks with more attempts. */
  lemma OrdinaryDelayGrows(a: int, b: int, base: nat, cap: nat, jitter: nat)
    requires a <= b
    ensures OrdinaryDelay(a, base, cap, jitter) <= OrdinaryDelay(b, base, cap, jitter) <= cap
    ensures OrdinaryDelay(a, base, cap, jitter) >= if base < cap then base else cap
  {
    var s := if a < 1 then 1 else if a > 10 then 10 else a;
    var t := if b < 1 then 1 else if b > 10 then 10 else b;
    PowerGrows(s - 1, t - 1);
    Scale(base, Power2(s - 1), Power2(t - 1));
    Scale(base, 1, Power2(s - 1));
  }

  /** The delay starts at the base, doubles with each of the first ten attempts while it stays below the cap, and then stays. */
  lemma OrdinaryDelayDoubles(a: int, base: nat, cap: nat, jitter: nat)
    ensures a <= 1 ==> OrdinaryDelay(a, base, cap, jitter) == if base + jitter < cap then base + jitter else cap
    ensures 1 <= a < 10 && OrdinaryDelay(a, base, cap, jitter) < cap ==>
              var next := 2 * (OrdinaryDelay(a, base, cap, jitter) - jitter) + jitter;
              OrdinaryDelay(a + 1, base, cap, jitter) == if next < cap then next else cap
    ensures a >= 10 ==> OrdinaryDelay(a, base, cap, jitter) == OrdinaryDelay(10, base, cap, jitter)
  {
    if 1 <= a < 10 {
      assert Power2(a) == 2 * Power2(a - 1);
      Doubled(base, Power2(a - 1));
    }
  }

  lemma Doubled(base: nat, p: nat)
    ensures base * (2 * p) == 2 * (base * p) >= base * p >= 0
  {
  }

  /** The ordinary deadline is stored within a second, and not at all when it lies past the last moment of the calendar; a
      negative Retry-After is no delay; a row without a deadline is due. */
  lemma BackoffCases(now: Stamp, delay: nat, negative: int, other: nat)
    requires Valid(now) && negative < 0
    ensures Backoff(now, None, delay) == None <==> Micros(now) + delay >= (LAST_SECOND + 1) * SECOND
    ensures Micros(now) + delay <= LAST_SECOND * SECOND ==>
              exists s :: Valid(s) && Backoff(now, None, delay) == Some(Iso(s))
                          && Micros(now) + delay <= Seconds(s) * SECOND < Micros(now) + delay + SECOND
    ensures Backoff(now, Some(negative), other) == Backoff(now, Some(0), other)
    ensures Due(None, now)
  {
    CeilingIsLast();
    var target := Plus(now, delay);
    if target.Some? {
      WholeSecondIs(target.value);
      var s := WholeSecond(target.value);
      assert Backoff(now, None, delay) == Some(Iso(s));
    }
  }
}
