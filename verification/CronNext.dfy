/** When a cron expression matches, and the search for its next match (src/util/cron.h). */
module CronNext {
  import opened Text
  import opened Calendar
  import opened Cron

  /** The minutes of 366 days. */
  const WINDOW := 366 * 24 * 60

  /** A day is restricted by its date, its weekday, or, if neither field is a bare `*`, either. */
  predicate DayMatches(c: Expr, day: nat) {
    if c.domAll && c.dowAll then true
    else if c.domAll then WeekdayOf(day) in c.dow
    else if c.dowAll then MonthDayOf(day) in c.dom
    else MonthDayOf(day) in c.dom || WeekdayOf(day) in c.dow
  }

  predicate Matches(c: Expr, minute: nat) {
    var day := DayOf(minute);
    MinuteOf(minute) in c.minute && HourOf(minute) in c.hour && MonthOf(day) in c.month && DayMatches(c, day)
  }

  /** The same, said of the text: the five fields and the day-or-weekday rule. */
  predicate TextMatches(text: string, minute: nat)
    requires Accepted(text)
  {
    var f, day := Fields(text), DayOf(minute);
    && FieldHas(f[0], Kind.Minute, MinuteOf(minute)) && FieldHas(f[1], Kind.Hour, HourOf(minute))
    && FieldHas(f[3], Kind.Month, MonthOf(day))
    && var byDate := FieldHas(f[2], MonthDay, MonthDayOf(day));
       var byWeekday := FieldHas(f[4], Weekday, WeekdayOf(day)) || (WeekdayOf(day) == 0 && FieldHas(f[4], Weekday, 7));
       if f[2] == "*" then f[4] == "*" || byWeekday
       else if f[4] == "*" then byDate
       else byDate || byWeekday
  }

  lemma {:induction false} MatchesText(c: Expr, text: string, minute: nat)
    requires Accepted(text) && Denotes(c, text)
    ensures Matches(c, minute) <==> TextMatches(text, minute)
  {
    var f, day := Fields(text), DayOf(minute);
    assert MinuteOf(minute) in c.minute <==> FieldHas(f[0], Kind.Minute, MinuteOf(minute));
    assert HourOf(minute) in c.hour <==> FieldHas(f[1], Kind.Hour, HourOf(minute));
    assert MonthOf(day) in c.month <==> FieldHas(f[3], Kind.Month, MonthOf(day));
    assert MonthDayOf(day) in c.dom <==> FieldHas(f[2], MonthDay, MonthDayOf(day));
    assert WeekdayOf(day) in c.dow <==> WeekdayHas(f[4], WeekdayOf(day));
  }

  /** The least matching minute after the minute of `time`, within the window; times are in seconds. */
  method NextAfter(c: Expr, time: nat) returns (next: Option<nat>)
    ensures next.Some? ==>
              && time / 60 < next.value <= time / 60 + WINDOW && Matches(c, next.value)
              && forall m :: time / 60 < m < next.value ==> !Matches(c, m)
    ensures next.None? ==> forall m :: time / 60 < m <= time / 60 + WINDOW ==> !Matches(c, m)
  {
    var start := time / 60;
    var cursor := start + 1;
    var i := 0;
    while i < WINDOW
      invariant 0 <= i <= WINDOW && cursor == start + 1 + i
      invariant forall m :: start < m < cursor ==> !Matches(c, m)
    {
      if Matches(c, cursor) { return Some(cursor); }
      cursor := cursor + 1;
      i := i + 1;
    }
    next := None;
  }

  // ---------------------------------------------------------------- when there is a next match

  predicate HasValue(bits: set<nat>, low: nat, high: nat) {
    exists v :: v in bits && low <= v <= high
  }

  /** What every parsed expression satisfies. */
  predicate Proper(c: Expr) {
    && HasValue(c.minute, 0, 59) && HasValue(c.hour, 0, 23) && HasValue(c.dom, 1, 31) && HasValue(c.month, 1, 12)
    && HasValue(c.dow, 0, 6)
  }

  lemma {:induction false} FieldHasOne(field: string, kind: Kind) returns (v: nat)
    requires FieldOk(field, kind)
    ensures FieldHas(field, kind, v) && Low(kind) <= v <= High(kind)
  {
    hide ItemOk, ItemHas;
    assert ItemOk(Items(field, 0)[0], kind);
    v := ItemHasOne(Items(field, 0)[0], kind);
  }

  lemma {:induction false} ItemHasOne(item: string, kind: Kind) returns (v: nat)
    requires ItemOk(item, kind)
    ensures ItemHas(item, kind, v) && Low(kind) <= v <= High(kind)
  {
    hide ItemStep;
    v := ItemBounds(item, kind).value.0;
    BoundsWithin(item[..Find(item, '/', 0)], kind);
  }

  lemma {:induction false} BoundsWithin(range: string, kind: Kind)
    requires RangeBounds(range, kind).Some?
    ensures var b := RangeBounds(range, kind).value; Low(kind) <= b.0 <= b.1 && b.0 <= High(kind)
  {
    hide NameIndex, Find, ToUpper, DigitsValue;
  }

  lemma {:induction false} ParsedIsProper(c: Expr, text: string)
    requires Accepted(text) && Denotes(c, text)
    ensures Proper(c)
  {
    var f := Fields(text);
    var minute := FieldHasOne(f[0], Kind.Minute);
    var hour := FieldHasOne(f[1], Kind.Hour);
    var dom := FieldHasOne(f[2], MonthDay);
    var month := FieldHasOne(f[3], Kind.Month);
    var dow := FieldHasOne(f[4], Weekday);
    assert minute in c.minute && hour in c.hour && dom in c.dom && month in c.month;
    assert WeekdayHas(f[4], if dow == 7 then 0 else dow);
  }

  ghost predicate HasNext(c: Expr, t: nat) {
    exists m :: t < m <= t + WINDOW && Matches(c, m)
  }

  function At(day: nat, hour: nat, minute: nat): nat
    requires hour < 24 && minute < 60
  {
    day * 1440 + hour * 60 + minute
  }

  lemma {:induction false} AtParts(day: nat, hour: nat, minute: nat)
    requires hour < 24 && minute < 60
    ensures var m := At(day, hour, minute); DayOf(m) == day && HourOf(m) == hour && MinuteOf(m) == minute
  {
    var m, hours := At(day, hour, minute), day * 24 + hour;
    assert m == hours * 60 + minute;
    assert m / 60 == hours && m % 60 == minute;
    assert hours % 24 == hour;
  }

  lemma {:induction false} MatchAt(c: Expr, t: nat, day: nat, hour: nat, minute: nat)
    requires hour in c.hour && minute in c.minute && hour < 24 && minute < 60
    requires MonthOf(day) in c.month && DayMatches(c, day) && t < At(day, hour, minute) <= t + WINDOW
    ensures HasNext(c, t)
  {
    AtParts(day, hour, minute);
    assert Matches(c, At(day, hour, minute));
  }

  /** From any day of its year, the same date one year later is at most 366 days away. */
  lemma {:induction false} YearApart(y: nat, m: nat, d: nat)
    requires y >= 1970 && 1 <= m <= 12 && 1 <= d <= MonthDays(m, false)
    ensures DayNumber(y, m, d) < DayNumber(y + 1, m, d) <= DayNumber(y, m, d) + 366
    ensures YearStart(y) <= DayNumber(y, m, d) < YearStart(y + 1)
  {
    BeforeLeap(m);
    InYear(y, m, d);
    InYear(y + 1, m, d);
    assert YearStart(y + 1) == YearStart(y) + YearDays(y);
  }

  lemma {:induction false} BeforeLeap(m: nat)
    requires 1 <= m <= 13
    ensures DaysBefore(m, true) == DaysBefore(m, false) + if m > 2 then 1 else 0
  {
    if m > 1 { BeforeLeap(m - 1); }
  }

  lemma {:induction false} InYear(y: nat, m: nat, d: nat)
    requires y >= 1970 && 1 <= m <= 12 && 1 <= d <= MonthDays(m, Leap(y))
    ensures DaysBefore(m, Leap(y)) + d - 1 < YearDays(y)
  {
    WholeYear(Leap(y));
    MonthsGrow(m + 1, 13, Leap(y));
  }

  /** A date of every year comes again within the window. */
  lemma {:induction false} DateComes(t: nat, m: nat, d: nat, hour: nat, minute: nat) returns (day: nat)
    requires 1 <= m <= 12 && 1 <= d <= MonthDays(m, false) && hour < 24 && minute < 60
    ensures MonthOf(day) == m && MonthDayOf(day) == d && t < At(day, hour, minute) <= t + WINDOW
  {
    var today := DayOf(t);
    YearSplit(today);
    var y := YearOf(today);
    YearApart(y, m, d);
    DateReadBack(y, m, d);
    DateReadBack(y + 1, m, d);
    day := DayNumber(y, m, d);
    if At(day, hour, minute) <= t { day := DayNumber(y + 1, m, d); }
  }

  /** Among seven days in a row there is every weekday. */
  lemma {:induction false} WeekdayComes(from: nat, w: nat) returns (day: nat)
    requires w < 7
    ensures from <= day < from + 7 && WeekdayOf(day) == w
  {
    day := from;
    while WeekdayOf(day) != w
      invariant from <= day < from + 7
      invariant forall k :: from <= k < day ==> WeekdayOf(k) != w
      decreases from + 7 - day
    {
      if day == from + 6 { AllWeekdays(from, w); }
      day := day + 1;
    }
  }

  lemma {:induction false} AllWeekdays(from: nat, w: nat)
    requires w < 7
    ensures exists k :: from <= k < from + 7 && WeekdayOf(k) == w
  {
    var q, today := (from + 4) / 7, (from + 4) % 7;
    if w >= today {
      RemainderIs(from + (w - today) + 4, q, w);
      assert WeekdayOf(from + (w - today)) == w;
    } else {
      RemainderIs(from + (w + 7 - today) + 4, q + 1, w);
      assert WeekdayOf(from + (w + 7 - today)) == w;
    }
  }

  lemma {:induction false} RemainderIs(n: nat, q: nat, w: nat)
    requires n == 7 * q + w && w < 7
    ensures n % 7 == w
  {
  }

  /** Days in a row that lie in one month. */
  lemma {:induction false} WeekInMonth(y: nat, m: nat, d: nat, w: nat) returns (day: nat)
    requires y >= 1970 && 1 <= m <= 12 && 1 <= d && d + 6 <= MonthDays(m, Leap(y)) && w < 7
    ensures DayNumber(y, m, d) <= day < DayNumber(y, m, d) + 7 && MonthOf(day) == m && WeekdayOf(day) == w
  {
    day := WeekdayComes(DayNumber(y, m, d), w);
    DateReadBack(y, m, d + (day - DayNumber(y, m, d)));
  }

  /** Every weekday of a month comes again within the window. */
  lemma {:induction false} WeekdayOfMonthComes(t: nat, m: nat, w: nat, hour: nat, minute: nat) returns (day: nat)
    requires 1 <= m <= 12 && w < 7 && hour < 24 && minute < 60
    ensures MonthOf(day) == m && WeekdayOf(day) == w && t < At(day, hour, minute) <= t + WINDOW
  {
    var today := DayOf(t);
    YearSplit(today);
    var y := YearOf(today);
    YearApart(y, m, 1);
    var first := DayNumber(y, m, 1);
    var size := MonthDays(m, Leap(y));
    if today < first {
      day := WeekInMonth(y, m, 1, w);
      LateInYear(y, m, today);
    } else if today + 7 < first + size {
      day := WeekInMonth(y, m, today - first + 2, w);
    } else {
      day := WeekInMonth(y + 1, m, 1, w);
    }
  }

  lemma {:induction false} LateInYear(y: nat, m: nat, today: nat)
    requires y >= 1970 && 1 <= m <= 12 && YearStart(y) <= today
    ensures DayNumber(y, m, 1) + 7 <= today + 366
  {
    InYear(y, m, 28);
  }

  /** A search started at any time finds a match: the days are not restricted to dates alone, or
      one of those dates exists in every year. */
  predicate AlwaysComes(c: Expr) {
    c.domAll || !c.dowAll || YearlyDate(c)
  }

  predicate YearlyDate(c: Expr) {
    exists m, d :: m in c.month && d in c.dom && 1 <= m <= 12 && 1 <= d <= MonthDays(m, false)
  }

  lemma {:induction false} SomeComes(c: Expr, t: nat)
    requires Proper(c) && AlwaysComes(c)
    ensures HasNext(c, t)
  {
    var hour :| hour in c.hour && 0 <= hour <= 23;
    var minute :| minute in c.minute && 0 <= minute <= 59;
    var m :| m in c.month && 1 <= m <= 12;
    var day;
    if c.domAll && c.dowAll {
      day := DateComes(t, m, 1, hour, minute);
    } else if c.dowAll {
      var m', d :| m' in c.month && d in c.dom && 1 <= m' <= 12 && 1 <= d <= MonthDays(m', false);
      day := DateComes(t, m', d, hour, minute);
    } else {
      var w :| w in c.dow && 0 <= w <= 6;
      day := WeekdayOfMonthComes(t, m, w, hour, minute);
    }
    MatchAt(c, t, day, hour, minute);
  }

  lemma {:induction false} EarlyDay(day: nat)
    requires day < 730
    ensures !Leap(YearOf(day))
  {
    assert YearDays(1970) == 365 && YearDays(1971) == 365;
    if day >= 365 {
      assert YearOf(day) == YearFrom(day - 365, 1971);
      assert YearFrom(day - 365, 1971) == 1971;
    }
  }

  lemma {:induction false} RareDay(c: Expr, day: nat)
    requires !AlwaysComes(c) && day < 730
    ensures !(MonthOf(day) in c.month && DayMatches(c, day))
  {
    EarlyDay(day);
    DateSplit(day);
  }

  lemma {:induction false} NoneIn1970(c: Expr)
    requires !AlwaysComes(c)
    ensures !HasNext(c, 0)
  {
    forall k | 0 < k <= WINDOW ensures !Matches(c, k) { RareDay(c, DayOf(k)); }
  }

  /** For every proper expression: the search succeeds from every time exactly if the days are not
      restricted to dates that are missing from some years. */
  lemma {:induction false} NeverZeroIff(c: Expr)
    requires Proper(c)
    ensures (forall t: nat :: HasNext(c, t)) <==> AlwaysComes(c)
  {
    if AlwaysComes(c) {
      forall t: nat ensures HasNext(c, t) { SomeComes(c, t); }
    } else {
      NoneIn1970(c);
    }
  }

  /** A minute of the day at which the expression matches. */
  predicate IsTime(c: Expr, k: nat) {
    k < 1440 && k / 60 in c.hour && k % 60 in c.minute
  }

  predicate LeapDay(c: Expr) {
    2 in c.month && 29 in c.dom
  }

  /** The last time of the leap day of year `y` is after `t`, and the first one is within the window. */
  predicate LeapDayNear(t: nat, y: nat, first: nat, last: nat) {
    y >= 1970 && Leap(y) && t < DayNumber(y, 2, 29) * 1440 + last && DayNumber(y, 2, 29) * 1440 + first <= t + WINDOW
  }

  lemma {:induction false} OnlyLeapDay(c: Expr, day: nat)
    requires !AlwaysComes(c) && MonthOf(day) in c.month && DayMatches(c, day)
    ensures LeapDay(c) && Leap(YearOf(day)) && YearOf(day) >= 1970 && day == DayNumber(YearOf(day), 2, 29)
  {
    DateSplit(day);
  }

  lemma {:induction false} TimeOf(c: Expr, m: nat)
    requires MinuteOf(m) in c.minute && HourOf(m) in c.hour
    ensures IsTime(c, m - DayOf(m) * 1440)
  {
    var h := m / 60;
    assert m / 1440 == h / 24;
    assert m - m / 1440 * 1440 == h % 24 * 60 + m % 60;
    assert (h % 24 * 60 + m % 60) / 60 == h % 24 && (h % 24 * 60 + m % 60) % 60 == m % 60;
  }

  lemma {:induction false} TimeMatches(c: Expr, t: nat, y: nat, k: nat)
    requires !AlwaysComes(c) && LeapDay(c) && y >= 1970 && Leap(y) && IsTime(c, k)
    requires t < DayNumber(y, 2, 29) * 1440 + k <= t + WINDOW
    ensures HasNext(c, t)
  {
    var day := DayNumber(y, 2, 29);
    DateReadBack(y, 2, 29);
    assert k / 60 * 60 + k % 60 == k;
    MatchAt(c, t, day, k / 60, k % 60);
  }

  /** Where the condition of `NeverZeroIff` fails, the search succeeds from exactly those times that
      have a leap day near, if 29 February is one of the dates at all. `first` and `last` are the
      first and the last time of a day at which the expression matches. */
  lemma {:induction false} RareMatchIff(c: Expr, t: nat, first: nat, last: nat)
    requires !AlwaysComes(c) && IsTime(c, first) && IsTime(c, last)
    requires forall k: nat :: IsTime(c, k) ==> first <= k <= last
    ensures HasNext(c, t) <==> LeapDay(c) && exists y: nat :: LeapDayNear(t, y, first, last)
  {
    if HasNext(c, t) {
      var m :| t < m <= t + WINDOW && Matches(c, m);
      OnlyLeapDay(c, DayOf(m));
      TimeOf(c, m);
      assert LeapDayNear(t, YearOf(DayOf(m)), first, last);
    }
    if LeapDay(c) && exists y: nat :: LeapDayNear(t, y, first, last) {
      var y: nat :| LeapDayNear(t, y, first, last);
      TimeMatches(c, t, y, if t < DayNumber(y, 2, 29) * 1440 + first then first else last);
    }
  }

  /** The window is exactly long enough: from midnight of 1 March 1971 the next midnight of a
      1 March is its very last minute. */
  lemma {:induction false} WindowIsTight(c: Expr, first: nat)
    requires c.minute == {0} && c.hour == {0} && c.dom == {1} && c.month == {3} && !c.domAll && c.dowAll
    requires first == DayNumber(1971, 3, 1)
    ensures var t := At(first, 0, 0);
            Matches(c, t) && Matches(c, t + WINDOW) && forall m :: t < m < t + WINDOW ==> !Matches(c, m)
  {
    hide Matches, DayNumber;
    var t := At(first, 0, 0);
    MarchMatches(c, 1971, first);
    FirstOfMarch();
    MarchMatches(c, 1972, first + 366);
    assert At(first + 366, 0, 0) == t + WINDOW;
    forall m | t < m < t + WINDOW ensures !Matches(c, m) { NotBetween(c, m, first); }
  }

  lemma {:induction false} NotBetween(c: Expr, m: nat, first: nat)
    requires c.minute == {0} && c.hour == {0} && c.dom == {1} && c.month == {3} && !c.domAll && c.dowAll
    requires first == DayNumber(1971, 3, 1) && At(first, 0, 0) < m < At(first, 0, 0) + WINDOW
    ensures !Matches(c, m)
  {
    hide DayNumber;
    OnlyMidnight(m, first);
  }

  lemma {:induction false} MarchMatches(c: Expr, y: nat, day: nat)
    requires c.minute == {0} && c.hour == {0} && c.dom == {1} && c.month == {3} && !c.domAll && c.dowAll
    requires y >= 1970 && day == DayNumber(y, 3, 1)
    ensures Matches(c, At(day, 0, 0))
  {
    DateReadBack(y, 3, 1);
    AtParts(day, 0, 0);
  }

  lemma {:induction false} FirstOfMarch()
    ensures DayNumber(1971, 3, 1) == 365 + 59 && DayNumber(1972, 3, 1) == DayNumber(1971, 3, 1) + 366
  {
    assert DaysBefore(2, false) == 31 && DaysBefore(3, false) == 59 && DaysBefore(2, true) == 31 && DaysBefore(3, true) == 60;
    assert YearStart(1971) == 365 && YearStart(1972) == 730;
  }

  lemma {:induction false} OnlyMidnight(m: nat, first: nat)
    requires first == DayNumber(1971, 3, 1) && At(first, 0, 0) < m < At(first, 0, 0) + WINDOW
    ensures !(MinuteOf(m) == 0 && HourOf(m) == 0 && MonthOf(DayOf(m)) == 3 && MonthDayOf(DayOf(m)) == 1)
  {
    var day := DayOf(m);
    DateSplit(day);
    OtherMarches(YearOf(day), first);
  }

  lemma {:induction false} OtherMarches(y: nat, first: nat)
    requires y >= 1970 && first == DayNumber(1971, 3, 1)
    ensures y < 1971 ==> DayNumber(y, 3, 1) < first
    ensures y > 1971 ==> DayNumber(y, 3, 1) >= first + 366
  {
    if y > 1971 {
      FirstOfMarch();
      MarchesGrow(1972, y);
    } else if y < 1971 {
      YearApart(1970, 3, 1);
    }
  }

  lemma {:induction false} MarchesGrow(y0: nat, y: nat)
    requires 1970 <= y0 <= y
    ensures DayNumber(y0, 3, 1) <= DayNumber(y, 3, 1)
  {
    if y0 < y {
      MarchesGrow(y0, y - 1);
      YearApart(y - 1, 3, 1);
    }
  }
}
