module CurbDates {
  /**
   What the fields of a curb rule's time span mean for the days and minutes of a running calendar: days of the week
   counted from a Sunday, days and weeks counted from the first of a month, holidays and the rest, opening and
   closing dates, times of day, and how far ahead a change is announced.
   */
  import opened Util
  import opened CurbClock

  /** Weekdays follow one another from day to day. */
  ghost predicate WeeksRunOn(cal: Calendar) {
    forall n :: cal(n).weekday < 7 && cal(n + 1).weekday == (cal(n).weekday + 1) % 7
  }

  /** A day is the next of its month or the first of another one. */
  ghost predicate MonthsRunOn(cal: Calendar) {
    forall n :: cal(n).dayOfMonth >= 1 && cal(n + 1).dayOfMonth in {1, cal(n).dayOfMonth + 1}
  }

  function OnDays(ds: seq<int>): Span {
    ANY_TIME.(daysOfWeek := ds)
  }

  lemma OneSpan(cal: Calendar, s: Span, t: int)
    ensures Active(cal, [s], t) <==> SpanActive(cal, s, t)
  {
    assert [s][0] == s;
  }

  // ---- a span is the conjunction of its fields ----

  /**
   A span is in force exactly when the spans with one of its fields are: its dates, its days of the week, its days of
   the month, its weeks, its months, its designated period and its times of day.
   */
  lemma EveryFieldCounts(cal: Calendar, s: Span, t: int)
    ensures Active(cal, [s], t) <==>
            && Active(cal, [ANY_TIME.(startDate := s.startDate)], t)
            && Active(cal, [ANY_TIME.(endDate := s.endDate)], t)
            && Active(cal, [OnDays(s.daysOfWeek)], t)
            && Active(cal, [ANY_TIME.(daysOfMonth := s.daysOfMonth)], t)
            && Active(cal, [ANY_TIME.(weeksOfMonth := s.weeksOfMonth)], t)
            && Active(cal, [ANY_TIME.(months := s.months)], t)
            && Active(cal, [ANY_TIME.(period := s.period, periodExcept := s.periodExcept)], t)
            && Active(cal, [ANY_TIME.(timeStart := s.timeStart, timeEnd := s.timeEnd)], t)
  {
    OneSpan(cal, s, t);
    OneSpan(cal, ANY_TIME.(startDate := s.startDate), t);
    OneSpan(cal, ANY_TIME.(endDate := s.endDate), t);
    OneSpan(cal, OnDays(s.daysOfWeek), t);
    OneSpan(cal, ANY_TIME.(daysOfMonth := s.daysOfMonth), t);
    OneSpan(cal, ANY_TIME.(weeksOfMonth := s.weeksOfMonth), t);
    OneSpan(cal, ANY_TIME.(months := s.months), t);
    OneSpan(cal, ANY_TIME.(period := s.period, periodExcept := s.periodExcept), t);
    OneSpan(cal, ANY_TIME.(timeStart := s.timeStart, timeEnd := s.timeEnd), t);
  }

  // ---- days of the week ----

  /** Day `n` is one of the listed days of the week, counted from a Sunday. */
  predicate Lists(ds: seq<int>, sunday: int, n: int) {
    (n - sunday) % 7 in ds
  }

  lemma NextNumber(a: int, b: int)
    requires a % 7 == b % 7
    ensures (a + 1) % 7 == (b + 1) % 7
  {}

  lemma Successor(cal: Calendar, n: int)
    requires WeeksRunOn(cal)
    ensures cal(n + 1).weekday == (cal(n).weekday + 1) % 7
  {}

  lemma {:induction false} DaysAfterSunday(cal: Calendar, sunday: int, j: nat)
    requires WeeksRunOn(cal) && cal(sunday).weekday == 6
    ensures (cal(sunday + j).weekday + 1) % 7 == j % 7
  {
    if j > 0 {
      hide WeeksRunOn;
      DaysAfterSunday(cal, sunday, j - 1);
      Successor(cal, sunday + j - 1);
      NextNumber(cal(sunday + j - 1).weekday + 1, j - 1);
    }
  }

  lemma {:induction false} DaysBeforeSunday(cal: Calendar, sunday: int, j: int)
    requires 0 <= j && WeeksRunOn(cal) && cal(sunday).weekday == 6
    ensures (cal(sunday - j).weekday + 1) % 7 == (0 - j) % 7
  {
    if j > 0 {
      DaysBeforeSunday(cal, sunday, j - 1);
      Successor(cal, sunday - j);
      NextNumber(6 - j, (cal(sunday - j).weekday + 1) % 7 + 6);
    }
  }

  lemma DayNumber(cal: Calendar, sunday: int, n: int)
    requires WeeksRunOn(cal) && cal(sunday).weekday == 6
    ensures (cal(n).weekday + 1) % 7 == (n - sunday) % 7
  {
    if n >= sunday {
      DaysAfterSunday(cal, sunday, n - sunday);
    } else {
      DaysBeforeSunday(cal, sunday, sunday - n);
    }
  }

  /** The listed days of the week count from any Sunday of the calendar, before or after the instant. */
  lemma DaysFromSunday(cal: Calendar, ds: seq<int>, sunday: int, t: int)
    requires WeeksRunOn(cal) && cal(sunday).weekday == 6
    ensures Active(cal, [OnDays(ds)], t) <==> ds == [] || Lists(ds, sunday, DayAt(t))
  {
    OneSpan(cal, OnDays(ds), t);
    DayNumber(cal, sunday, DayAt(t));
  }

  lemma DayOf(n: int)
    ensures DayAt(n * DAY) == n && Midnight(n * DAY) == n * DAY
  {}

  lemma {:induction false} LastSunday(cal: Calendar, n: int) returns (sunday: int)
    requires WeeksRunOn(cal)
    ensures sunday <= n < sunday + 7 && cal(sunday).weekday == 6
    ensures n - sunday == if cal(n).weekday == 6 then 0 else cal(n).weekday + 1
    decreases if cal(n).weekday == 6 then 0 else cal(n).weekday + 1
  {
    if cal(n).weekday == 6 {
      sunday := n;
    } else {
      assert cal((n - 1) + 1).weekday == (cal(n - 1).weekday + 1) % 7;
      sunday := LastSunday(cal, n - 1);
    }
  }

  /**
   A rule for one day of the week is on for one day in seven, whichever day the seven begin with: for `[0]` that day
   is the Sunday, and the other days follow it.
   */
  lemma OneDayInSeven(cal: Calendar, k: int, n: int)
    requires WeeksRunOn(cal) && 0 <= k < 7
    ensures exists d :: n <= d < n + 7 && IsTheDay(cal, k, n, d)
    ensures Active(cal, [OnDays([0])], n * DAY) <==> cal(n).weekday == 6
    ensures Active(cal, [OnDays([k])], (n + k) * DAY) <==> Active(cal, [OnDays([0])], n * DAY)
  {
    hide Active;
    var sunday := LastSunday(cal, n);
    var d := TheDay(k, sunday, n);
    forall t ensures Active(cal, [OnDays([k])], t) <==> Lists([k], sunday, DayAt(t)) {
      DaysFromSunday(cal, [k], sunday, t);
    }
    assert IsTheDay(cal, k, n, d);
    DaysFromSunday(cal, [0], sunday, n * DAY);
    DayOf(n);
    DayOf(n + k);
    DayNumber(cal, sunday, n);
    assert Lists([k], sunday, n + k) <==> Lists([0], sunday, n) by { Shifted(n - sunday, k); }
  }

  /** Of the seven days from `n` on, the rule for `k` is on throughout `d` and on no other. */
  ghost predicate IsTheDay(cal: Calendar, k: int, n: int, d: int) {
    forall t :: n <= DayAt(t) < n + 7 ==> (Active(cal, [OnDays([k])], t) <==> DayAt(t) == d)
  }

  lemma TheDay(k: int, sunday: int, n: int) returns (d: int)
    requires 0 <= k < 7
    ensures n <= d < n + 7
    ensures forall e :: n <= e < n + 7 ==> (Lists([k], sunday, e) <==> e == d)
  {
    d := n + (k - (n - sunday)) % 7;
  }

  lemma Shifted(x: int, k: int)
    requires 0 <= k < 7
    ensures (x + k) % 7 == k <==> x % 7 == 0
  {}

  /** The first day after `n` that is listed where `n` is not, or the other way round. */
  ghost predicate FirstOther(ds: seq<int>, sunday: int, n: int, e: int) {
    && n < e && Lists(ds, sunday, e) != Lists(ds, sunday, n)
    && forall d :: n <= d < e ==> Lists(ds, sunday, d) == Lists(ds, sunday, n)
  }

  ghost predicate SameUpTo(ds: seq<int>, sunday: int, n: int, e: int) {
    forall d :: n <= d < e ==> Lists(ds, sunday, d) == Lists(ds, sunday, n)
  }

  lemma {:induction false} FindOther(ds: seq<int>, sunday: int, n: int, e: int) returns (first: Option<int>)
    requires n < e
    ensures first.Some? ==> FirstOther(ds, sunday, n, first.value) && first.value < e
    ensures first.None? ==> SameUpTo(ds, sunday, n, e)
    decreases e - n
  {
    if e == n + 1 {
      first := None;
    } else {
      first := FindOther(ds, sunday, n, e - 1);
      if first.None? && Lists(ds, sunday, e - 1) != Lists(ds, sunday, n) {
        first := Some(e - 1);
      }
    }
  }

  lemma DayCandidates(ds: seq<int>, when_: int, t: int)
    ensures Candidate([OnDays(ds)], when_, t) <==> exists d :: DayAt(when_) < d < DayAt(when_) + 8 && t == d * DAY
  {
    var spans := [OnDays(ds)];
    if Candidate(spans, when_, t) {
      var d, m :| 0 <= d < LOOK_AHEAD && IsEdge(spans, m) && t == EdgeAt(when_, d, m);
      assert m == 0 && t == (DayAt(when_) + d) * DAY;
    }
    if d :| DayAt(when_) < d < DayAt(when_) + 8 && t == d * DAY {
      assert IsEdge(spans, 0) && t == EdgeAt(when_, d - DayAt(when_), 0);
    }
  }

  /**
   The next change of a rule for days of the week is the midnight that begins the first day which is listed where
   today is not, or the other way round; there is none where the week has no such day.
   */
  lemma WeekChange(cal: Calendar, ds: seq<int>, sunday: int, when_: int, r: Option<int>)
    requires WeeksRunOn(cal) && cal(sunday).weekday == 6 && ds != []
    ensures IsNextChange(cal, [OnDays(ds)], when_, r) <==>
            if r.None? then SameUpTo(ds, sunday, DayAt(when_), DayAt(when_) + 7)
            else exists e :: FirstOther(ds, sunday, DayAt(when_), e) && r.value == e * DAY
  {
    hide Active, Candidate, Lists;
    var n := DayAt(when_);
    var spans := [OnDays(ds)];
    forall t ensures Active(cal, spans, t) <==> Lists(ds, sunday, DayAt(t)) { DaysFromSunday(cal, ds, sunday, t); }
    forall t ensures Candidate(spans, when_, t) <==> exists d :: n < d < n + 8 && t == d * DAY {
      DayCandidates(ds, when_, t);
    }
    forall d ensures DayAt(d * DAY) == d { DayOf(d); }
    SameNextWeek(ds, sunday, n);
    var first := FindOther(ds, sunday, n, n + 7);
    var answer := if first.Some? then Some(first.value * DAY) else None;
    assert IsNextChange(cal, spans, when_, answer);
    if IsNextChange(cal, spans, when_, r) { NextChangeIsUnique(cal, spans, when_, r, answer); }
    if first.Some? {
      forall e | FirstOther(ds, sunday, n, e) ensures e == first.value {}
      assert n <= first.value < n + 7;
    } else {
      forall e | FirstOther(ds, sunday, n, e) ensures false { NoOther(ds, sunday, n, e); }
    }
  }

  lemma SameNextWeek(ds: seq<int>, sunday: int, n: int)
    ensures Lists(ds, sunday, n + 7) == Lists(ds, sunday, n)
  {}

  lemma {:induction false} NoOther(ds: seq<int>, sunday: int, n: int, e: int)
    requires SameUpTo(ds, sunday, n, n + 7) && n <= e
    ensures Lists(ds, sunday, e) == Lists(ds, sunday, n)
    decreases e - n
  {
    if e >= n + 7 {
      SameNextWeek(ds, sunday, e - 7);
      NoOther(ds, sunday, n, e - 7);
    }
  }

  /** A rule for Monday to Friday asked on a Friday changes at Saturday's midnight, asked on that day at Monday's. */
  lemma WeekendComes(cal: Calendar, when_: int)
    requires WeeksRunOn(cal)
    ensures cal(DayAt(when_)).weekday == 4 ==>
              IsNextChange(cal, [OnDays([1, 2, 3, 4, 5])], when_, Some((DayAt(when_) + 1) * DAY))
    ensures cal(DayAt(when_)).weekday == 5 ==>
              IsNextChange(cal, [OnDays([1, 2, 3, 4, 5])], when_, Some((DayAt(when_) + 2) * DAY))
  {
    hide Active, IsNextChange;
    var ds := [1, 2, 3, 4, 5];
    var n := DayAt(when_);
    var sunday := LastSunday(cal, n);
    if cal(n).weekday == 4 {
      assert FirstOther(ds, sunday, n, n + 1);
      WeekChange(cal, ds, sunday, when_, Some((n + 1) * DAY));
    }
    if cal(n).weekday == 5 {
      assert FirstOther(ds, sunday, n, n + 2);
      WeekChange(cal, ds, sunday, when_, Some((n + 2) * DAY));
    }
  }

  // ---- days and weeks of the month ----

  lemma {:induction false} DayOfMonthAfter(cal: Calendar, first: int, n: int)
    requires MonthsRunOn(cal) && first <= n && cal(first).dayOfMonth == 1
    requires forall i :: first < i <= n ==> cal(i).dayOfMonth != 1
    ensures cal(n).dayOfMonth == n - first + 1
    decreases n - first
  {
    if n > first {
      DayOfMonthAfter(cal, first, n - 1);
      assert cal((n - 1) + 1).dayOfMonth in {1, cal(n - 1).dayOfMonth + 1};
    }
  }

  /**
   Days and weeks of the month count from its first day: day `k` is `k - 1` days after it, the first week is the seven
   days that begin with it, and the fifth is what is left of the month after four of them.
   */
  lemma WeeksFromFirst(cal: Calendar, ks: seq<int>, first: int, t: int)
    requires MonthsRunOn(cal) && first <= DayAt(t) && cal(first).dayOfMonth == 1 && ks != []
    requires forall i :: first < i <= DayAt(t) ==> cal(i).dayOfMonth != 1
    ensures Active(cal, [ANY_TIME.(daysOfMonth := ks)], t) <==> exists k :: k in ks && DayAt(t) == first + k - 1
    ensures Active(cal, [ANY_TIME.(weeksOfMonth := ks)], t) <==>
            exists k :: k in ks && first + 7 * k - 7 <= DayAt(t) < first + 7 * k
  {
    DayOfMonthAfter(cal, first, DayAt(t));
    OneSpan(cal, ANY_TIME.(daysOfMonth := ks), t);
    OneSpan(cal, ANY_TIME.(weeksOfMonth := ks), t);
    var w := (DayAt(t) - first) / 7 + 1;
    assert first + 7 * w - 7 <= DayAt(t) < first + 7 * w;
    forall k | first + 7 * k - 7 <= DayAt(t) < first + 7 * k ensures k == w {}
    assert DayAt(t) == first + (DayAt(t) - first + 1) - 1;
  }

  /** Listed months are the months of the year by number. */
  lemma MonthsAreListed(cal: Calendar, ms: seq<int>, t: int)
    ensures Active(cal, [ANY_TIME.(months := ms)], t) <==>
            ms == [] || exists i :: 0 <= i < |ms| && ms[i] == cal(DayAt(t)).month
  {
    OneSpan(cal, ANY_TIME.(months := ms), t);
  }

  /**
   A rule for holidays and its twin that excepts them split the days between them; a period nobody can tell is no
   restriction, excepted or not.
   */
  lemma HolidaysSplitTheDays(cal: Calendar, t: int)
    ensures Active(cal, [ANY_TIME.(period := Holidays)], t) <==> cal(DayAt(t)).holiday
    ensures Active(cal, [ANY_TIME.(period := Holidays, periodExcept := true)], t) <==> !cal(DayAt(t)).holiday
    ensures forall e :: Active(cal, [ANY_TIME.(period := UnknownPeriod, periodExcept := e)], t)
    ensures forall e :: Active(cal, [ANY_TIME.(periodExcept := e)], t)
  {
    OneSpan(cal, ANY_TIME.(period := Holidays), t);
    OneSpan(cal, ANY_TIME.(period := Holidays, periodExcept := true), t);
    forall e ensures Active(cal, [ANY_TIME.(period := UnknownPeriod, periodExcept := e)], t) {
      OneSpan(cal, ANY_TIME.(period := UnknownPeriod, periodExcept := e), t);
    }
    forall e ensures Active(cal, [ANY_TIME.(periodExcept := e)], t) {
      OneSpan(cal, ANY_TIME.(periodExcept := e), t);
    }
  }

  // ---- dates and times of day ----

  /** From the opening date on, and up to the closing one but not on it. */
  lemma OpenFromUntil(cal: Calendar, b: int, t: int)
    ensures Active(cal, [ANY_TIME.(startDate := Some(b))], t) <==> b <= t
    ensures Active(cal, [ANY_TIME.(endDate := Some(b))], t) <==> t < b
    ensures Active(cal, [ANY_TIME], t) && Active(cal, [], t)
  {
    OneSpan(cal, ANY_TIME.(startDate := Some(b)), t);
    OneSpan(cal, ANY_TIME.(endDate := Some(b)), t);
    OneSpan(cal, ANY_TIME, t);
  }

  /**
   A window is the instants of a day from its first minute up to its last, to the microsecond: an absent end is
   midnight, and a window that ends before it starts is on exactly when the one with its ends exchanged is off.
   */
  lemma WindowOfDay(cal: Calendar, lo: int, hi: int, t: int)
    requires 0 <= lo <= hi <= MINUTES_IN_A_DAY
    ensures Active(cal, [ANY_TIME.(timeStart := Some(lo), timeEnd := Some(hi))], t) <==>
            Midnight(t) + lo * 60_000_000 <= t < Midnight(t) + hi * 60_000_000
    ensures lo < hi ==>
              (Active(cal, [ANY_TIME.(timeStart := Some(hi), timeEnd := Some(lo))], t) <==>
               !Active(cal, [ANY_TIME.(timeStart := Some(lo), timeEnd := Some(hi))], t))
    ensures Active(cal, [ANY_TIME.(timeStart := Some(lo))], t) <==> Midnight(t) + lo * 60_000_000 <= t
    ensures Active(cal, [ANY_TIME.(timeEnd := Some(hi))], t) <==> t < Midnight(t) + hi * 60_000_000
  {
    OneSpan(cal, ANY_TIME.(timeStart := Some(lo), timeEnd := Some(hi)), t);
    OneSpan(cal, ANY_TIME.(timeStart := Some(hi), timeEnd := Some(lo)), t);
    OneSpan(cal, ANY_TIME.(timeStart := Some(lo)), t);
    OneSpan(cal, ANY_TIME.(timeEnd := Some(hi)), t);
    assert Midnight(t) <= t < Midnight(t) + 86_400_000_000;
  }

  /** Several spans are in force where one of them is. */
  lemma SpansAreAlternatives(cal: Calendar, a: seq<Span>, b: seq<Span>, t: int)
    requires a != [] && b != []
    ensures Active(cal, a + b, t) <==> Active(cal, a, t) || Active(cal, b, t)
  {
    if Active(cal, a, t) {
      var i :| 0 <= i < |a| && SpanActive(cal, a[i], t);
      assert (a + b)[i] == a[i];
    }
    if Active(cal, b, t) {
      var i :| 0 <= i < |b| && SpanActive(cal, b[i], t);
      assert (a + b)[|a| + i] == b[i];
    }
  }

  /** A rule that ends on a midnight is announced to end there on the seven days before it, and not earlier. */
  lemma EndIsAnnounced(cal: Calendar, when_: int, n: int)
    requires n >= 1
    ensures var end := Midnight(when_) + n * DAY;
            IsNextChange(cal, [ANY_TIME.(endDate := Some(end))], when_, if n <= 7 then Some(end) else None)
  {
    var end := Midnight(when_) + n * DAY;
    var spans := [ANY_TIME.(endDate := Some(end))];
    forall t ensures Active(cal, spans, t) <==> t < end { OpenFromUntil(cal, end, t); }
    forall t | Candidate(spans, when_, t) ensures t <= Midnight(when_) + 7 * DAY {
      var d, m :| 0 <= d < LOOK_AHEAD && IsEdge(spans, m) && t == EdgeAt(when_, d, m);
      assert m == 0;
    }
    if n <= 7 {
      assert IsEdge(spans, 0) && end == EdgeAt(when_, n, 0);
      assert Candidate(spans, when_, end);
    }
  }
}
