module ServiceDays {
  /**
   On which days a service runs, read off the rows of the tables themselves, for both evaluators; and the calendar that
   the dates follow.
   */
  import opened Util
  import opened ServiceCalendar

  // ---- the calendar ----

  /** Thirty days have September, April, June and November, all the rest but February thirty-one. */
  lemma MonthLengths(year: nat)
    ensures forall m :: m in {1, 3, 5, 7, 8, 10, 12} ==> DaysIn(year, m) == 31
    ensures forall m :: m in {4, 6, 9, 11} ==> DaysIn(year, m) == 30
  {}

  /** February has 29 days in every fourth year of a century; the last of a century counts every fourth century. */
  lemma LeapYears(century: nat, year: nat)
    requires year < 100
    ensures DaysIn(100 * century + year, 2) ==
            if (if year == 0 then century % 4 == 0 else year % 4 == 0) then 29 else 28
  {
    Fourth(25 * century, year);
    Hundredth(century, year);
    if year == 0 {
      FourHundredth(century);
    }
  }

  lemma Fourth(a: nat, b: nat)
    ensures (4 * a + b) % 4 == b % 4
  {}

  lemma Hundredth(a: nat, b: nat)
    requires b < 100
    ensures (100 * a + b) % 100 == b
  {}

  lemma FourHundredth(a: nat)
    ensures 100 * a % 400 == 0 <==> a % 4 == 0
  {
    assert a == 4 * (a / 4) + a % 4;
    assert 100 * a == 400 * (a / 4) + 100 * (a % 4);
  }

  /** The day after a date. */
  function Next(d: Date): Date
    requires IsDate(d)
  {
    if d.day < DaysIn(d.year, d.month) then d.(day := d.day + 1)
    else if d.month < 12 then Date(d.year, d.month + 1, 1)
    else Date(d.year + 1, 1, 1)
  }

  /** Dates are in the order of the days: what is not after a date is not after the next, and nothing lies between. */
  lemma DatesFollow(a: Date, d: Date)
    requires IsDate(a) && IsDate(d) && d != Date(9999, 12, 31)
    ensures IsDate(Next(d)) && !DateLe(Next(d), d)
    ensures DateLe(a, Next(d)) <==> DateLe(a, d) || a == Next(d)
    ensures IsDate(Date(1, 1, 1)) && IsDate(Date(9999, 12, 31))
    ensures DateLe(Date(1, 1, 1), a) && DateLe(a, Date(9999, 12, 31))
  {}

  // ---- by date ----

  /** The last exception of the service that reads as the day. */
  predicate DecidesDate(rows: seq<ExceptionRow>, n: nat, i: int, id: Id, on: Date)
    requires n <= |rows|
  {
    && 0 <= i < n && rows[i].service == id && Parse(rows[i].date) == Some(on)
    && forall j :: i < j < n && rows[j].service == id ==> Parse(rows[j].date) != Some(on)
  }

  /** The last row of the service whose two dates can be read. */
  predicate LastReadable(rows: seq<CalendarRow>, n: nat, i: int, id: Id)
    requires n <= |rows|
  {
    && 0 <= i < n && rows[i].service == id && Readable(rows[i])
    && forall j :: i < j < n && rows[j].service == id ==> !Readable(rows[j])
  }

  lemma {:induction false} DateExceptionIs(rows: seq<ExceptionRow>, n: nat, id: Id, on: Date)
    requires n <= |rows|
    ensures var k := Get(ExceptionsByDate(rows, n), (id, on));
            && (k.Some? ==> exists i :: DecidesDate(rows, n, i, id, on) && rows[i].kind == k.value)
            && (k.None? ==> forall i :: 0 <= i < n && rows[i].service == id ==> Parse(rows[i].date) != Some(on))
  {
    hide Parse;
    if n > 0 {
      DateExceptionIs(rows, n - 1, id, on);
      var r := rows[n - 1];
      var k := Get(ExceptionsByDate(rows, n), (id, on));
      if r.service == id && Parse(r.date) == Some(on) {
        assert DecidesDate(rows, n, n - 1, id, on);
      } else if k.Some? {
        var i :| DecidesDate(rows, n - 1, i, id, on) && rows[i].kind == k.value;
        assert DecidesDate(rows, n, i, id, on);
      }
    }
  }

  lemma {:induction false} PeriodIs(rows: seq<CalendarRow>, n: nat, id: Id)
    requires n <= |rows|
    ensures var p := Get(CalendarByDate(rows, n), id);
            && (p.Some? ==>
                  exists i ::
                    && LastReadable(rows, n, i, id)
                    && p.value == Period(rows[i].days, Parse(rows[i].from).value, Parse(rows[i].until).value))
            && (p.None? ==> forall i :: 0 <= i < n && rows[i].service == id ==> !Readable(rows[i]))
  {
    hide Parse;
    if n > 0 {
      PeriodIs(rows, n - 1, id);
      var p := Get(CalendarByDate(rows, n), id);
      if rows[n - 1].service == id && Readable(rows[n - 1]) {
        assert LastReadable(rows, n, n - 1, id);
      } else if p.Some? {
        var i :| LastReadable(rows, n - 1, i, id) && p.value ==
                 Period(rows[i].days, Parse(rows[i].from).value, Parse(rows[i].until).value);
        assert LastReadable(rows, n, i, id);
      }
    }
  }

  /** The row has the service run on the weekday, from its first date to its last, both of them included. */
  predicate Covers(r: CalendarRow, on: Date, weekday: Weekday) {
    && Parse(r.from).Some? && Parse(r.until).Some? && weekday < |r.days| && r.days[weekday]
    && DateLe(Parse(r.from).value, on) && DateLe(on, Parse(r.until).value)
  }

  /**
   The API has a service run on a day exactly when the last exception for the day adds it, or none removes it and the
   last row of the service with readable dates covers the day.
   */
  lemma RunsByDate(t: Tables, id: Id, on: Date, weekday: Weekday)
    ensures DateActive(CalendarByDate(t.calendar, |t.calendar|), ExceptionsByDate(t.exceptions, |t.exceptions|),
                       id, on, weekday) <==>
            || (exists i :: DecidesDate(t.exceptions, |t.exceptions|, i, id, on) && t.exceptions[i].kind == 1)
            || ((forall i :: DecidesDate(t.exceptions, |t.exceptions|, i, id, on) ==> t.exceptions[i].kind != 2)
                && exists i :: LastReadable(t.calendar, |t.calendar|, i, id) && Covers(t.calendar[i], on, weekday))
  {
    hide Parse, DateLe;
    DateExceptionIs(t.exceptions, |t.exceptions|, id, on);
    PeriodIs(t.calendar, |t.calendar|, id);
  }

  // ---- by text ----

  predicate DecidesText(rows: seq<ExceptionRow>, n: nat, i: int, id: Id, ymd: string)
    requires n <= |rows|
  {
    && 0 <= i < n && rows[i].service == id && rows[i].date == ymd
    && forall j :: i < j < n && rows[j].service == id ==> rows[j].date != ymd
  }

  predicate LastRow(rows: seq<CalendarRow>, n: nat, i: int, id: Id)
    requires n <= |rows|
  {
    0 <= i < n && rows[i].service == id && forall j :: i < j < n ==> rows[j].service != id
  }

  lemma {:induction false} TextExceptionIs(rows: seq<ExceptionRow>, n: nat, id: Id, ymd: string)
    requires n <= |rows|
    ensures var k := Get(ExceptionsByText(rows, n), (id, ymd));
            && (k.Some? ==> exists i :: DecidesText(rows, n, i, id, ymd) && rows[i].kind == k.value)
            && (k.None? ==> forall i :: 0 <= i < n && rows[i].service == id ==> rows[i].date != ymd)
  {
    if n > 0 {
      TextExceptionIs(rows, n - 1, id, ymd);
      var r := rows[n - 1];
      var k := Get(ExceptionsByText(rows, n), (id, ymd));
      if r.service == id && r.date == ymd {
        assert DecidesText(rows, n, n - 1, id, ymd);
      } else if k.Some? {
        var i :| DecidesText(rows, n - 1, i, id, ymd) && rows[i].kind == k.value;
        assert DecidesText(rows, n, i, id, ymd);
      }
    }
  }

  lemma {:induction false} RowIs(rows: seq<CalendarRow>, n: nat, id: Id)
    requires n <= |rows|
    ensures var r := Get(CalendarByText(rows, n), id);
            && (r.Some? ==> exists i :: LastRow(rows, n, i, id) && r.value == rows[i])
            && (r.None? ==> forall i :: 0 <= i < n ==> rows[i].service != id)
  {
    if n > 0 {
      RowIs(rows, n - 1, id);
      var r := Get(CalendarByText(rows, n), id);
      if rows[n - 1].service == id {
        assert LastRow(rows, n, n - 1, id);
      } else if r.Some? {
        var i :| LastRow(rows, n - 1, i, id) && r.value == rows[i];
        assert LastRow(rows, n, i, id);
      }
    }
  }

  predicate CoversText(r: CalendarRow, ymd: string, weekday: Weekday) {
    && r.from != "" && r.until != "" && weekday < |r.days| && r.days[weekday]
    && TextLe(r.from, ymd) && TextLe(ymd, r.until)
  }

  /** The bundle does so by the texts of the rows as they are: the last exception with the text, the last row of all. */
  lemma RunsByText(t: Tables, id: Id, ymd: string, weekday: Weekday)
    ensures TextActive(ServiceOf(CalendarByText(t.calendar, |t.calendar|), id),
                       ExceptionsByText(t.exceptions, |t.exceptions|), ymd, weekday) <==>
            || (exists i :: DecidesText(t.exceptions, |t.exceptions|, i, id, ymd) && t.exceptions[i].kind == 1)
            || ((forall i :: DecidesText(t.exceptions, |t.exceptions|, i, id, ymd) ==> t.exceptions[i].kind != 2)
                && exists i :: LastRow(t.calendar, |t.calendar|, i, id) && CoversText(t.calendar[i], ymd, weekday))
  {
    hide TextLe;
    TextExceptionIs(t.exceptions, |t.exceptions|, id, ymd);
    RowIs(t.calendar, |t.calendar|, id);
  }

  /** A service without a calendar row has no days and no dates of its own. */
  lemma NoRowNoDays(t: Tables, id: Id)
    requires forall i :: 0 <= i < |t.calendar| ==> t.calendar[i].service != id
    ensures var s := ServiceOf(CalendarByText(t.calendar, |t.calendar|), id);
            && s.id == id && |s.days| == 7 && (forall w :: 0 <= w < 7 ==> !s.days[w]) && s.from.None? && s.until.None?
  {
    RowIs(t.calendar, |t.calendar|, id);
  }

  /** Texts are in the order of their first difference; a text is before every longer one that begins with it. */
  lemma TextsAreOrdered(a: string, b: string, i: nat)
    requires i <= |a| && i <= |b| && a[..i] == b[..i]
    ensures i < |a| && i < |b| && a[i] != b[i] ==> (TextLe(a, b) <==> a[i] < b[i])
    ensures i == |a| ==> TextLe(a, b)
    ensures i == |b| < |a| ==> !TextLe(a, b)
  {
    hide TextLe;
    if i < |a| && i < |b| && a[i] != b[i] {
      TextAt(a, b, i);
    }
    Beginning(a, b, i);
  }

  lemma {:induction false} Beginning(a: string, b: string, i: nat)
    requires i <= |a| && i <= |b| && a[..i] == b[..i]
    ensures i == |a| ==> TextLe(a, b)
    ensures i == |b| < |a| ==> !TextLe(a, b)
  {
    if i > 0 {
      assert a[..i][0] == b[..i][0] && a[1..][..i - 1] == a[..i][1..] && b[1..][..i - 1] == b[..i][1..];
      Beginning(a[1..], b[1..], i - 1);
    }
  }

  // ---- which texts are dates ----

  /** A day as a text: two digits, one that is not zero, or a blank before it. */
  predicate DayText(t: string, day: nat) {
    || (|t| == 2 && Digits(t, 2) && 10 * DigitValue(t[0]) + DigitValue(t[1]) == day && 1 <= day <= 31)
    || (|t| == 1 && Digits(t, 1) && DigitValue(t[0]) == day && day > 0)
    || (|t| == 2 && t[0] == ' ' && IsDigit(t[1]) && DigitValue(t[1]) == day && day > 0)
  }

  /** A month of two digits and a day. */
  predicate LongMonth(t: string, month: nat, day: nat) {
    && |t| >= 2 && Digits(t, 2) && 10 * DigitValue(t[0]) + DigitValue(t[1]) == month && 1 <= month <= 12
    && DayText(t[2..], day)
  }

  /** A month of one digit and a day. */
  predicate ShortMonth(t: string, month: nat, day: nat) {
    |t| >= 1 && Digits(t, 1) && DigitValue(t[0]) == month && month > 0 && DayText(t[1..], day)
  }

  /**
   A text is a date exactly when it is four digits of a year and a month and a day of that year and nothing else, where
   a text that can be read with a month of two digits is read with it.
   */
  lemma ParseExactly(s: string, d: Date)
    ensures Parse(s) == Some(d) <==>
            && Digits(s, 4) && ValueOf(s, 4) == d.year && IsDate(d)
            && (|| LongMonth(s[4..], d.month, d.day)
                || (ShortMonth(s[4..], d.month, d.day) && forall m, n :: !LongMonth(s[4..], m, n)))
  {
    hide ValueOf, IsDate, DayAt;
    if Digits(s, 4) {
      var t := s[4..];
      if |t| < 2 || |t| > 4 {
        TooShortOrLong(s);
      } else {
        MonthDayIs(s, d.month, d.day);
      }
    }
  }

  lemma TooShortOrLong(s: string)
    requires Digits(s, 4) && (|s| < 6 || |s| > 8)
    ensures MonthDayAt(s, 4).Some? ==> MonthDayAt(s, 4).value.2 < |s|
    ensures forall m, n :: !LongMonth(s[4..], m, n) && !ShortMonth(s[4..], m, n)
  {}

  /** A day read up to the end of a text is what its last characters say. */
  lemma DayIs(s: string, i: nat, day: nat)
    requires i <= |s|
    ensures DayText(s[i..], day) <==> DayAt(s, i) == Some((day, |s|))
    ensures DayAt(s, i).Some? ==> i < DayAt(s, i).value.1 <= |s|
    ensures DayText(s[i..], day) ==> i < |s| <= i + 2
  {}

  lemma MonthDayIs(s: string, month: nat, day: nat)
    requires Digits(s, 4) && 6 <= |s| <= 8
    ensures MonthDayAt(s, 4) == Some((month, day, |s|)) <==>
            || LongMonth(s[4..], month, day)
            || (ShortMonth(s[4..], month, day) && forall m, n :: !LongMonth(s[4..], m, n))
  {
    hide DayAt, DayText;
    var t := s[4..];
    assert t[2..] == s[6..] && t[1..] == s[5..];
    DayIs(s, 5, day);
    if LongMonth(t, month, day) {
      DayIs(s, 6, day);
    }
    if ShortMonth(t, month, day) && forall m, n :: !LongMonth(t, m, n) {
      LongPrefix(s);
    }
    if m, n :| LongMonth(t, m, n) {
      DayIs(s, 6, n);
    }
    if MonthDayAt(s, 4) == Some((month, day, |s|)) {
      DayIs(s, 6, day);
    }
  }

  lemma LongPrefix(s: string)
    requires Digits(s, 4) && 6 <= |s| <= 7
    ensures IsDigit(s[4]) && IsDigit(s[5]) && 1 <= 10 * DigitValue(s[4]) + DigitValue(s[5]) <= 12 && DayAt(s, 6).Some?
            ==> exists m, n :: LongMonth(s[4..], m, n)
  {
    hide DayAt, DayText;
    var t := s[4..];
    assert t[2..] == s[6..];
    if DayAt(s, 6).Some? && IsDigit(s[4]) && IsDigit(s[5]) {
      var n, m: nat := DayAt(s, 6).value.0, 10 * DigitValue(s[4]) + DigitValue(s[5]);
      DayIs(s, 6, n);
      if 1 <= m <= 12 {
        assert LongMonth(t, m, n);
      }
    }
  }

  /** So a day of one digit or a month of one is read too, and a text with something left over is no date. */
  lemma ShortDates(d: Date)
    requires IsDate(d)
    ensures d.day < 10 ==> Parse(Text(d)[..6] + Text(d)[7..]) == Some(d)
    ensures Parse(Text(d) + "0") == None && Parse("x" + Text(d)) == None && Parse("") == None
  {
    hide ValueOf, Padded, Text, IsDate, Parse;
    var s := Text(d);
    DigitsOf(d);
    var short := s[..6] + s[7..];
    ValueOfPrefix(s, short, 4);
    if d.day < 10 {
      assert short[4..][2..] == [s[7]] && short[4..][0] == s[4] && short[4..][1] == s[5];
      assert LongMonth(short[4..], d.month, d.day) by { MonthFits(d); }
      ParseExactly(short, d);
    }
    NoDate(s + "0");
    NoDate("x" + s);
    NoDate("");
  }

  lemma MonthFits(d: Date)
    requires IsDate(d)
    ensures 1 <= d.month <= 12 && 1 <= d.day <= 31
  {}

  lemma NoDate(s: string)
    requires !Digits(s, 4) || |s| > 8
    ensures Parse(s) == None
  {
    hide IsDate, ValueOf;
    if Digits(s, 4) {
      TooShortOrLong(s);
    }
  }

  lemma DigitsOf(d: Date)
    requires IsDate(d)
    ensures var s := Text(d);
            && EightDigits(s) && ValueOf(s, 4) == d.year
            && 10 * DigitValue(s[4]) + DigitValue(s[5]) == d.month && 10 * DigitValue(s[6]) + DigitValue(s[7]) == d.day
  {
    hide Padded, ValueOf, Pow10;
    NumberFits(d);
    PaddedValue(Number(d), 8);
    EightDigitsValue(Text(d));
    Split(d.year, d.month, d.day, ValueOf(Text(d), 4), 10 * DigitValue(Text(d)[4]) + DigitValue(Text(d)[5]),
          10 * DigitValue(Text(d)[6]) + DigitValue(Text(d)[7]));
  }
}
