module ServiceCalendar {
  /**
   Which services run on a date, decided twice: by the API on typed dates, with a set that dates add
   to and discard from, and by the offline bundle on YYYYMMDD text, with exceptions looked up first.
   */
  import opened Util

  datatype Date = Date(year: nat, month: nat, day: nat)

  function DaysIn(year: nat, month: nat): nat {
    if month == 2 then (if year % 4 == 0 && (year % 100 != 0 || year % 400 == 0) then 29 else 28)
    else if month in {4, 6, 9, 11} then 30 else 31
  }

  predicate IsDate(d: Date) {
    1 <= d.year <= 9999 && 1 <= d.month <= 12 && 1 <= d.day <= DaysIn(d.year, d.month)
  }

  predicate DateLe(a: Date, b: Date) {
    a.year < b.year || (a.year == b.year && (a.month < b.month || (a.month == b.month && a.day <= b.day)))
  }

  // ---- dates as text ----

  function Digit(n: nat): char
    requires n < 10
  {
    (48 + n) as char
  }

  function Padded(n: nat, width: nat): (s: string)
    ensures |s| == width
  {
    if width == 0 then "" else Padded(n / 10, width - 1) + [Digit(n % 10)]
  }

  function Number(d: Date): nat {
    d.year * 10000 + d.month * 100 + d.day
  }

  /** `strftime("%Y%m%d")`, which writes eight digits for the years from 1000 on. */
  function Text(d: Date): string {
    Padded(Number(d), 8)
  }

  predicate IsDigit(c: char) {
    '0' <= c <= '9'
  }

  function DigitValue(c: char): nat
    requires IsDigit(c)
  {
    c as int - 48
  }

  predicate Digits(s: string, n: nat) {
    n <= |s| && forall i :: 0 <= i < n ==> IsDigit(s[i])
  }

  function ValueOf(s: string, n: nat): nat
    requires Digits(s, n)
  {
    if n == 0 then 0 else 10 * ValueOf(s, n - 1) + DigitValue(s[n - 1])
  }

  // ---- the date reader ----

  /** A day number at `i` and where it ends: two digits if they can be a day, else one, else a blank and one. */
  function DayAt(s: string, i: nat): Option<(nat, nat)> {
    if i + 1 < |s| && IsDigit(s[i]) && IsDigit(s[i + 1]) && 1 <= 10 * DigitValue(s[i]) + DigitValue(s[i + 1]) <= 31
    then Some((10 * DigitValue(s[i]) + DigitValue(s[i + 1]), i + 2))
    else if i < |s| && '1' <= s[i] <= '9' then Some((DigitValue(s[i]), i + 1))
    else if i + 1 < |s| && s[i] == ' ' && '1' <= s[i + 1] <= '9' then Some((DigitValue(s[i + 1]), i + 2))
    else None
  }

  /** A month at `i` and a day after it; a two-digit month is given up for a one-digit one if no day follows it. */
  function MonthDayAt(s: string, i: nat): Option<(nat, nat, nat)> {
    if i + 1 < |s| && IsDigit(s[i]) && IsDigit(s[i + 1]) && 1 <= 10 * DigitValue(s[i]) + DigitValue(s[i + 1]) <= 12
       && DayAt(s, i + 2).Some?
    then
      var (day, end) := DayAt(s, i + 2).value;
      Some((10 * DigitValue(s[i]) + DigitValue(s[i + 1]), day, end))
    else if i < |s| && '1' <= s[i] <= '9' && DayAt(s, i + 1).Some? then
      var (day, end) := DayAt(s, i + 1).value;
      Some((DigitValue(s[i]), day, end))
    else None
  }

  /**
   `strptime(s, "%Y%m%d")`, with `None` for the text it refuses: four digits of a year, then a month and a day of two
   digits or one, with nothing left over. (Both evaluators strip their texts first.)
   */
  function Parse(s: string): (d: Option<Date>)
    ensures d.Some? ==> IsDate(d.value)
  {
    if !Digits(s, 4) || MonthDayAt(s, 4).None? then None
    else
      var (month, day, end) := MonthDayAt(s, 4).value;
      var d := Date(ValueOf(s, 4), month, day);
      if end == |s| && IsDate(d) then Some(d) else None
  }

  /** The form `strftime` writes, the one that the format of the feed asks for. */
  predicate EightDigits(s: string) {
    |s| == 8 && Digits(s, 8)
  }

  /** The order of strings. */
  predicate TextLe(a: string, b: string) {
    if a == "" then true
    else if b == "" then false
    else a[0] < b[0] || (a[0] == b[0] && TextLe(a[1..], b[1..]))
  }

  lemma {:induction false} LastDecides(a: string, b: string, c: char, d: char)
    requires |a| == |b|
    ensures TextLe(a + [c], b + [d]) <==> (a == b && c <= d) || (a != b && TextLe(a, b))
  {
    if a != "" {
      assert (a + [c])[1..] == a[1..] + [c] && (b + [d])[1..] == b[1..] + [d];
      LastDecides(a[1..], b[1..], c, d);
      assert a == [a[0]] + a[1..] && b == [b[0]] + b[1..];
    } else {
      assert ([c])[1..] == "" && ([d])[1..] == "";
    }
  }

  function Pow10(n: nat): nat {
    if n == 0 then 1 else 10 * Pow10(n - 1)
  }

  /** Zero-padded numbers compare as text the way they compare as numbers. */
  lemma {:induction false} PaddedOrder(a: nat, b: nat, width: nat)
    requires a < Pow10(width) && b < Pow10(width)
    ensures Padded(a, width) == Padded(b, width) <==> a == b
    ensures TextLe(Padded(a, width), Padded(b, width)) <==> a <= b
  {
    if width > 0 {
      PaddedOrder(a / 10, b / 10, width - 1);
      var x, y := Padded(a / 10, width - 1), Padded(b / 10, width - 1);
      LastDecides(x, y, Digit(a % 10), Digit(b % 10));
      if x + [Digit(a % 10)] == y + [Digit(b % 10)] {
        assert x == (x + [Digit(a % 10)])[..|x|] && y == (y + [Digit(b % 10)])[..|y|];
        assert Digit(a % 10) == (x + [Digit(a % 10)])[|x|];
      }
    }
  }

  lemma {:induction false} PaddedValue(n: nat, width: nat)
    requires n < Pow10(width)
    ensures Digits(Padded(n, width), width) && ValueOf(Padded(n, width), width) == n
  {
    if width > 0 {
      PaddedValue(n / 10, width - 1);
      ValueOfPrefix(Padded(n / 10, width - 1), Padded(n, width), width - 1);
    }
  }

  lemma {:induction false} ValueOfPrefix(a: string, b: string, n: nat)
    requires Digits(a, n) && n <= |b| && forall i :: 0 <= i < n ==> a[i] == b[i]
    ensures Digits(b, n) && ValueOf(a, n) == ValueOf(b, n)
  {
    if n > 0 {
      ValueOfPrefix(a, b, n - 1);
    }
  }

  lemma {:induction false} ValuePadded(s: string, n: nat)
    requires Digits(s, n)
    ensures ValueOf(s, n) < Pow10(n) && Padded(ValueOf(s, n), n) == s[..n]
  {
    if n > 0 {
      ValuePadded(s, n - 1);
      assert s[..n] == s[..n - 1] + [s[n - 1]];
    }
  }

  /** Eight digits are a year, a month and a day. */
  lemma EightDigitsValue(s: string)
    requires EightDigits(s)
    ensures ValueOf(s, 8) == ValueOf(s, 4) * 10000 + (10 * DigitValue(s[4]) + DigitValue(s[5])) * 100
                             + 10 * DigitValue(s[6]) + DigitValue(s[7])
  {
    assert ValueOf(s, 6) == 100 * ValueOf(s, 4) + 10 * DigitValue(s[4]) + DigitValue(s[5]);
    assert ValueOf(s, 8) == 100 * ValueOf(s, 6) + 10 * DigitValue(s[6]) + DigitValue(s[7]);
  }

  lemma TenToTheEighth()
    ensures Pow10(8) == 100000000
  {
    assert Pow10(4) == 10000;
  }

  lemma NumberFits(d: Date)
    requires IsDate(d)
    ensures Number(d) < Pow10(8)
  {
    TenToTheEighth();
  }

  lemma Split(y: nat, m: nat, d: nat, y': nat, m': nat, d': nat)
    requires y * 10000 + m * 100 + d == y' * 10000 + m' * 100 + d'
    requires m < 100 && d < 100 && m' < 100 && d' < 100
    ensures y == y' && m == m' && d == d'
  {
    assert d == (y * 10000 + m * 100 + d) % 100;
    assert d' == (y' * 10000 + m' * 100 + d') % 100;
    assert m == (y * 100 + m) % 100;
    assert m' == (y' * 100 + m') % 100;
  }

  /** Dates are read back as they were written. */
  lemma ParseText(d: Date)
    requires IsDate(d)
    ensures EightDigits(Text(d)) && Parse(Text(d)) == Some(d)
  {
    hide Padded, ValueOf, Pow10;
    var s := Text(d);
    NumberFits(d);
    PaddedValue(Number(d), 8);
    EightDigitsValue(s);
    Split(d.year, d.month, d.day, ValueOf(s, 4), 10 * DigitValue(s[4]) + DigitValue(s[5]),
          10 * DigitValue(s[6]) + DigitValue(s[7]));
  }

  /** What can be read from eight digits is written back as it was. */
  lemma TextParse(s: string)
    requires EightDigits(s) && Parse(s).Some?
    ensures Text(Parse(s).value) == s
  {
    hide ValueOf, Padded, IsDate, Pow10;
    ValuePadded(s, 8);
    EightDigitsValue(s);
    assert s[..8] == s;
  }

  /** The text of dates is ordered like the dates. */
  lemma TextOrder(a: Date, b: Date)
    requires IsDate(a) && IsDate(b)
    ensures TextLe(Text(a), Text(b)) <==> DateLe(a, b)
    ensures Text(a) == Text(b) <==> a == b
  {
    NumberFits(a);
    NumberFits(b);
    PaddedOrder(Number(a), Number(b), 8);
  }

  // ---- the tables ----

  datatype CalendarRow = CalendarRow(service: Id, days: seq<bool>, from: string, until: string)

  datatype ExceptionRow = ExceptionRow(service: Id, date: string, kind: int)

  datatype Tables = Tables(calendar: seq<CalendarRow>, exceptions: seq<ExceptionRow>)

  type Weekday = w: nat | w < 7

  type WeekdayOf = Date -> Weekday

  // ---- the offline bundle: text ----

  datatype Service = Service(id: Id, days: seq<bool>, from: Option<string>, until: Option<string>)

  function CalendarByText(rows: seq<CalendarRow>, n: nat): map<Id, CalendarRow>
    requires n <= |rows|
  {
    if n == 0 then map[] else CalendarByText(rows, n - 1)[rows[n - 1].service := rows[n - 1]]
  }

  function ServiceOf(cal: map<Id, CalendarRow>, id: Id): Service {
    if id in cal then Service(id, cal[id].days, Some(cal[id].from), Some(cal[id].until))
    else Service(id, [false, false, false, false, false, false, false], None, None)
  }

  function ExceptionsByText(rows: seq<ExceptionRow>, n: nat): map<(Id, string), int>
    requires n <= |rows|
  {
    if n == 0 then map[] else ExceptionsByText(rows, n - 1)[(rows[n - 1].service, rows[n - 1].date) := rows[n - 1].kind]
  }

  predicate Present(s: Option<string>) {
    s.Some? && s.value != ""
  }

  predicate TextActive(s: Service, exc: map<(Id, string), int>, ymd: string, weekday: Weekday) {
    var kind := Get(exc, (s.id, ymd));
    kind == Some(1) ||
    (kind != Some(2) && Present(s.from) && Present(s.until) && TextLe(s.from.value, ymd) && TextLe(ymd, s.until.value)
     && weekday < |s.days| && s.days[weekday])
  }

  method BundleServices(t: Tables, referenced: seq<Id>) returns (services: seq<Service>, exc: map<(Id, string), int>)
    ensures var cal := CalendarByText(t.calendar, |t.calendar|);
            |services| == |referenced| && forall i :: 0 <= i < |services| ==>
              services[i] == ServiceOf(cal, referenced[i])
    ensures forall k :: k in exc <==> k in ExceptionsByText(t.exceptions, |t.exceptions|) && k.0 in referenced
    ensures forall k :: k in exc ==> exc[k] == ExceptionsByText(t.exceptions, |t.exceptions|)[k]
  {
    var cal: map<Id, CalendarRow> := map[];
    for i := 0 to |t.calendar|
      invariant cal == CalendarByText(t.calendar, i)
    {
      cal := cal[t.calendar[i].service := t.calendar[i]];
    }
    services := [];
    for i := 0 to |referenced|
      invariant |services| == i && forall j :: 0 <= j < i ==> services[j] == ServiceOf(cal, referenced[j])
    {
      services := services + [ServiceOf(cal, referenced[i])];
    }
    exc := map[];
    for i := 0 to |t.exceptions|
      invariant forall k :: k in exc <==> k in ExceptionsByText(t.exceptions, i) && k.0 in referenced
      invariant forall k :: k in exc ==> exc[k] == ExceptionsByText(t.exceptions, i)[k]
    {
      var e := t.exceptions[i];
      if e.service in referenced {
        exc := exc[(e.service, e.date) := e.kind];
      }
    }
  }

  method ActiveByText(services: seq<Service>, exc: map<(Id, string), int>, on: Date, weekdayOf: WeekdayOf)
    returns (out: set<Id>)
    ensures forall id :: id in out <==>
              exists i :: && 0 <= i < |services| && services[i].id == id
                          && TextActive(services[i], exc, Text(on), weekdayOf(on))
  {
    var ymd := Text(on);
    out := {};
    for i := 0 to |services|
      invariant forall id :: id in out <==>
                exists j :: 0 <= j < i && services[j].id == id && TextActive(services[j], exc, ymd, weekdayOf(on))
    {
      var s := services[i];
      var kind := Get(exc, (s.id, ymd));
      if kind == Some(2) {
        continue;
      }
      if kind == Some(1) {
        out := out + {s.id};
        continue;
      }
      if Present(s.from) && Present(s.until) && TextLe(s.from.value, ymd) && TextLe(ymd, s.until.value)
         && weekdayOf(on) < |s.days| && s.days[weekdayOf(on)]
      {
        out := out + {s.id};
      }
    }
  }

  // ---- the API: dates ----

  datatype Period = Period(days: seq<bool>, start: Date, end: Date)

  /** Rows whose dates cannot be read never reach the index. */
  function CalendarByDate(rows: seq<CalendarRow>, n: nat): map<Id, Period>
    requires n <= |rows|
  {
    if n == 0 then map[]
    else
      var m, r := CalendarByDate(rows, n - 1), rows[n - 1];
      var start, end := Parse(r.from), Parse(r.until);
      if start.Some? && end.Some? then m[r.service := Period(r.days, start.value, end.value)] else m
  }

  function ExceptionsByDate(rows: seq<ExceptionRow>, n: nat): map<(Id, Date), int>
    requires n <= |rows|
  {
    if n == 0 then map[]
    else
      var m, r := ExceptionsByDate(rows, n - 1), rows[n - 1];
      var d := Parse(r.date);
      if d.Some? then m[(r.service, d.value) := r.kind] else m
  }

  predicate Scheduled(p: Period, on: Date, weekday: Weekday) {
    DateLe(p.start, on) && DateLe(on, p.end) && weekday < |p.days| && p.days[weekday]
  }

  predicate DateActive(cal: map<Id, Period>, exc: map<(Id, Date), int>, id: Id, on: Date, weekday: Weekday) {
    var kind := Get(exc, (id, on));
    kind == Some(1) || (kind != Some(2) && id in cal && Scheduled(cal[id], on, weekday))
  }

  class ServiceIndex {
    var calendar: map<Id, Period>
    var exceptions: map<(Id, Date), int>

    constructor (t: Tables)
      ensures calendar == CalendarByDate(t.calendar, |t.calendar|)
      ensures exceptions == ExceptionsByDate(t.exceptions, |t.exceptions|)
    {
      calendar, exceptions := map[], map[];
      new;
      for i := 0 to |t.calendar|
        invariant calendar == CalendarByDate(t.calendar, i) && exceptions == map[]
      {
        var r := t.calendar[i];
        var start, end := Parse(r.from), Parse(r.until);
        if start.Some? && end.Some? {
          calendar := calendar[r.service := Period(r.days, start.value, end.value)];
        }
      }
      for i := 0 to |t.exceptions|
        invariant calendar == CalendarByDate(t.calendar, |t.calendar|)
        invariant exceptions == ExceptionsByDate(t.exceptions, i)
      {
        var d := Parse(t.exceptions[i].date);
        if d.Some? {
          exceptions := exceptions[(t.exceptions[i].service, d.value) := t.exceptions[i].kind];
        }
      }
    }

    /** In whatever order the dictionaries are walked. */
    method ActiveServices(on: Date, weekdayOf: WeekdayOf) returns (out: set<Id>)
      ensures forall id :: id in out <==> DateActive(calendar, exceptions, id, on, weekdayOf(on))
    {
      out := {};
      var todo := calendar.Keys;
      while todo != {}
        invariant todo <= calendar.Keys
        invariant forall id :: id in out <==> id in calendar.Keys - todo && Scheduled(calendar[id], on, weekdayOf(on))
        decreases todo
      {
        var id :| id in todo;
        todo := todo - {id};
        if Scheduled(calendar[id], on, weekdayOf(on)) {
          out := out + {id};
        }
      }
      ghost var base := out;
      var left := exceptions.Keys;
      while left != {}
        invariant left <= exceptions.Keys
        invariant forall id :: id in out <==>
                  if (id, on) in exceptions.Keys - left && exceptions[(id, on)] == 1 then true
                  else if (id, on) in exceptions.Keys - left && exceptions[(id, on)] == 2 then false
                  else id in base
        decreases left
      {
        var key :| key in left;
        left := left - {key};
        if key.1 == on {
          if exceptions[key] == 1 {
            out := out + {key.0};
          } else if exceptions[key] == 2 {
            out := out - {key.0};
          }
        }
      }
    }
  }

  // ---- they agree ----

  predicate WellDated(t: Tables) {
    && (forall i :: 0 <= i < |t.calendar| ==> WellFormed(t.calendar[i].from) && WellFormed(t.calendar[i].until))
    && (forall i :: 0 <= i < |t.exceptions| ==> WellFormed(t.exceptions[i].date))
  }

  predicate WellFormed(s: string) {
    s == "" || (EightDigits(s) && Parse(s).Some?)
  }

  /**
   One calendar row per service, and one exception per service and date that can be read: the keys of the database.
   */
  predicate Keyed(t: Tables) {
    && (forall i, j :: 0 <= i < j < |t.calendar| ==> t.calendar[i].service != t.calendar[j].service)
    && KeyedExceptions(t.exceptions)
  }

  predicate KeyedExceptions(rows: seq<ExceptionRow>) {
    forall i, j :: 0 <= i < j < |rows| && rows[i].service == rows[j].service && Parse(rows[i].date).Some? ==>
      Parse(rows[i].date) != Parse(rows[j].date)
  }

  /** The exception of a service that reads as the date `on` but is not written the way `on` is. */
  function Misfiled(rows: seq<ExceptionRow>, n: nat, id: Id, on: Date): Option<int>
    requires n <= |rows|
  {
    if n == 0 then None
    else
      var r := rows[n - 1];
      if r.service == id && Parse(r.date) == Some(on) && r.date != Text(on) then Some(r.kind)
      else Misfiled(rows, n - 1, id, on)
  }

  lemma {:induction false} ExceptionFrom(rows: seq<ExceptionRow>, n: nat, id: Id, on: Date)
    requires n <= |rows| && IsDate(on)
    ensures Misfiled(rows, n, id, on).Some? || (id, Text(on)) in ExceptionsByText(rows, n) ==>
              exists i :: 0 <= i < n && rows[i].service == id && Parse(rows[i].date) == Some(on)
  {
    hide Text, Parse, EightDigits;
    ParseText(on);
    if n > 0 {
      ExceptionFrom(rows, n - 1, id, on);
    }
  }

  /** The two tables of exceptions say the same of a date, but for a misfiled one, which only the API files under it. */
  lemma {:induction false} SameExceptions(rows: seq<ExceptionRow>, n: nat, id: Id, on: Date)
    requires n <= |rows| && IsDate(on) && KeyedExceptions(rows)
    ensures var byDate := Get(ExceptionsByDate(rows, n), (id, on));
            var byText := Get(ExceptionsByText(rows, n), (id, Text(on)));
            if Misfiled(rows, n, id, on).Some? then byDate == Misfiled(rows, n, id, on) && byText == None
            else byDate == byText
  {
    hide Text, Parse, EightDigits;
    ParseText(on);
    if n > 0 {
      var r := rows[n - 1];
      SameExceptions(rows, n - 1, id, on);
      if r.service == id && Parse(r.date) == Some(on) {
        ExceptionFrom(rows, n - 1, id, on);
        assert Misfiled(rows, n - 1, id, on).None? && (id, Text(on)) !in ExceptionsByText(rows, n - 1);
      }
    }
  }

  lemma {:induction false} NoneMisfiled(rows: seq<ExceptionRow>, n: nat, id: Id, on: Date)
    requires n <= |rows| && IsDate(on) && forall i :: 0 <= i < |rows| ==> WellFormed(rows[i].date)
    ensures Misfiled(rows, n, id, on).None?
  {
    hide Text, Parse, EightDigits;
    if n > 0 {
      NoneMisfiled(rows, n - 1, id, on);
      if rows[n - 1].date != "" {
        TextParse(rows[n - 1].date);
      } else {
        EmptyIsNoDate();
      }
    }
  }

  lemma EmptyIsNoDate()
    ensures Parse("").None?
  {}

  lemma {:induction false} TextRows(rows: seq<CalendarRow>, n: nat, id: Id)
    requires n <= |rows|
    ensures id in CalendarByText(rows, n) <==> exists i :: 0 <= i < n && rows[i].service == id
    ensures id in CalendarByText(rows, n) ==> CalendarByText(rows, n)[id] in rows
  {
    if n > 0 {
      TextRows(rows, n - 1, id);
    }
  }

  predicate Readable(r: CalendarRow) {
    Parse(r.from).Some? && Parse(r.until).Some?
  }

  /** The row as the API reads it, and as the bundle does. */
  predicate DateScheduled(r: CalendarRow, on: Date, weekday: Weekday) {
    Readable(r) && Scheduled(Period(r.days, Parse(r.from).value, Parse(r.until).value), on, weekday)
  }

  predicate TextScheduled(r: CalendarRow, ymd: string, weekday: Weekday) {
    r.from != "" && r.until != "" && TextLe(r.from, ymd) && TextLe(ymd, r.until) && weekday < |r.days| &&
    r.days[weekday]
  }

  lemma {:induction false} SameCalendar(rows: seq<CalendarRow>, n: nat, id: Id)
    requires n <= |rows| && forall i, j :: 0 <= i < j < |rows| ==> rows[i].service != rows[j].service
    ensures Get(CalendarByDate(rows, n), id)
         == if id in CalendarByText(rows, n) && Readable(CalendarByText(rows, n)[id])
            then var r := CalendarByText(rows, n)[id]; Some(Period(r.days, Parse(r.from).value, Parse(r.until).value))
            else None
  {
    hide Parse;
    if n > 0 {
      SameCalendar(rows, n - 1, id);
      TextRows(rows, n - 1, id);
    }
  }

  lemma SameSchedule(r: CalendarRow, on: Date, weekday: Weekday)
    requires IsDate(on) && WellFormed(r.from) && WellFormed(r.until)
    ensures DateScheduled(r, on, weekday) <==> TextScheduled(r, Text(on), weekday)
  {
    hide Text, TextLe, Parse, EightDigits;
    EmptyIsNoDate();
    if r.from != "" && r.until != "" {
      TextParse(r.from);
      TextParse(r.until);
      TextOrder(Parse(r.from).value, on);
      TextOrder(on, Parse(r.until).value);
    }
  }

  /** A row with a date that cannot be read or is not eight digits, and that the two evaluators read differently. */
  predicate Clashes(r: CalendarRow, on: Date, weekday: Weekday) {
    && !(WellFormed(r.from) && WellFormed(r.until))
    && DateScheduled(r, on, weekday) != TextScheduled(r, Text(on), weekday)
  }

  /**
   Whatever the dates in the tables are. An exception that reads as the date without being written like it is seen by
   the API alone; otherwise the two differ exactly where the row clashes and no exception decides.
   */
  lemma AgreeExactly(t: Tables, id: Id, on: Date, weekday: Weekday, exc: map<(Id, string), int>)
    requires Keyed(t) && IsDate(on)
    requires Get(exc, (id, Text(on))) == Get(ExceptionsByText(t.exceptions, |t.exceptions|), (id, Text(on)))
    ensures var cal := CalendarByText(t.calendar, |t.calendar|);
            (DateActive(CalendarByDate(t.calendar, |t.calendar|), ExceptionsByDate(t.exceptions, |t.exceptions|),
                        id, on, weekday)
             <==> TextActive(ServiceOf(cal, id), exc, Text(on), weekday))
            <==>
            var inRange := id in cal && TextScheduled(cal[id], Text(on), weekday);
            match Misfiled(t.exceptions, |t.exceptions|, id, on)
            case Some(1) => inRange
            case Some(2) => !inRange
            case _ => (id in cal && Clashes(cal[id], on, weekday) ==> Get(exc, (id, Text(on))) in {Some(1), Some(2)})
  {
    hide TextLe, Text, Parse, Scheduled, IsDate, WellFormed;
    SameExceptions(t.exceptions, |t.exceptions|, id, on);
    SameCalendar(t.calendar, |t.calendar|, id);
    TextRows(t.calendar, |t.calendar|, id);
    var cal := CalendarByText(t.calendar, |t.calendar|);
    if id in cal && WellFormed(cal[id].from) && WellFormed(cal[id].until) {
      SameSchedule(cal[id], on, weekday);
    }
  }

  /**
   The two evaluators agree on every date for every service a trip refers to, with a calendar row
   or without one.
   */
  lemma EvaluatorsAgree(t: Tables, id: Id, on: Date, weekday: Weekday, exc: map<(Id, string), int>)
    requires WellDated(t) && Keyed(t) && IsDate(on)
    requires Get(exc, (id, Text(on))) == Get(ExceptionsByText(t.exceptions, |t.exceptions|), (id, Text(on)))
    ensures DateActive(CalendarByDate(t.calendar, |t.calendar|), ExceptionsByDate(t.exceptions, |t.exceptions|),
                       id, on, weekday)
       <==> TextActive(ServiceOf(CalendarByText(t.calendar, |t.calendar|), id), exc, Text(on), weekday)
  {
    hide DateActive, TextActive, Text, Parse, IsDate, WellFormed, DateScheduled, TextScheduled;
    AgreeExactly(t, id, on, weekday, exc);
    NoneMisfiled(t.exceptions, |t.exceptions|, id, on);
    TextRows(t.calendar, |t.calendar|, id);
  }

  /** A last date of all nines is no date: the API drops the service, the bundle runs it for ever. */
  lemma AllNinesSplitsThem(r: CalendarRow, on: Date, weekday: Weekday)
    requires r.until == "99999999" && EightDigits(r.from) && Parse(r.from).Some? && IsDate(on)
    requires DateLe(Parse(r.from).value, on)
    requires weekday < |r.days| && r.days[weekday]
    ensures TextActive(ServiceOf(CalendarByText([r], 1), r.service), map[], Text(on), weekday)
    ensures !DateActive(CalendarByDate([r], 1), map[], r.service, on, weekday)
  {
    hide TextLe, Padded, ValueOf, MonthDayAt;
    assert CalendarByText([r], 0) == map[] && CalendarByDate([r], 0) == map[];
    AllNines(on);
    TextParse(r.from);
    TextOrder(Parse(r.from).value, on);
  }

  lemma AllNines(on: Date)
    requires IsDate(on)
    ensures TextLe(Text(on), "99999999") && Parse("99999999").None?
  {
    hide TextLe, Padded, IsDate, ValueOf;
    var nines := "99999999";
    FourDigitsValue(nines);
    EightDigitsValue(nines);
    ValuePadded(nines, 8);
    assert nines[..8] == nines;
    NumberFits(on);
    TenToTheEighth();
    PaddedOrder(Number(on), 99999999, 8);
  }

  lemma FourDigitsValue(s: string)
    requires Digits(s, 4)
    ensures ValueOf(s, 4) == 1000 * DigitValue(s[0]) + 100 * DigitValue(s[1]) + 10 * DigitValue(s[2]) + DigitValue(s[3])
  {
    assert ValueOf(s, 1) == DigitValue(s[0]);
    assert ValueOf(s, 3) == 100 * ValueOf(s, 1) + 10 * DigitValue(s[1]) + DigitValue(s[2]);
    assert ValueOf(s, 4) == 10 * ValueOf(s, 3) + DigitValue(s[3]);
  }

  lemma ReadTexts()
    ensures Parse("2026101") == Some(Date(2026, 10, 1)) && Parse("20271231") == Some(Date(2027, 12, 31))
  {
    hide ValueOf;
    FourDigitsValue("2026101");
    FourDigitsValue("20271231");
  }

  lemma WrittenTexts()
    ensures Text(Date(2026, 10, 5)) == "20261005" && Text(Date(2026, 11, 5)) == "20261105"
  {
    hide ValueOf, Text;
    FourDigitsValue("20261005");
    FourDigitsValue("20261105");
    TextParse("20261005");
    TextParse("20261105");
  }

  lemma {:induction false} TextAt(a: string, b: string, i: nat)
    requires i < |a| && i < |b| && a[..i] == b[..i] && a[i] != b[i]
    ensures TextLe(a, b) <==> a[i] < b[i]
  {
    if i > 0 {
      assert a[..i][0] == b[..i][0] && a[1..][..i - 1] == a[..i][1..] && b[1..][..i - 1] == b[..i][1..];
      TextAt(a[1..], b[1..], i - 1);
    }
  }

  /** A month or day of one digit is a date to the API, which compares dates, and a text out of order to the bundle. */
  lemma ShortDateSplitsThem(id: Id)
    ensures var r := CalendarRow(id, [true, true, true, true, true, true, true], "2026101", "20271231");
            var october, november := Date(2026, 10, 5), Date(2026, 11, 5);
            && Parse(r.from) == Some(Date(2026, 10, 1))
            && DateActive(CalendarByDate([r], 1), map[], id, october, 0)
            && !TextActive(ServiceOf(CalendarByText([r], 1), id), map[], Text(october), 0)
            && DateActive(CalendarByDate([r], 1), map[], id, november, 0)
            && TextActive(ServiceOf(CalendarByText([r], 1), id), map[], Text(november), 0)
  {
    hide Parse, Text, TextLe;
    var r := CalendarRow(id, [true, true, true, true, true, true, true], "2026101", "20271231");
    assert CalendarByText([r], 0) == map[] && CalendarByDate([r], 0) == map[];
    ReadTexts();
    WrittenTexts();
    TextAt("2026101", "20261005", 6);
    TextAt("2026101", "20261105", 5);
    TextAt("20261105", "20271231", 3);
  }
}
