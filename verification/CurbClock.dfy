module CurbClock {
  /**
   When a curb rule applies, and when that changes next: the "Time Span" of the CDS 1.1.0 Curbs API,
   with windows that may wrap past midnight.

   An instant is the city's wall clock in microseconds; the calendar (weekday, month, holiday) is a
   function of the day number.
   */
  import opened Util

  const MINUTE := 60_000_000
  const MINUTES_IN_A_DAY := 1440
  const DAY := 86_400_000_000
  const LOOK_AHEAD := 8

  /** `weekday` counts from Monday = 0, `month` and `dayOfMonth` from 1. */
  datatype Date = Date(weekday: nat, dayOfMonth: nat, month: nat, holiday: bool)

  type Calendar = int -> Date

  datatype Period = NoPeriod | Holidays | UnknownPeriod

  /** Empty lists and `None` are absent fields. `daysOfWeek` counts from Sunday = 0. */
  datatype Span = Span(startDate: Option<int>, endDate: Option<int>, daysOfWeek: seq<int>, daysOfMonth: seq<int>,
                       weeksOfMonth: seq<int>, months: seq<int>, period: Period, periodExcept: bool,
                       timeStart: Option<int>, timeEnd: Option<int>)

  const ANY_TIME := Span(None, None, [], [], [], [], NoPeriod, false, None, None)

  function DayAt(t: int): int {
    t / DAY
  }

  function MinuteAt(t: int): int {
    (t % DAY) / MINUTE
  }

  // ---- the rule ----

  predicate DateMatches(s: Span, d: Date) {
    && (s.daysOfWeek == [] || (d.weekday + 1) % 7 in s.daysOfWeek)
    && (s.daysOfMonth == [] || d.dayOfMonth in s.daysOfMonth)
    && (s.weeksOfMonth == [] || (d.dayOfMonth - 1) / 7 + 1 in s.weeksOfMonth)
    && (s.months == [] || d.month in s.months)
    && (s.period == Holidays ==> d.holiday != s.periodExcept)
  }

  predicate InWindow(s: Span, minute: int) {
    if s.timeStart.None? && s.timeEnd.None? then true
    else
      var lo := if s.timeStart.None? then 0 else s.timeStart.value;
      var hi := if s.timeEnd.None? then MINUTES_IN_A_DAY else s.timeEnd.value;
      if lo <= hi then lo <= minute < hi else minute >= lo || minute < hi
  }

  predicate SpanActive(cal: Calendar, s: Span, t: int) {
    && (s.startDate.Some? ==> t >= s.startDate.value)
    && (s.endDate.Some? ==> t < s.endDate.value)
    && DateMatches(s, cal(DayAt(t)))
    && InWindow(s, MinuteAt(t))
  }

  predicate Active(cal: Calendar, spans: seq<Span>, t: int) {
    spans == [] || exists i :: 0 <= i < |spans| && SpanActive(cal, spans[i], t)
  }

  /**
   A window that wraps midnight is the evening part and the morning part of the same matching dates: from its start
   to midnight, and from midnight to its end.
   */
  lemma WrapIsTwoSpans(cal: Calendar, s: Span, t: int)
    requires s.timeStart.Some? && s.timeEnd.Some? && s.timeEnd.value < s.timeStart.value <= MINUTES_IN_A_DAY
    requires 0 <= s.timeEnd.value
    ensures Active(cal, [s], t) <==> Active(cal, [s.(timeEnd := None), s.(timeStart := None)], t)
    ensures Active(cal, [s], t) ==> DateMatches(s, cal(DayAt(t)))
  {
    hide DateMatches;
    var halves := [s.(timeEnd := None), s.(timeStart := None)];
    SameDates(s, halves[0], cal(DayAt(t)));
    SameDates(s, halves[1], cal(DayAt(t)));
    assert Active(cal, [s], t) <==> SpanActive(cal, [s][0], t);
    assert Active(cal, halves, t) <==> SpanActive(cal, halves[0], t) || SpanActive(cal, halves[1], t);
  }

  lemma SameDates(a: Span, b: Span, d: Date)
    requires a == b.(timeStart := a.timeStart, timeEnd := a.timeEnd)
    ensures DateMatches(a, d) == DateMatches(b, d)
  {}

  // ---- where it can change ----

  ghost predicate IsEdge(spans: seq<Span>, m: int) {
    m == 0 || exists i :: 0 <= i < |spans| && (spans[i].timeStart == Some(m) || spans[i].timeEnd == Some(m))
  }

  function Midnight(t: int): int {
    DayAt(t) * DAY
  }

  function Horizon(when_: int): int {
    Midnight(when_) + LOOK_AHEAD * DAY
  }

  function EdgeAt(when_: int, d: int, m: int): int {
    Midnight(when_) + d * DAY + m * MINUTE
  }

  ghost predicate Candidate(spans: seq<Span>, when_: int, t: int) {
    t > when_ && exists d, m :: 0 <= d < LOOK_AHEAD && IsEdge(spans, m) && t == EdgeAt(when_, d, m)
  }

  /** What the search returns: the first candidate at which the state differs, or nothing. */
  ghost predicate IsNextChange(cal: Calendar, spans: seq<Span>, when_: int, r: Option<int>) {
    && (r.Some? ==> Candidate(spans, when_, r.value) && Active(cal, spans, r.value) != Active(cal, spans, when_))
    && forall t :: Candidate(spans, when_, t) && (r.Some? ==> t < r.value) ==>
         Active(cal, spans, t) == Active(cal, spans, when_)
  }

  ghost predicate IsBound(spans: seq<Span>, t: int) {
    exists i :: 0 <= i < |spans| && (spans[i].startDate == Some(t) || spans[i].endDate == Some(t))
  }

  /** An edge of some day's clock, or one of the dates that open and close a span. */
  ghost predicate OnGrid(spans: seq<Span>, t: int) {
    IsBound(spans, t) || exists m :: 0 <= m < MINUTES_IN_A_DAY && IsEdge(spans, m) && t == Midnight(t) + m * MINUTE
  }

  // ---- between two grid instants nothing changes ----

  lemma SameDay(a: int, b: int)
    requires a <= b && DayAt(a) == DayAt(b)
    ensures MinuteAt(a) <= MinuteAt(b) && 0 <= MinuteAt(a) && MinuteAt(b) < MINUTES_IN_A_DAY
    ensures forall m :: MinuteAt(a) < m <= MinuteAt(b) ==> a < Midnight(b) + m * MINUTE <= b
  {}

  lemma MidnightIsOnGrid(spans: seq<Span>, t: int)
    ensures OnGrid(spans, Midnight(t)) && Midnight(t) <= t < Midnight(t) + DAY
  {
    assert Midnight(Midnight(t)) == Midnight(t);
    assert IsEdge(spans, 0) && Midnight(t) == Midnight(Midnight(t)) + 0 * MINUTE;
  }

  lemma EdgeIsOnGrid(spans: seq<Span>, t: int, m: int)
    requires IsEdge(spans, m) && 0 <= m < MINUTES_IN_A_DAY
    ensures OnGrid(spans, Midnight(t) + m * MINUTE)
  {
    assert Midnight(Midnight(t) + m * MINUTE) == Midnight(t);
  }

  lemma NothingBetween(cal: Calendar, spans: seq<Span>, a: int, b: int)
    requires a <= b && forall g :: a < g <= b ==> !OnGrid(spans, g)
    ensures Active(cal, spans, a) == Active(cal, spans, b)
  {
    MidnightIsOnGrid(spans, b);
    assert DayAt(a) == DayAt(b);
    forall i | 0 <= i < |spans| ensures SpanActive(cal, spans[i], a) == SpanActive(cal, spans[i], b) {
      SpanSteady(cal, spans, i, a, b);
    }
  }

  lemma SpanSteady(cal: Calendar, spans: seq<Span>, i: nat, a: int, b: int)
    requires i < |spans| && a <= b && DayAt(a) == DayAt(b)
    requires forall g :: a < g <= b ==> !OnGrid(spans, g)
    ensures SpanActive(cal, spans[i], a) == SpanActive(cal, spans[i], b)
  {
    var s := spans[i];
    SameDay(a, b);
    forall m | IsEdge(spans, m) ensures !(MinuteAt(a) < m <= MinuteAt(b)) {
      if MinuteAt(a) < m <= MinuteAt(b) {
        EdgeIsOnGrid(spans, b, m);
      }
    }
    if s.startDate.Some? { assert IsBound(spans, s.startDate.value); assert OnGrid(spans, s.startDate.value); }
    if s.endDate.Some? { assert IsBound(spans, s.endDate.value); assert OnGrid(spans, s.endDate.value); }
    if s.timeStart.Some? { assert IsEdge(spans, s.timeStart.value); }
    if s.timeEnd.Some? { assert IsEdge(spans, s.timeEnd.value); }
  }

  lemma LatestOnGrid(spans: seq<Span>, g: int, u: int) returns (e: int)
    requires g <= u && OnGrid(spans, g)
    ensures g <= e <= u && OnGrid(spans, e) && forall h :: e < h <= u ==> !OnGrid(spans, h)
    decreases u - g
  {
    e := g;
    if h :| g < h <= u && OnGrid(spans, h) {
      e := LatestOnGrid(spans, h, u);
    }
  }

  /** If the state holds at every grid instant after `when_`, it holds at every instant. */
  lemma SteadyOnGrid(cal: Calendar, spans: seq<Span>, when_: int, u: int)
    requires when_ <= u
    requires forall g :: when_ < g <= u && OnGrid(spans, g) ==> Active(cal, spans, g) == Active(cal, spans, when_)
    ensures Active(cal, spans, u) == Active(cal, spans, when_)
  {
    if g :| when_ < g <= u && OnGrid(spans, g) {
      var e := LatestOnGrid(spans, g, u);
      NothingBetween(cal, spans, e, u);
    } else {
      NothingBetween(cal, spans, when_, u);
    }
  }

  lemma ClockEdgeIsCandidate(spans: seq<Span>, when_: int, g: int)
    requires when_ < g < Horizon(when_) && OnGrid(spans, g) && !IsBound(spans, g)
    ensures Candidate(spans, when_, g)
  {
    var m :| 0 <= m < MINUTES_IN_A_DAY && IsEdge(spans, m) && g == Midnight(g) + m * MINUTE;
    var d := DayAt(g) - DayAt(when_);
    assert g == EdgeAt(when_, d, m);
  }

  // ---- exactness ----

  function Until(when_: int, r: Option<int>): int {
    if r.Some? then Min(r.value, Horizon(when_)) else Horizon(when_)
  }

  ghost predicate Steady(cal: Calendar, spans: seq<Span>, from: int, until: int) {
    forall u :: from <= u < until ==> Active(cal, spans, u) == Active(cal, spans, from)
  }

  lemma BoundsDecide(cal: Calendar, spans: seq<Span>, when_: int, r: Option<int>)
    requires IsNextChange(cal, spans, when_, r)
    requires forall b :: when_ < b < Until(when_, r) && IsBound(spans, b) ==>
               Active(cal, spans, b) == Active(cal, spans, when_)
    ensures Steady(cal, spans, when_, Until(when_, r))
  {
    forall u | when_ <= u < Until(when_, r) ensures Active(cal, spans, u) == Active(cal, spans, when_) {
      forall g | when_ < g <= u && OnGrid(spans, g) ensures Active(cal, spans, g) == Active(cal, spans, when_) {
        if !IsBound(spans, g) {
          ClockEdgeIsCandidate(spans, when_, g);
        }
      }
      SteadyOnGrid(cal, spans, when_, u);
    }
  }

  /** A start or end date of the eight days at which the state is another one. */
  ghost predicate Differs(cal: Calendar, spans: seq<Span>, when_: int, b: int) {
    when_ < b < Horizon(when_) && IsBound(spans, b) && Active(cal, spans, b) != Active(cal, spans, when_)
  }

  /** A candidate no later than `b` at which the state differs. */
  ghost predicate Noticed(cal: Calendar, spans: seq<Span>, when_: int, b: int) {
    exists t :: t <= b && Candidate(spans, when_, t) && Active(cal, spans, t) != Active(cal, spans, when_)
  }

  /**
   The state is constant up to the returned instant (or for eight days) exactly when every start or end date of the
   eight days at which it differs has a candidate at or before it at which it differs too: nothing else can be missed.
   */
  lemma NextChangeExactness(cal: Calendar, spans: seq<Span>, when_: int, r: Option<int>)
    requires IsNextChange(cal, spans, when_, r)
    ensures Steady(cal, spans, when_, Until(when_, r)) <==>
            forall b :: Differs(cal, spans, when_, b) ==> Noticed(cal, spans, when_, b)
  {
    hide Active, Candidate, IsBound;
    if Steady(cal, spans, when_, Until(when_, r)) {
      forall b | Differs(cal, spans, when_, b) ensures Noticed(cal, spans, when_, b) {
        assert r.Some? && r.value <= b;
      }
    }
    if forall b :: Differs(cal, spans, when_, b) ==> Noticed(cal, spans, when_, b) {
      forall b | when_ < b < Until(when_, r) && IsBound(spans, b)
        ensures Active(cal, spans, b) == Active(cal, spans, when_)
      {
        assert Differs(cal, spans, when_, b) ==> Noticed(cal, spans, when_, b);
      }
      BoundsDecide(cal, spans, when_, r);
    }
  }

  /** Start and end dates on local midnights, as a calendar date is. */
  ghost predicate DatesAtMidnight(spans: seq<Span>) {
    forall b :: IsBound(spans, b) ==> b == Midnight(b)
  }

  /** Times of day no later than 24:00. */
  ghost predicate TimesOfDay(spans: seq<Span>) {
    forall m :: IsEdge(spans, m) ==> m <= MINUTES_IN_A_DAY
  }

  /**
   `next_change` is exact: the state is constant from `when_` up to the returned instant and flips
   there, and with no instant returned it does not flip before midnight eight days on.
   */
  lemma NextChangeIsExact(cal: Calendar, spans: seq<Span>, when_: int, r: Option<int>)
    requires IsNextChange(cal, spans, when_, r) && DatesAtMidnight(spans)
    ensures Steady(cal, spans, when_, Until(when_, r))
    ensures r.Some? ==> r.value > when_ && Active(cal, spans, r.value) != Active(cal, spans, when_)
    ensures r.Some? && TimesOfDay(spans) ==> r.value <= Horizon(when_) && Until(when_, r) == r.value
  {
    forall b | when_ < b < Until(when_, r) && IsBound(spans, b)
      ensures Active(cal, spans, b) == Active(cal, spans, when_)
    {
      var d := DayAt(b) - DayAt(when_);
      assert IsEdge(spans, 0) && b == EdgeAt(when_, d, 0);
      assert Candidate(spans, when_, b);
    }
    BoundsDecide(cal, spans, when_, r);
  }

  /** There is one answer to the search. */
  lemma NextChangeIsUnique(cal: Calendar, spans: seq<Span>, when_: int, r: Option<int>, q: Option<int>)
    requires IsNextChange(cal, spans, when_, r) && IsNextChange(cal, spans, when_, q)
    ensures r == q
  {
    if r.Some? && q.Some? {
      assert !(r.value < q.value) && !(q.value < r.value);
    }
  }

  /** A rule that starts at noon is announced for the midnight after it. */
  lemma NoonStartIsMissed(cal: Calendar)
    ensures var spans := [ANY_TIME.(startDate := Some(720 * MINUTE))];
            && IsNextChange(cal, spans, 0, Some(DAY))
            && !Steady(cal, spans, 0, DAY) && !DatesAtMidnight(spans)
  {
    var s := ANY_TIME.(startDate := Some(720 * MINUTE));
    var spans := [s];
    forall t ensures Active(cal, spans, t) <==> t >= 720 * MINUTE {
      assert Active(cal, spans, t) <==> SpanActive(cal, spans[0], t);
    }
    assert IsEdge(spans, 0) && DAY == EdgeAt(0, 1, 0);
    assert Candidate(spans, 0, DAY);
    forall t | Candidate(spans, 0, t) ensures t >= DAY {
      var d, m :| 0 <= d < LOOK_AHEAD && IsEdge(spans, m) && t == EdgeAt(0, d, m);
      assert m == 0;
    }
    assert Active(cal, spans, 720 * MINUTE) != Active(cal, spans, 0);
    assert IsBound(spans, 720 * MINUTE) by { assert spans[0].startDate == Some(720 * MINUTE); }
  }

  // ---- the search as it is done ----

  method Boundaries(spans: seq<Span>, when_: int) returns (out: seq<int>)
    ensures SortedBy(out, (a: int, b: int) => a <= b)
    ensures forall t :: t in out <==> Candidate(spans, when_, t)
  {
    var edges := [0];
    for i := 0 to |spans|
      invariant forall m :: m in edges <==> IsEdge(spans[..i], m)
    {
      var s := spans[i];
      assert spans[..i + 1][i] == s && forall k :: 0 <= k < i ==> spans[..i + 1][k] == spans[..i][k];
      if s.timeStart.Some? && s.timeStart.value !in edges { edges := edges + [s.timeStart.value]; }
      if s.timeEnd.Some? && s.timeEnd.value !in edges { edges := edges + [s.timeEnd.value]; }
    }
    assert spans[..|spans|] == spans;
    var midnight := Midnight(when_);
    out := [];
    for d := 0 to LOOK_AHEAD
      invariant forall t :: t in out <==>
        t > when_ && exists d', m :: 0 <= d' < d && IsEdge(spans, m) && t == EdgeAt(when_, d', m)
    {
      var day := DayEdges(edges, when_, midnight + d * DAY);
      out := out + day;
      forall t ensures t in day <==> t > when_ && exists m :: IsEdge(spans, m) && t == EdgeAt(when_, d, m) {}
    }
    ghost var unsorted := out;
    var le := (a: int, b: int) => a <= b;
    SortSorts(out, le);
    SortPermutes(out, le);
    SameElements(SortBy(out, le), out);
    out := SortBy(out, le);
  }

  method DayEdges(edges: seq<int>, when_: int, day: int) returns (out: seq<int>)
    ensures forall t :: t in out <==> t > when_ && exists m :: m in edges && t == day + m * MINUTE
  {
    out := [];
    for i := 0 to |edges|
      invariant forall t :: t in out <==> t > when_ && exists k :: 0 <= k < i && t == day + edges[k] * MINUTE
    {
      var t := day + edges[i] * MINUTE;
      if t > when_ {
        out := out + [t];
      }
    }
    forall t ensures t in out <==> t > when_ && exists m :: m in edges && t == day + m * MINUTE {
      if k :| 0 <= k < |edges| && t == day + edges[k] * MINUTE { assert edges[k] in edges; }
    }
  }

  method NextChange(cal: Calendar, spans: seq<Span>, when_: int) returns (r: Option<int>)
    ensures IsNextChange(cal, spans, when_, r)
  {
    var state := Active(cal, spans, when_);
    var candidates := Boundaries(spans, when_);
    for i := 0 to |candidates|
      invariant forall k :: 0 <= k < i ==> Active(cal, spans, candidates[k]) == state
    {
      if Active(cal, spans, candidates[i]) != state {
        forall t | Candidate(spans, when_, t) && t < candidates[i] ensures Active(cal, spans, t) == state {
          var k :| 0 <= k < |candidates| && candidates[k] == t;
          assert k < i;
        }
        return Some(candidates[i]);
      }
    }
    forall t | Candidate(spans, when_, t) ensures Active(cal, spans, t) == state {
      var k :| 0 <= k < |candidates| && candidates[k] == t;
    }
    return None;
  }
}
