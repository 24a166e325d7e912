module AnalyticsCounts {
  /**
   What the tables count. Every counter is described by the events it is about, without going through the rows'
   contributions, and shown to hold the number of those events; the sessions of a day are counted once each.
   */
  import opened Util
  import opened Analytics

  // ---- a counter counts the rows that hit it ----

  /** How often the first `n` rows hit the counter. */
  function HitCount(z: Rules, rows: seq<Row>, n: nat, c: Cell): nat
    requires n <= |rows|
  {
    if n == 0 then 0 else HitCount(z, rows, n - 1, c) + multiset(z.hits(rows[n - 1]))[c]
  }

  function Positive(n: nat): Option<nat> {
    if n == 0 then None else Some(n)
  }

  lemma {:induction false} BumpCounts(t: Counters, cells: seq<Cell>, n: nat, c: Cell)
    requires n <= |cells| && Get(t, c) == Positive(ValueAt(t, c))
    ensures Get(BumpAll(t, cells, n), c) == Positive(ValueAt(t, c) + multiset(cells[..n])[c])
  {
    if n > 0 {
      BumpCounts(t, cells, n - 1, c);
      assert cells[..n] == cells[..n - 1] + [cells[n - 1]];
    }
  }

  lemma {:induction false} TallyCounts(z: Rules, rows: seq<Row>, n: nat, c: Cell)
    requires n <= |rows|
    ensures Get(Tally(z, rows, n), c) == Positive(HitCount(z, rows, n, c))
  {
    if n > 0 {
      TallyCounts(z, rows, n - 1, c);
      var hits := z.hits(rows[n - 1]);
      BumpCounts(Tally(z, rows, n - 1), hits, |hits|, c);
      assert hits[..|hits|] == hits;
    }
  }

  /** Every counter but those of sessions holds the number of its hits, and is absent without any. */
  lemma HitsCounted(z: Rules, rows: seq<Row>, c: Cell)
    requires !(c.key.FunnelDaily? && c.field == Sessions)
    ensures Get(Aggregate(z, rows), c) == Positive(HitCount(z, rows, |rows|, c))
  {
    TallyCounts(z, rows, |rows|, c);
    CellValue(Tally(z, rows, |rows|), Seen(z, rows, |rows|), c);
  }

  // ---- sessions are counted once a day ----

  function SessionsOn(z: Rules, rows: seq<Row>, n: nat, day: int): set<Id>
    requires n <= |rows|
  {
    set i | 0 <= i < n && DayOf(z, rows[i]) == day :: rows[i].session
  }

  lemma {:induction false} SeenSessions(z: Rules, rows: seq<Row>, n: nat, day: int)
    requires n <= |rows|
    ensures SeenOn(Seen(z, rows, n), day) == SessionsOn(z, rows, n, day)
    ensures day in Seen(z, rows, n) <==> SessionsOn(z, rows, n, day) != {}
  {
    if n > 0 {
      SeenSessions(z, rows, n - 1, day);
      var more := if DayOf(z, rows[n - 1]) == day then {rows[n - 1].session} else {};
      assert SessionsOn(z, rows, n, day) == SessionsOn(z, rows, n - 1, day) + more;
    }
  }

  /** The sessions of a day are those its rows name, each once, and there is no count on a day without rows. */
  lemma SessionsCounted(z: Rules, rows: seq<Row>, day: int)
    requires Local(z)
    ensures Get(Aggregate(z, rows), SessionCell(day)) == Positive(|SessionsOn(z, rows, |rows|, day)|)
  {
    SeenSessions(z, rows, |rows|, day);
    SessionCellsApart(z, rows, |rows|, day);
    CellValue(Tally(z, rows, |rows|), Seen(z, rows, |rows|), SessionCell(day));
    if SessionsOn(z, rows, |rows|, day) == {} {
      assert |SessionsOn(z, rows, |rows|, day)| == 0;
    } else {
      var s :| s in SessionsOn(z, rows, |rows|, day);
      assert |SessionsOn(z, rows, |rows|, day)| > 0;
    }
  }

  // ---- what each counter is about ----

  function One(b: bool): nat {
    if b then 1 else 0
  }

  /** How often an event counts in the counter of a place in that role. */
  function PlaceWeight(e: Event, place: Id, role: Role): nat {
    match role
    case Origin => One(e.PlanRequest? && e.from == Some(place) && e.to.Some?)
    case Destination => One(e.PlanRequest? && e.from.Some? && e.to == Some(place))
    case Search => One(e.SearchSelect? && e.gh7 == Some(place))
  }

  function RouteWeight(e: Event, route: Id, field: Field): nat {
    match field
    case Views => One(e.RouteView? && e.routeId == route)
    case Selects => if e.ItinerarySelect? then multiset(e.routeIds)[route] else 0
    case Locates => One(e.LocateQuery? && e.routeId == route)
    case _ => 0
  }

  function StopWeight(e: Event, stop: Id, field: Field): nat {
    match field
    case Views => One(e.StopView? && e.stopId == stop)
    case Locates => One(e.LocateQuery? && e.stopId == stop)
    case Boards => One(e.BoardView? && e.stopId == stop)
    case _ => 0
  }

  function FunnelWeight(e: Event, field: Field): nat {
    match field
    case PlanRequests => One(e.PlanRequest?)
    case ItinerarySelects => One(e.ItinerarySelect?)
    case AppOpens => One(e.AppOpen?)
    case GoStarts => One(e.GoStart?)
    case GoCompletions => One(e.GoEnd? && e.completed)
    case _ => 0
  }

  /** How often an event of the given local hour, day and hour of the clock counts in the counter. */
  function Weight(e: Event, hour: int, day: int, clock: int, platform: Id, version: Id, c: Cell): nat {
    match c.key
    case OdHourly(h, from, to) =>
      One(c.field == Count && h == hour && e.PlanRequest? && e.from == Some(from) && e.to == Some(to))
    case PlaceHourly(h, place, role) => if c.field == Count && h == hour then PlaceWeight(e, place, role) else 0
    case RouteDaily(d, route) => if d == day then RouteWeight(e, route, c.field) else 0
    case StopDaily(d, stop) => if d == day then StopWeight(e, stop, c.field) else 0
    case ModeDaily(d, modes) =>
      One(d == day && ((c.field == Requests && e.PlanRequest? && e.modeSet == modes)
                       || (c.field == Selects && e.ItinerarySelect? && e.modeSet == modes)))
    case SearchDaily(d, t, id, caption) =>
      One(c.field == Count && d == day && e.SearchSelect? && (e.resultType, e.resultId, e.caption) == (t, id, caption))
    case ProviderDaily(d, p) =>
      One(d == day && e.Handoff? && e.providerId == p &&
          (c.field == Handoffs || (c.field == HadEstimate && e.hadEstimate)))
    case FunnelDaily(d) => if d == day then FunnelWeight(e, c.field) else 0
    case HoursDaily(d, h) => One(c.field == Count && d == day && h == clock && e.PlanRequest?)
    case PlatformDaily(d, p, v) => One(c.field == Count && (d, p, v) == (day, platform, version))
  }

  function RowWeight(z: Zone, r: Row, c: Cell): nat {
    var hour := z.hourOf(r.at);
    Weight(r.event, hour, z.dayOf(hour), z.clockHour(hour), r.platform, r.version, c)
  }

  lemma {:induction false} SelectsCounted(day: int, routes: seq<Id>, c: Cell)
    ensures var cells := seq(|routes|, i requires 0 <= i < |routes| => Cell(RouteDaily(day, routes[i]), Selects));
            multiset(cells)[c] ==
            if c.key.RouteDaily? && c.key.day == day && c.field == Selects then multiset(routes)[c.key.routeId] else 0
  {
    if routes != [] {
      var rest := routes[..|routes| - 1];
      SelectsCounted(day, rest, c);
      var cells := seq(|routes|, i requires 0 <= i < |routes| => Cell(RouteDaily(day, routes[i]), Selects));
      var fewer := seq(|rest|, i requires 0 <= i < |rest| => Cell(RouteDaily(day, rest[i]), Selects));
      assert cells == fewer + [Cell(RouteDaily(day, routes[|rest|]), Selects)];
      assert routes == rest + [routes[|rest|]];
    }
  }

  lemma Plus(a: seq<Cell>, b: seq<Cell>, c: Cell)
    ensures multiset(a + b)[c] == multiset(a)[c] + multiset(b)[c]
  {}

  lemma Single(a: Cell, c: Cell)
    ensures multiset([a])[c] == One(a == c)
  {}

  lemma Pair(a: Cell, b: Cell, c: Cell)
    ensures multiset([a, b])[c] == One(a == c) + One(b == c)
  {
    assert [a, b] == [a] + [b];
  }

  lemma Triple(a: Cell, b: Cell, d: Cell, c: Cell)
    ensures multiset([a, b, d])[c] == One(a == c) + One(b == c) + One(d == c)
  {
    assert [a, b, d] == [a] + [b] + [d];
  }

  function OdCell(hour: int, e: Event): Cell
    requires e.PlanRequest? && e.from.Some? && e.to.Some?
  {
    Cell(OdHourly(hour, e.from.value, e.to.value), Count)
  }

  function PlaceCell(hour: int, place: Id, role: Role): Cell {
    Cell(PlaceHourly(hour, place, role), Count)
  }

  lemma PlanWeight(z: Zone, r: Row, c: Cell)
    requires r.event.PlanRequest? && !c.key.PlatformDaily?
    ensures var hour, e := z.hourOf(r.at), r.event;
            var day := z.dayOf(hour);
            RowWeight(z, r, c) ==
            (if e.from.None? || e.to.None? then 0
             else One(OdCell(hour, e) == c) + One(PlaceCell(hour, e.from.value, Origin) == c)
                  + One(PlaceCell(hour, e.to.value, Destination) == c))
            + One(Cell(ModeDaily(day, e.modeSet), Requests) == c) + One(Cell(FunnelDaily(day), PlanRequests) == c)
            + One(Cell(HoursDaily(day, z.clockHour(hour)), Count) == c)
  {}

  lemma PlanHits(z: Zone, r: Row, c: Cell)
    requires r.event.PlanRequest? && !c.key.PlatformDaily?
    ensures multiset(EventHits(z, r))[c] == RowWeight(z, r, c)
  {
    hide Weight, RowWeight, One;
    PlanWeight(z, r, c);
    var hour, e := z.hourOf(r.at), r.event;
    var day := z.dayOf(hour);
    var mode, funnel := Cell(ModeDaily(day, e.modeSet), Requests), Cell(FunnelDaily(day), PlanRequests);
    var clock := Cell(HoursDaily(day, z.clockHour(hour)), Count);
    Triple(mode, funnel, clock, c);
    if e.from.Some? && e.to.Some? {
      var from, to := PlaceCell(hour, e.from.value, Origin), PlaceCell(hour, e.to.value, Destination);
      Triple(OdCell(hour, e), from, to, c);
      Plus([OdCell(hour, e), from, to], [mode, funnel, clock], c);
      assert EventHits(z, r) == [OdCell(hour, e), from, to] + [mode, funnel, clock];
    } else {
      assert EventHits(z, r) == [mode, funnel, clock];
    }
  }

  lemma SelectHits(z: Zone, r: Row, c: Cell)
    requires r.event.ItinerarySelect? && !c.key.PlatformDaily?
    ensures multiset(EventHits(z, r))[c] == RowWeight(z, r, c)
  {
    var day, routes := z.dayOf(z.hourOf(r.at)), r.event.routeIds;
    var mode, funnel := Cell(ModeDaily(day, r.event.modeSet), Selects), Cell(FunnelDaily(day), ItinerarySelects);
    var cells := seq(|routes|, i requires 0 <= i < |routes| => Cell(RouteDaily(day, routes[i]), Selects));
    SelectsCounted(day, routes, c);
    Pair(mode, funnel, c);
    Plus([mode, funnel], cells, c);
    assert EventHits(z, r) == [mode, funnel] + cells;
  }

  lemma SearchHits(z: Zone, r: Row, c: Cell)
    requires r.event.SearchSelect? && !c.key.PlatformDaily?
    ensures multiset(EventHits(z, r))[c] == RowWeight(z, r, c)
  {
    var hour, e := z.hourOf(r.at), r.event;
    var search := Cell(SearchDaily(z.dayOf(hour), e.resultType, e.resultId, e.caption), Count);
    Single(search, c);
    if e.gh7.Some? {
      Pair(Cell(PlaceHourly(hour, e.gh7.value, Search), Count), search, c);
      assert EventHits(z, r) == [Cell(PlaceHourly(hour, e.gh7.value, Search), Count), search];
    } else {
      assert EventHits(z, r) == [search];
    }
  }

  lemma HandoffHits(z: Zone, r: Row, c: Cell)
    requires r.event.Handoff? && !c.key.PlatformDaily?
    ensures multiset(EventHits(z, r))[c] == RowWeight(z, r, c)
  {
    var key := ProviderDaily(z.dayOf(z.hourOf(r.at)), r.event.providerId);
    Single(Cell(key, Handoffs), c);
    Pair(Cell(key, Handoffs), Cell(key, HadEstimate), c);
    assert EventHits(z, r) == if r.event.hadEstimate then [Cell(key, Handoffs), Cell(key, HadEstimate)]
                              else [Cell(key, Handoffs)];
  }

  lemma LocateHits(z: Zone, r: Row, c: Cell)
    requires r.event.LocateQuery? && !c.key.PlatformDaily?
    ensures multiset(EventHits(z, r))[c] == RowWeight(z, r, c)
  {
    var day, e := z.dayOf(z.hourOf(r.at)), r.event;
    Pair(Cell(RouteDaily(day, e.routeId), Locates), Cell(StopDaily(day, e.stopId), Locates), c);
  }

  lemma ViewHits(z: Zone, r: Row, c: Cell)
    requires (r.event.RouteView? || r.event.StopView? || r.event.BoardView?) && !c.key.PlatformDaily?
    ensures multiset(EventHits(z, r))[c] == RowWeight(z, r, c)
  {
    Single(EventHits(z, r)[0], c);
  }

  lemma AppHits(z: Zone, r: Row, c: Cell)
    requires r.event.AppOpen? || r.event.GoStart? || r.event.GoEnd? || r.event.Other?
    requires !c.key.PlatformDaily?
    ensures multiset(EventHits(z, r))[c] == RowWeight(z, r, c)
  {
    if EventHits(z, r) != [] {
      Single(EventHits(z, r)[0], c);
    }
  }

  lemma PlatformWeight(z: Zone, r: Row, c: Cell)
    ensures var platform := PlatformCell(z.dayOf(z.hourOf(r.at)), r);
            if c.key.PlatformDaily? then RowWeight(z, r, c) == One(platform == c) else One(platform == c) == 0
  {}

  predicate NoPlatform(cells: seq<Cell>) {
    forall i :: 0 <= i < |cells| ==> !cells[i].key.PlatformDaily?
  }

  lemma EventsHitNoPlatform(z: Zone, r: Row)
    ensures NoPlatform(EventHits(z, r))
  {}

  lemma NoneHit(cells: seq<Cell>, c: Cell)
    requires NoPlatform(cells) && c.key.PlatformDaily?
    ensures multiset(cells)[c] == 0
  {
    assert c !in cells;
  }

  /** A row hits exactly the counters that are about its event, as often as they are. */
  lemma HitsAreWeights(z: Zone, r: Row, c: Cell)
    ensures multiset(Hits(z, r))[c] == RowWeight(z, r, c)
  {
    hide EventHits, RowWeight;
    PlatformWeight(z, r, c);
    var platform := PlatformCell(z.dayOf(z.hourOf(r.at)), r);
    Single(platform, c);
    Plus([platform], EventHits(z, r), c);
    if c.key.PlatformDaily? {
      EventsHitNoPlatform(z, r);
      NoneHit(EventHits(z, r), c);
    } else {
      match r.event
      case PlanRequest(_, _, _) => PlanHits(z, r, c);
      case ItinerarySelect(_, _) => SelectHits(z, r, c);
      case SearchSelect(_, _, _, _) => SearchHits(z, r, c);
      case Handoff(_, _) => HandoffHits(z, r, c);
      case LocateQuery(_, _) => LocateHits(z, r, c);
      case RouteView(_) => ViewHits(z, r, c);
      case StopView(_) => ViewHits(z, r, c);
      case BoardView(_) => ViewHits(z, r, c);
      case _ => AppHits(z, r, c);
    }
  }

  function EventCount(z: Zone, rows: seq<Row>, n: nat, c: Cell): nat
    requires n <= |rows|
  {
    if n == 0 then 0 else EventCount(z, rows, n - 1, c) + RowWeight(z, rows[n - 1], c)
  }

  lemma {:induction false} HitsAreEvents(z: Zone, rows: seq<Row>, n: nat, c: Cell)
    requires n <= |rows|
    ensures HitCount(RulesIn(z), rows, n, c) == EventCount(z, rows, n, c)
  {
    hide RowWeight, Hits;
    if n > 0 {
      HitsAreEvents(z, rows, n - 1, c);
      HitsAreWeights(z, rows[n - 1], c);
    }
  }

  /** In a time zone every counter holds the number of the events it is about. */
  lemma CountersCountEvents(z: Zone, rows: seq<Row>, c: Cell)
    requires !(c.key.FunnelDaily? && c.field == Sessions)
    ensures Get(Aggregate(RulesIn(z), rows), c) == Positive(EventCount(z, rows, |rows|, c))
  {
    hide Aggregate, RulesIn;
    HitsCounted(RulesIn(z), rows, c);
    HitsAreEvents(z, rows, |rows|, c);
  }
}
