module Analytics {
  /**
   The analytics rollup: raw events are only ever appended; a rollup recomputes the local days and
   hours that rows above the city's watermark touch, and leaves every other aggregate alone.

   An aggregate table is kept as its counters: one `Cell` is one counter of one table row, and a
   row is there when one of its cells is. The city's time zone is a pair of functions.
   */
  import opened Util

  datatype Zone = Zone(hourOf: int -> int, dayOf: int -> int, clockHour: int -> int)

  datatype Event =
    | PlanRequest(from: Option<Id>, to: Option<Id>, modeSet: Id)
    | ItinerarySelect(modeSet: Id, routeIds: seq<Id>)
    | SearchSelect(gh7: Option<Id>, resultType: Option<Id>, resultId: Option<Id>, caption: Option<Id>)
    | RouteView(routeId: Id)
    | LocateQuery(stopId: Id, routeId: Id)
    | StopView(stopId: Id)
    | BoardView(stopId: Id)
    | Handoff(providerId: Id, hadEstimate: bool)
    | AppOpen
    | GoStart
    | GoEnd(completed: bool)
    | Other

  datatype Row = Row(city: Id, at: int, receivedAt: int, session: Id, platform: Id, version: Id, event: Event)

  datatype Role = Origin | Destination | Search

  datatype Key =
    | OdHourly(hour: int, from: Id, to: Id)
    | PlaceHourly(hour: int, gh7: Id, role: Role)
    | RouteDaily(day: int, routeId: Id)
    | StopDaily(day: int, stopId: Id)
    | ModeDaily(day: int, modeSet: Id)
    | SearchDaily(day: int, resultType: Option<Id>, resultId: Option<Id>, caption: Option<Id>)
    | ProviderDaily(day: int, providerId: Id)
    | FunnelDaily(day: int)
    | HoursDaily(day: int, clockHour: int)
    | PlatformDaily(day: int, platform: Id, version: Id)

  datatype Field = Count | Views | Selects | Locates | Boards | Requests | Handoffs | HadEstimate
                 | Sessions | PlanRequests | ItinerarySelects | AppOpens | GoStarts | GoCompletions

  datatype Cell = Cell(key: Key, field: Field)

  type Counters = map<Cell, nat>

  predicate IsHourly(k: Key) {
    k.OdHourly? || k.PlaceHourly?
  }

  // ---- what one row adds ----

  function EventHits(z: Zone, r: Row): seq<Cell> {
    var hour := z.hourOf(r.at);
    var day := z.dayOf(hour);
    match r.event
    case PlanRequest(from, to, modes) =>
      (if from.Some? && to.Some? then
         [Cell(OdHourly(hour, from.value, to.value), Count), Cell(PlaceHourly(hour, from.value, Origin), Count),
          Cell(PlaceHourly(hour, to.value, Destination), Count)]
       else [])
      + [Cell(ModeDaily(day, modes), Requests), Cell(FunnelDaily(day), PlanRequests),
         Cell(HoursDaily(day, z.clockHour(hour)), Count)]
    case ItinerarySelect(modes, routes) =>
      [Cell(ModeDaily(day, modes), Selects), Cell(FunnelDaily(day), ItinerarySelects)]
      + seq(|routes|, i requires 0 <= i < |routes| => Cell(RouteDaily(day, routes[i]), Selects))
    case SearchSelect(gh7, t, i, caption) =>
      (if gh7.Some? then [Cell(PlaceHourly(hour, gh7.value, Search), Count)] else [])
      + [Cell(SearchDaily(day, t, i, caption), Count)]
    case RouteView(route) => [Cell(RouteDaily(day, route), Views)]
    case LocateQuery(stop, route) => [Cell(RouteDaily(day, route), Locates), Cell(StopDaily(day, stop), Locates)]
    case StopView(stop) => [Cell(StopDaily(day, stop), Views)]
    case BoardView(stop) => [Cell(StopDaily(day, stop), Boards)]
    case Handoff(p, estimated) =>
      [Cell(ProviderDaily(day, p), Handoffs)] + if estimated then [Cell(ProviderDaily(day, p), HadEstimate)] else []
    case AppOpen => [Cell(FunnelDaily(day), AppOpens)]
    case GoStart => [Cell(FunnelDaily(day), GoStarts)]
    case GoEnd(completed) => if completed then [Cell(FunnelDaily(day), GoCompletions)] else []
    case Other => []
  }

  function PlatformCell(day: int, r: Row): Cell {
    Cell(PlatformDaily(day, r.platform, r.version), Count)
  }

  function SessionCell(day: int): Cell {
    Cell(FunnelDaily(day), Sessions)
  }

  function Hits(z: Zone, r: Row): seq<Cell> {
    [PlatformCell(z.dayOf(z.hourOf(r.at)), r)] + EventHits(z, r)
  }

  // ---- all the rollup needs to know about them ----

  datatype Rules = Rules(hits: Row -> seq<Cell>, hourOf: Row -> int, dayOf: int -> int)

  function RulesIn(z: Zone): Rules {
    Rules((r: Row) => Hits(z, r), (r: Row) => z.hourOf(r.at), z.dayOf)
  }

  function HourOf(z: Rules, r: Row): int {
    z.hourOf(r)
  }

  function DayOf(z: Rules, r: Row): int {
    z.dayOf(z.hourOf(r))
  }

  /** A row only reaches cells of its own local day and, in the hourly tables, of its own local hour. */
  ghost predicate Local(z: Rules) {
    forall r, c :: c in z.hits(r) ==>
      && c.field != Sessions
      && if IsHourly(c.key) then c.key.hour == HourOf(z, r) else c.key.day == DayOf(z, r)
  }

  /** Every row counts in the daily platform table. */
  ghost predicate Covering(z: Rules) {
    forall r :: PlatformCell(DayOf(z, r), r) in z.hits(r)
  }

  lemma HitsAreLocal(z: Zone, r: Row, c: Cell)
    requires c in Hits(z, r)
    ensures c.field != Sessions
    ensures if IsHourly(c.key) then c.key.hour == z.hourOf(r.at) else c.key.day == z.dayOf(z.hourOf(r.at))
  {}

  lemma HitsCover(z: Zone, r: Row)
    ensures PlatformCell(z.dayOf(z.hourOf(r.at)), r) in Hits(z, r)
  {
    assert Hits(z, r)[0] == PlatformCell(z.dayOf(z.hourOf(r.at)), r);
  }

  lemma RulesAreLocal(z: Zone)
    ensures Local(RulesIn(z))
  {
    var rules := RulesIn(z);
    forall r, c | c in rules.hits(r)
      ensures c.field != Sessions
      ensures if IsHourly(c.key) then c.key.hour == HourOf(rules, r) else c.key.day == DayOf(rules, r)
    {
      HitsAreLocal(z, r, c);
    }
  }

  lemma RulesCover(z: Zone)
    ensures Covering(RulesIn(z))
  {
    forall r ensures PlatformCell(DayOf(RulesIn(z), r), r) in RulesIn(z).hits(r) {
      HitsCover(z, r);
    }
  }

  // ---- aggregation from scratch ----

  function Bump(t: Counters, c: Cell): Counters {
    t[c := (if c in t then t[c] else 0) + 1]
  }

  function BumpAll(t: Counters, cells: seq<Cell>, n: nat): Counters
    requires n <= |cells|
  {
    if n == 0 then t else Bump(BumpAll(t, cells, n - 1), cells[n - 1])
  }

  function Tally(z: Rules, rows: seq<Row>, n: nat): Counters
    requires n <= |rows|
  {
    if n == 0 then map[]
    else BumpAll(Tally(z, rows, n - 1), z.hits(rows[n - 1]), |z.hits(rows[n - 1])|)
  }

  function SeenOn(seen: map<int, set<Id>>, day: int): set<Id> {
    if day in seen then seen[day] else {}
  }

  function Seen(z: Rules, rows: seq<Row>, n: nat): map<int, set<Id>>
    requires n <= |rows|
  {
    if n == 0 then map[]
    else
      Mark(Seen(z, rows, n - 1), DayOf(z, rows[n - 1]), rows[n - 1].session)
  }

  function WithSessions(t: Counters, seen: map<int, set<Id>>): Counters {
    t + map day | day in seen :: SessionCell(day) := |seen[day]|
  }

  function AggregateOf(z: Rules, rows: seq<Row>, n: nat): Counters
    requires n <= |rows|
  {
    WithSessions(Tally(z, rows, n), Seen(z, rows, n))
  }

  function Aggregate(z: Rules, rows: seq<Row>): Counters {
    AggregateOf(z, rows, |rows|)
  }

  // ---- locality of a cell ----

  predicate Reaches(z: Rules, r: Row, c: Cell) {
    c in z.hits(r) || c == SessionCell(DayOf(z, r))
  }

  function Select(rows: seq<Row>, p: Row -> bool, n: nat): seq<Row>
    requires n <= |rows|
  {
    if n == 0 then []
    else if p(rows[n - 1]) then Select(rows, p, n - 1) + [rows[n - 1]]
    else Select(rows, p, n - 1)
  }

  lemma {:induction false} SelectHas(rows: seq<Row>, p: Row -> bool, n: nat, i: nat)
    requires i < n <= |rows| && p(rows[i])
    ensures rows[i] in Select(rows, p, n)
  {
    if i < n - 1 {
      SelectHas(rows, p, n - 1, i);
    }
  }

  lemma {:induction false} BumpMisses(t: Counters, cells: seq<Cell>, n: nat, c: Cell)
    requires n <= |cells| && c !in cells
    ensures Get(BumpAll(t, cells, n), c) == Get(t, c)
  {
    if n > 0 {
      BumpMisses(t, cells, n - 1, c);
    }
  }

  lemma {:induction false} BumpSame(t: Counters, u: Counters, cells: seq<Cell>, n: nat, c: Cell)
    requires n <= |cells| && Get(t, c) == Get(u, c)
    ensures Get(BumpAll(t, cells, n), c) == Get(BumpAll(u, cells, n), c)
  {
    if n > 0 {
      BumpSame(t, u, cells, n - 1, c);
    }
  }

  lemma {:induction false} FirstRowsOnly(z: Rules, a: seq<Row>, b: seq<Row>, n: nat)
    requires n <= |a| && n <= |b| && forall i :: 0 <= i < n ==> a[i] == b[i]
    ensures Tally(z, a, n) == Tally(z, b, n) && Seen(z, a, n) == Seen(z, b, n)
  {
    if n > 0 {
      FirstRowsOnly(z, a, b, n - 1);
    }
  }

  lemma {:induction false} TallyLocal(z: Rules, rows: seq<Row>, p: Row -> bool, n: nat, c: Cell)
    requires n <= |rows| && forall r :: Reaches(z, r, c) ==> p(r)
    ensures var s := Select(rows, p, n); Get(Tally(z, s, |s|), c) == Get(Tally(z, rows, n), c)
  {
    if n > 0 {
      TallyLocal(z, rows, p, n - 1, c);
      var s', r := Select(rows, p, n - 1), rows[n - 1];
      var hits := z.hits(r);
      if p(r) {
        FirstRowsOnly(z, s', s' + [r], |s'|);
        BumpSame(Tally(z, s', |s'|), Tally(z, rows, n - 1), hits, |hits|, c);
      } else {
        BumpMisses(Tally(z, rows, n - 1), hits, |hits|, c);
      }
    }
  }

  function Mark(seen: map<int, set<Id>>, day: int, session: Id): map<int, set<Id>> {
    seen[day := SeenOn(seen, day) + {session}]
  }

  lemma MarkLocal(a: map<int, set<Id>>, b: map<int, set<Id>>, d: int, session: Id, day: int)
    requires Get(a, day) == Get(b, day)
    ensures Get(Mark(a, d, session), day) == Get(Mark(b, d, session), day)
    ensures d != day ==> Get(Mark(b, d, session), day) == Get(b, day)
  {}

  lemma SeenSnoc(z: Rules, s: seq<Row>, r: Row)
    ensures Seen(z, s + [r], |s + [r]|) == Mark(Seen(z, s, |s|), DayOf(z, r), r.session)
  {
    FirstRowsOnly(z, s, s + [r], |s|);
  }

  lemma {:induction false} SeenLocal(z: Rules, rows: seq<Row>, p: Row -> bool, n: nat, day: int)
    requires n <= |rows| && forall r :: DayOf(z, r) == day ==> p(r)
    ensures var s := Select(rows, p, n); Get(Seen(z, s, |s|), day) == Get(Seen(z, rows, n), day)
  {
    if n > 0 {
      SeenLocal(z, rows, p, n - 1, day);
      var s, r := Select(rows, p, n - 1), rows[n - 1];
      MarkLocal(Seen(z, s, |s|), Seen(z, rows, n - 1), DayOf(z, r), r.session, day);
      if p(r) {
        SeenSnoc(z, s, r);
      }
    }
  }

  lemma {:induction false} SessionCellsApart(z: Rules, rows: seq<Row>, n: nat, day: int)
    requires Local(z)
    requires n <= |rows|
    ensures SessionCell(day) !in Tally(z, rows, n)
  {
    if n > 0 {
      SessionCellsApart(z, rows, n - 1, day);
      var hits := z.hits(rows[n - 1]);
      BumpMisses(Tally(z, rows, n - 1), hits, |hits|, SessionCell(day));
    }
  }

  /** The value of an aggregate cell, read off its two sources. */
  lemma CellValue(t: Counters, seen: map<int, set<Id>>, c: Cell)
    ensures Get(WithSessions(t, seen), c)
         == if c.key.FunnelDaily? && c.field == Sessions && c.key.day in seen
            then Some(|seen[c.key.day]|) else Get(t, c)
  {}

  /** A cell may be computed from any selection of rows that keeps everything reaching it. */
  lemma SelectionKeepsCell(z: Rules, rows: seq<Row>, p: Row -> bool, c: Cell)
    requires forall r :: Reaches(z, r, c) ==> p(r)
    ensures Get(Aggregate(z, Select(rows, p, |rows|)), c) == Get(Aggregate(z, rows), c)
  {
    var s := Select(rows, p, |rows|);
    TallyLocal(z, rows, p, |rows|, c);
    CellValue(Tally(z, s, |s|), Seen(z, s, |s|), c);
    CellValue(Tally(z, rows, |rows|), Seen(z, rows, |rows|), c);
    if c.key.FunnelDaily? && c.field == Sessions {
      SeenLocal(z, rows, p, |rows|, c.key.day);
    }
  }

  lemma {:induction false} UnreachedTally(z: Rules, rows: seq<Row>, n0: nat, n: nat, c: Cell)
    requires n0 <= n <= |rows| && forall i :: n0 <= i < n ==> !Reaches(z, rows[i], c)
    ensures Get(Tally(z, rows, n), c) == Get(Tally(z, rows, n0), c)
    ensures c.key.FunnelDaily? && c.field == Sessions ==>
              Get(Seen(z, rows, n), c.key.day) == Get(Seen(z, rows, n0), c.key.day)
  {
    if n > n0 {
      UnreachedTally(z, rows, n0, n - 1, c);
      var hits := z.hits(rows[n - 1]);
      BumpMisses(Tally(z, rows, n - 1), hits, |hits|, c);
    }
  }

  /** Rows that do not reach a cell leave it alone. */
  lemma UnreachedCell(z: Rules, rows: seq<Row>, n0: nat, c: Cell)
    requires n0 <= |rows| && forall i :: n0 <= i < |rows| ==> !Reaches(z, rows[i], c)
    ensures Get(Aggregate(z, rows), c) == Get(AggregateOf(z, rows, n0), c)
  {
    UnreachedTally(z, rows, n0, |rows|, c);
    CellValue(Tally(z, rows, n0), Seen(z, rows, n0), c);
    CellValue(Tally(z, rows, |rows|), Seen(z, rows, |rows|), c);
  }

  function ValueAt(t: Counters, c: Cell): nat {
    if c in t then t[c] else 0
  }

  lemma {:induction false} BumpGrows(t: Counters, cells: seq<Cell>, n: nat, c: Cell)
    requires n <= |cells|
    ensures ValueAt(BumpAll(t, cells, n), c) >= ValueAt(t, c) + if c in cells[..n] then 1 else 0
  {
    if n > 0 {
      BumpGrows(t, cells, n - 1, c);
      assert cells[..n] == cells[..n - 1] + [cells[n - 1]];
    }
  }

  lemma {:induction false} TallyGrows(z: Rules, rows: seq<Row>, n0: nat, n: nat, c: Cell, k: nat)
    requires n0 <= k < n <= |rows| && c in z.hits(rows[k])
    ensures ValueAt(Tally(z, rows, n), c) > ValueAt(Tally(z, rows, n0), c)
  {
    var hits := z.hits(rows[n - 1]);
    BumpGrows(Tally(z, rows, n - 1), hits, |hits|, c);
    assert hits[..|hits|] == hits;
    if k < n - 1 {
      TallyGrows(z, rows, n0, n - 1, c, k);
    } else {
      TallyNeverShrinks(z, rows, n0, n - 1, c);
    }
  }

  lemma {:induction false} TallyNeverShrinks(z: Rules, rows: seq<Row>, n0: nat, n: nat, c: Cell)
    requires n0 <= n <= |rows|
    ensures ValueAt(Tally(z, rows, n), c) >= ValueAt(Tally(z, rows, n0), c)
  {
    if n0 < n {
      var hits := z.hits(rows[n - 1]);
      BumpGrows(Tally(z, rows, n - 1), hits, |hits|, c);
      TallyNeverShrinks(z, rows, n0, n - 1, c);
    }
  }

  // ---- the rollup of one city ----

  predicate Above(wm: Option<int>, r: Row) {
    wm.None? || r.receivedAt > wm.value
  }

  function DaysOf(z: Rules, rows: seq<Row>): set<int> {
    set i | 0 <= i < |rows| :: DayOf(z, rows[i])
  }

  function HoursOf(z: Rules, rows: seq<Row>): set<int> {
    set i | 0 <= i < |rows| :: HourOf(z, rows[i])
  }

  predicate Touched(days: set<int>, hours: set<int>, k: Key) {
    if IsHourly(k) then k.hour in hours else k.day in days
  }

  function Splice(aggs: Counters, fresh_: Counters, days: set<int>, hours: set<int>): Counters {
    (map c | c in aggs && !Touched(days, hours, c.key) :: aggs[c])
    + (map c | c in fresh_ && Touched(days, hours, c.key) :: fresh_[c])
  }

  function NewRows(rows: seq<Row>, wm: Option<int>): seq<Row> {
    Select(rows, r => Above(wm, r), |rows|)
  }

  /** `rows` are the city's raw rows. */
  function RolledUp(z: Rules, rows: seq<Row>, wm: Option<int>, aggs: Counters): Counters {
    var days, hours := DaysOf(z, NewRows(rows, wm)), HoursOf(z, NewRows(rows, wm));
    Splice(aggs, Aggregate(z, Select(rows, r => DayOf(z, r) in days, |rows|)), days, hours)
  }

  function LatestOf(rows: seq<Row>, n: nat): int
    requires 0 < n <= |rows|
  {
    if n == 1 then rows[0].receivedAt else Max(LatestOf(rows, n - 1), rows[n - 1].receivedAt)
  }

  function NextMark(rows: seq<Row>, wm: Option<int>): Option<int> {
    var fresh_ := NewRows(rows, wm);
    if fresh_ == [] then wm else Some(LatestOf(fresh_, |fresh_|))
  }

  /** Every table the row counts in is recomputed: its day, and its hour too when it has a place. */
  predicate Rescued(z: Rules, rows: seq<Row>, wm: Option<int>, r: Row) {
    && DayOf(z, r) in DaysOf(z, NewRows(rows, wm))
    && ((exists c :: c in z.hits(r) && IsHourly(c.key)) ==> HourOf(z, r) in HoursOf(z, NewRows(rows, wm)))
  }

  lemma NewRowsTouch(z: Rules, rows: seq<Row>, wm: Option<int>, i: nat)
    requires i < |rows| && Above(wm, rows[i])
    ensures DayOf(z, rows[i]) in DaysOf(z, NewRows(rows, wm)) && HourOf(z, rows[i]) in HoursOf(z, NewRows(rows, wm))
  {
    SelectHas(rows, r => Above(wm, r), |rows|, i);
  }

  lemma TouchedDay(z: Rules, rows: seq<Row>, wm: Option<int>, c: Cell, r: Row)
    requires Local(z)
    requires Reaches(z, r, c)
    requires Touched(DaysOf(z, NewRows(rows, wm)), HoursOf(z, NewRows(rows, wm)), c.key)
    ensures DayOf(z, r) in DaysOf(z, NewRows(rows, wm))
  {
    var s := NewRows(rows, wm);
    if IsHourly(c.key) {
      var i :| 0 <= i < |s| && HourOf(z, s[i]) == c.key.hour;
      assert DayOf(z, s[i]) == DayOf(z, r);
    }
  }

  lemma RolledUpCell(z: Rules, rows: seq<Row>, wm: Option<int>, aggs: Counters, c: Cell)
    requires Local(z)
    ensures Get(RolledUp(z, rows, wm, aggs), c)
         == if Touched(DaysOf(z, NewRows(rows, wm)), HoursOf(z, NewRows(rows, wm)), c.key)
            then Get(Aggregate(z, rows), c) else Get(aggs, c)
  {
    var days, hours := DaysOf(z, NewRows(rows, wm)), HoursOf(z, NewRows(rows, wm));
    if Touched(days, hours, c.key) {
      forall r | Reaches(z, r, c) ensures DayOf(z, r) in days {
        TouchedDay(z, rows, wm, c, r);
      }
      SelectionKeepsCell(z, rows, r => DayOf(z, r) in days, c);
    }
  }

  /**
   A rollup of aggregates that were right for the first `n0` rows is right for all of them exactly
   when every later row that is not above the watermark is rescued by one that is.
   */
  lemma RollupIsExact(z: Rules, rows: seq<Row>, n0: nat, wm: Option<int>, aggs: Counters)
    requires Local(z) && Covering(z)
    requires n0 <= |rows| && aggs == AggregateOf(z, rows, n0)
    ensures RolledUp(z, rows, wm, aggs) == Aggregate(z, rows) <==>
            forall i :: n0 <= i < |rows| && !Above(wm, rows[i]) ==> Rescued(z, rows, wm, rows[i])
  {
    if forall i :: n0 <= i < |rows| && !Above(wm, rows[i]) ==> Rescued(z, rows, wm, rows[i]) {
      RescuedIsEnough(z, rows, n0, wm, aggs);
    }
    if RolledUp(z, rows, wm, aggs) == Aggregate(z, rows) {
      forall i | n0 <= i < |rows| && !Above(wm, rows[i]) ensures Rescued(z, rows, wm, rows[i]) {
        RescuedIsNeeded(z, rows, n0, wm, aggs, i);
      }
    }
  }

  lemma RescuedIsEnough(z: Rules, rows: seq<Row>, n0: nat, wm: Option<int>, aggs: Counters)
    requires Local(z)
    requires n0 <= |rows| && aggs == AggregateOf(z, rows, n0)
    requires forall i :: n0 <= i < |rows| && !Above(wm, rows[i]) ==> Rescued(z, rows, wm, rows[i])
    ensures RolledUp(z, rows, wm, aggs) == Aggregate(z, rows)
  {
    var got, want := RolledUp(z, rows, wm, aggs), Aggregate(z, rows);
    forall c ensures Get(got, c) == Get(want, c) {
      RolledUpCell(z, rows, wm, aggs, c);
      if !Touched(DaysOf(z, NewRows(rows, wm)), HoursOf(z, NewRows(rows, wm)), c.key) {
        forall i | n0 <= i < |rows| ensures !Reaches(z, rows[i], c) {
          UntouchedUnreached(z, rows, wm, c, i);
        }
        UnreachedCell(z, rows, n0, c);
      }
    }
    SameCells(got, want);
  }

  lemma UntouchedUnreached(z: Rules, rows: seq<Row>, wm: Option<int>, c: Cell, i: nat)
    requires Local(z) && i < |rows|
    requires Above(wm, rows[i]) || Rescued(z, rows, wm, rows[i])
    requires !Touched(DaysOf(z, NewRows(rows, wm)), HoursOf(z, NewRows(rows, wm)), c.key)
    ensures !Reaches(z, rows[i], c)
  {
    if Above(wm, rows[i]) { NewRowsTouch(z, rows, wm, i); }
  }

  lemma SameCells(a: Counters, b: Counters)
    requires forall c :: Get(a, c) == Get(b, c)
    ensures a == b
  {
    forall c ensures c in a <==> c in b { assert Get(a, c) == Get(b, c); }
    forall c | c in a ensures a[c] == b[c] { assert Get(a, c) == Get(b, c); }
  }

  lemma RescuedIsNeeded(z: Rules, rows: seq<Row>, n0: nat, wm: Option<int>, aggs: Counters, i: nat)
    requires Local(z) && Covering(z)
    requires n0 <= i < |rows| && aggs == AggregateOf(z, rows, n0)
    requires RolledUp(z, rows, wm, aggs) == Aggregate(z, rows)
    ensures Rescued(z, rows, wm, rows[i])
  {
    forall c | c in z.hits(rows[i])
      ensures Touched(DaysOf(z, NewRows(rows, wm)), HoursOf(z, NewRows(rows, wm)), c.key)
    {
      if !Touched(DaysOf(z, NewRows(rows, wm)), HoursOf(z, NewRows(rows, wm)), c.key) {
        RolledUpCell(z, rows, wm, aggs, c);
        LaterHitShows(z, rows, n0, i, c);
        assert false;
      }
    }
    assert PlatformCell(DayOf(z, rows[i]), rows[i]) in z.hits(rows[i]);
  }

  /** A row always shows in the counters it hits. */
  lemma LaterHitShows(z: Rules, rows: seq<Row>, n0: nat, i: nat, c: Cell)
    requires Local(z) && n0 <= i < |rows| && c in z.hits(rows[i])
    ensures Get(Aggregate(z, rows), c) != Get(AggregateOf(z, rows, n0), c)
  {
    TallyGrows(z, rows, n0, |rows|, c, i);
    CellValue(Tally(z, rows, n0), Seen(z, rows, n0), c);
    CellValue(Tally(z, rows, |rows|), Seen(z, rows, |rows|), c);
  }
}
