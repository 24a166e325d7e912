module AnalyticsStore {
  /** The in-memory analytics store, and every interleaving of its inserts and rollups. */
  import opened Util
  import opened Analytics

  function RowsOf(rows: seq<Row>, city: Id): seq<Row> {
    Select(rows, (r: Row) => r.city == city, |rows|)
  }

  datatype Store = Store(rows: seq<Row>, aggs: map<Id, Counters>, marks: map<Id, int>)

  const EMPTY := Store([], map[], map[])

  function TablesOf(s: Store, city: Id): Counters {
    if city in s.aggs then s.aggs[city] else map[]
  }

  function Insert(s: Store, batch: seq<Row>): Store {
    s.(rows := s.rows + batch)
  }

  function Rollup(z: Rules, s: Store, city: Id): Store {
    var mine, wm := RowsOf(s.rows, city), Get(s.marks, city);
    if NewRows(mine, wm) == [] then s
    else Settle(s, city, RolledUp(z, mine, wm, TablesOf(s, city)), NextMark(mine, wm).value)
  }

  function Settle(s: Store, city: Id, tables: Counters, mark: int): Store {
    Store(s.rows, s.aggs[city := tables], s.marks[city := mark])
  }

  /** The clock rule: a row is inserted with a reception time above the mark its city's last rollup left. */
  predicate Punctual(s: Store, batch: seq<Row>) {
    forall i :: 0 <= i < |batch| && batch[i].city in s.marks ==> batch[i].receivedAt > s.marks[batch[i].city]
  }

  /** The tables cover the first `n0` of the city's rows, and the mark separates those from the rest. */
  ghost predicate Covers(z: Rules, mine: seq<Row>, wm: Option<int>, tables: Counters, n0: nat) {
    && n0 <= |mine|
    && tables == AggregateOf(z, mine, n0)
    && (forall i :: 0 <= i < n0 ==> !Above(wm, mine[i]))
    && (forall i :: n0 <= i < |mine| ==> Above(wm, mine[i]))
  }

  ghost predicate Synced(z: Rules, s: Store, city: Id) {
    exists n0 :: Covers(z, RowsOf(s.rows, city), Get(s.marks, city), TablesOf(s, city), n0)
  }

  // ---- facts about the parts ----

  lemma {:induction false} SelectPrefix(a: seq<Row>, b: seq<Row>, p: Row -> bool, n: nat)
    requires n <= |a|
    ensures Select(a + b, p, n) == Select(a, p, n)
  {
    if n > 0 {
      SelectPrefix(a, b, p, n - 1);
    }
  }

  lemma {:induction false} SelectAppend(a: seq<Row>, b: seq<Row>, p: Row -> bool, k: nat)
    requires k <= |b|
    ensures Select(a + b, p, |a| + k) == Select(a, p, |a|) + Select(b, p, k)
  {
    if k == 0 {
      SelectPrefix(a, b, p, |a|);
    } else {
      SelectAppend(a, b, p, k - 1);
    }
  }

  lemma {:induction false} SelectFrom(rows: seq<Row>, p: Row -> bool, n: nat, i: nat)
    requires n <= |rows| && i < |Select(rows, p, n)|
    ensures p(Select(rows, p, n)[i]) && Select(rows, p, n)[i] in rows
  {
    if i < |Select(rows, p, n - 1)| {
      SelectFrom(rows, p, n - 1, i);
    }
  }

  lemma {:induction false} LatestBounds(rows: seq<Row>, n: nat, i: nat)
    requires i < n <= |rows|
    ensures rows[i].receivedAt <= LatestOf(rows, n)
  {
    if i < n - 1 {
      LatestBounds(rows, n - 1, i);
    }
  }

  lemma NothingNewNothingChanged(z: Rules, rows: seq<Row>, wm: Option<int>, aggs: Counters)
    requires Local(z) && NewRows(rows, wm) == []
    ensures RolledUp(z, rows, wm, aggs) == aggs
  {
    forall c ensures Get(RolledUp(z, rows, wm, aggs), c) == Get(aggs, c) {
      RolledUpCell(z, rows, wm, aggs, c);
    }
    SameCells(RolledUp(z, rows, wm, aggs), aggs);
  }

  /** After a rollup nothing is above the mark any more. */
  lemma MarkCatchesUp(rows: seq<Row>, wm: Option<int>, i: nat)
    requires i < |rows|
    ensures !Above(NextMark(rows, wm), rows[i])
  {
    var new_ := NewRows(rows, wm);
    if Above(wm, rows[i]) {
      SelectHas(rows, r => Above(wm, r), |rows|, i);
      var k :| 0 <= k < |new_| && new_[k] == rows[i];
      LatestBounds(new_, |new_|, k);
    } else if new_ != [] {
      SelectFrom(rows, r => Above(wm, r), |rows|, 0);
      LatestBounds(new_, |new_|, 0);
    }
  }

  // ---- one step ----

  lemma RowsOfAppend(a: seq<Row>, b: seq<Row>, city: Id)
    ensures RowsOf(a + b, city) == RowsOf(a, city) + RowsOf(b, city)
  {
    SelectAppend(a, b, (r: Row) => r.city == city, |b|);
  }

  lemma CoversMore(z: Rules, mine: seq<Row>, more: seq<Row>, wm: Option<int>, tables: Counters, n0: nat)
    requires Covers(z, mine, wm, tables, n0) && forall i :: 0 <= i < |more| ==> Above(wm, more[i])
    ensures Covers(z, mine + more, wm, tables, n0)
  {
    FirstRowsOnly(z, mine, mine + more, n0);
  }

  lemma InsertKeepsSynced(z: Rules, s: Store, batch: seq<Row>, city: Id)
    requires Synced(z, s, city) && Punctual(s, batch)
    ensures Synced(z, Insert(s, batch), city)
  {
    var mine, more, wm := RowsOf(s.rows, city), RowsOf(batch, city), Get(s.marks, city);
    var n0 :| Covers(z, mine, wm, TablesOf(s, city), n0);
    forall i | 0 <= i < |more| ensures Above(wm, more[i]) {
      SelectFrom(batch, (r: Row) => r.city == city, |batch|, i);
    }
    CoversMore(z, mine, more, wm, TablesOf(s, city), n0);
    RowsOfAppend(s.rows, batch, city);
    var s' := Insert(s, batch);
    assert Covers(z, RowsOf(s'.rows, city), Get(s'.marks, city), TablesOf(s', city), n0);
  }

  lemma RollupParts(z: Rules, s: Store, city: Id)
    requires Local(z)
    ensures var mine, wm, s' := RowsOf(s.rows, city), Get(s.marks, city), Rollup(z, s, city);
            && s'.rows == s.rows
            && TablesOf(s', city) == RolledUp(z, mine, wm, TablesOf(s, city))
            && Get(s'.marks, city) == NextMark(mine, wm)
  {
    hide RolledUp, NewRows, RowsOf, LatestOf, Local;
    var mine, wm := RowsOf(s.rows, city), Get(s.marks, city);
    if NewRows(mine, wm) == [] {
      NothingNewNothingChanged(z, mine, wm, TablesOf(s, city));
    }
  }

  /** A rollup brings its own city's tables to the aggregate of all its raw rows. */
  lemma RollupSyncs(z: Rules, s: Store, city: Id)
    requires Local(z) && Covering(z) && Synced(z, s, city)
    ensures TablesOf(Rollup(z, s, city), city) == Aggregate(z, RowsOf(s.rows, city))
    ensures Synced(z, Rollup(z, s, city), city)
  {
    var mine, wm := RowsOf(s.rows, city), Get(s.marks, city);
    var n0 :| Covers(z, mine, wm, TablesOf(s, city), n0);
    RollupIsExact(z, mine, n0, wm, TablesOf(s, city));
    RollupParts(z, s, city);
    forall i | 0 <= i < |mine| ensures !Above(NextMark(mine, wm), mine[i]) {
      MarkCatchesUp(mine, wm, i);
    }
    assert Covers(z, mine, NextMark(mine, wm), Aggregate(z, mine), |mine|);
  }

  lemma RollupElsewhere(z: Rules, s: Store, city: Id, other: Id)
    requires city != other
    ensures var s' := Rollup(z, s, other);
            s'.rows == s.rows && TablesOf(s', city) == TablesOf(s, city) && Get(s'.marks, city) == Get(s.marks, city)
  {
    hide RolledUp, NextMark, NewRows, RowsOf;
  }

  // ---- every interleaving ----

  datatype Step = Inserted(batch: seq<Row>) | Rolled(city: Id)

  function Apply(zones: Id -> Rules, s: Store, step: Step): Store {
    match step
    case Inserted(batch) => Insert(s, batch)
    case Rolled(city) => Rollup(zones(city), s, city)
  }

  function Run(zones: Id -> Rules, steps: seq<Step>, n: nat): Store
    requires n <= |steps|
  {
    if n == 0 then EMPTY else Apply(zones, Run(zones, steps, n - 1), steps[n - 1])
  }

  ghost predicate Sound(zones: Id -> Rules) {
    forall city :: Local(zones(city)) && Covering(zones(city))
  }

  /** The event tables of any time zones are such rules. */
  lemma TimeZonesAreSound(zones: Id -> Zone)
    ensures Sound(city => RulesIn(zones(city)))
  {
    forall city ensures Local(RulesIn(zones(city))) && Covering(RulesIn(zones(city))) {
      RulesAreLocal(zones(city));
      RulesCover(zones(city));
    }
  }

  predicate OnTime(zones: Id -> Rules, steps: seq<Step>, n: nat)
    requires n <= |steps|
  {
    n == 0 ||
    (OnTime(zones, steps, n - 1) &&
     (steps[n - 1].Inserted? ==> Punctual(Run(zones, steps, n - 1), steps[n - 1].batch)))
  }

  lemma {:induction false} RunStaysSynced(zones: Id -> Rules, steps: seq<Step>, n: nat, city: Id)
    requires Sound(zones) && n <= |steps| && OnTime(zones, steps, n)
    ensures Synced(zones(city), Run(zones, steps, n), city)
  {
    if n == 0 {
      StartsSynced(zones(city), city);
    } else {
      RunStaysSynced(zones, steps, n - 1, city);
      StepStaysSynced(zones, Run(zones, steps, n - 1), steps[n - 1], city);
    }
  }

  lemma StepStaysSynced(zones: Id -> Rules, s: Store, step: Step, city: Id)
    requires Sound(zones) && Synced(zones(city), s, city)
    requires step.Inserted? ==> Punctual(s, step.batch)
    ensures Synced(zones(city), Apply(zones, s, step), city)
  {
    match step
    case Inserted(batch) => InsertKeepsSynced(zones(city), s, batch, city);
    case Rolled(other) => RolledStaysSynced(zones, s, city, other);
  }

  lemma StartsSynced(z: Rules, city: Id)
    ensures Synced(z, EMPTY, city)
  {
    assert AggregateOf(z, [], 0) == map[];
    assert Covers(z, RowsOf(EMPTY.rows, city), Get(EMPTY.marks, city), TablesOf(EMPTY, city), 0);
  }

  lemma RolledStaysSynced(zones: Id -> Rules, s: Store, city: Id, other: Id)
    requires Sound(zones) && Synced(zones(city), s, city)
    ensures Synced(zones(city), Rollup(zones(other), s, other), city)
  {
    if other == city {
      RollupSyncs(zones(city), s, city);
    } else {
      RollupElsewhere(zones(other), s, city, other);
    }
  }

  /**
   Whatever the schedule of inserts and rollups, of this and of other cities: after a rollup the
   city's tables are the aggregate of all of its raw rows. So they do not depend on the schedule.
   */
  lemma RollupsAgreeWithScratch(zones: Id -> Rules, steps: seq<Step>, n: nat, city: Id)
    requires 0 < n <= |steps| && Sound(zones) && OnTime(zones, steps, n) && steps[n - 1] == Rolled(city)
    ensures TablesOf(Run(zones, steps, n), city) == Aggregate(zones(city), RowsOf(Run(zones, steps, n).rows, city))
  {
    hide Rollup, RowsOf, TablesOf, Aggregate, Local, Covering, Synced;
    var s := Run(zones, steps, n - 1);
    RunStaysSynced(zones, steps, n - 1, city);
    RollupSyncs(zones(city), s, city);
    RollupParts(zones(city), s, city);
    assert Run(zones, steps, n) == Rollup(zones(city), s, city);
  }

  // ---- every run, late rows included ----

  predicate TouchedIn(z: Rules, s: Store, city: Id, key: Key) {
    var fresh_ := NewRows(RowsOf(s.rows, city), Get(s.marks, city));
    Touched(DaysOf(z, fresh_), HoursOf(z, fresh_), key)
  }

  /** How many of the city's rows there were at the last rollup that recomputed the table row of `key`. */
  function SeenBy(zones: Id -> Rules, steps: seq<Step>, n: nat, city: Id, key: Key): nat
    requires n <= |steps|
  {
    if n == 0 then 0
    else
      var s := Run(zones, steps, n - 1);
      if steps[n - 1] == Rolled(city) && TouchedIn(zones(city), s, city, key) then |RowsOf(s.rows, city)|
      else SeenBy(zones, steps, n - 1, city, key)
  }

  /** The counter is that of the first `k` rows. */
  ghost predicate CellOfFirst(z: Rules, s: Store, city: Id, c: Cell, k: nat) {
    var mine := RowsOf(s.rows, city);
    k <= |mine| && Get(TablesOf(s, city), c) == Get(AggregateOf(z, mine, k), c)
  }

  lemma InsertKeepsCell(z: Rules, s: Store, batch: seq<Row>, city: Id, c: Cell, k: nat)
    requires CellOfFirst(z, s, city, c, k)
    ensures CellOfFirst(z, Insert(s, batch), city, c, k)
  {
    hide RowsOf;
    RowsOfAppend(s.rows, batch, city);
    FirstRowsOnly(z, RowsOf(s.rows, city), RowsOf(s.rows + batch, city), k);
  }

  lemma RollupSetsCell(z: Rules, s: Store, city: Id, c: Cell, k: nat)
    requires Local(z) && CellOfFirst(z, s, city, c, k)
    ensures CellOfFirst(z, Rollup(z, s, city), city, c,
                        if TouchedIn(z, s, city, c.key) then |RowsOf(s.rows, city)| else k)
  {
    hide RowsOf, Rollup, RolledUp, NewRows, TablesOf, Local, DaysOf, HoursOf, Touched;
    RollupParts(z, s, city);
    RolledUpCell(z, RowsOf(s.rows, city), Get(s.marks, city), TablesOf(s, city), c);
  }

  /** In every run each counter is that of the rows its table row has seen. */
  lemma {:induction false} RunCells(zones: Id -> Rules, steps: seq<Step>, n: nat, city: Id, c: Cell)
    requires Sound(zones) && n <= |steps|
    ensures CellOfFirst(zones(city), Run(zones, steps, n), city, c, SeenBy(zones, steps, n, city, c.key))
  {
    hide CellOfFirst, Insert, Rollup, TouchedIn, RowsOf, Local, Covering;
    if n == 0 {
      NoCells(zones(city), city, c);
    } else {
      RunCells(zones, steps, n - 1, city, c);
      var s, k := Run(zones, steps, n - 1), SeenBy(zones, steps, n - 1, city, c.key);
      match steps[n - 1]
      case Inserted(batch) => InsertKeepsCell(zones(city), s, batch, city, c, k);
      case Rolled(other) =>
        if other == city {
          RollupSetsCell(zones(city), s, city, c, k);
        } else {
          RollupElsewhereCell(zones(other), zones(city), s, city, other, c, k);
        }
    }
  }

  lemma NoCells(z: Rules, city: Id, c: Cell)
    ensures CellOfFirst(z, EMPTY, city, c, 0)
  {
    assert AggregateOf(z, [], 0) == map[];
  }

  lemma RollupElsewhereCell(z: Rules, mine: Rules, s: Store, city: Id, other: Id, c: Cell, k: nat)
    requires city != other && CellOfFirst(mine, s, city, c, k)
    ensures CellOfFirst(mine, Rollup(z, s, other), city, c, k)
  {
    hide Rollup, RowsOf, TablesOf;
    RollupElsewhere(z, s, city, other);
  }

  /** The daily tables are recomputed together. */
  lemma {:induction false} SeenDaily(zones: Id -> Rules, steps: seq<Step>, n: nat, city: Id, a: Key, b: Key)
    requires n <= |steps| && !IsHourly(a) && !IsHourly(b) && a.day == b.day
    ensures SeenBy(zones, steps, n, city, a) == SeenBy(zones, steps, n, city, b)
  {
    hide Run, RowsOf, NewRows, DaysOf, HoursOf;
    if n > 0 {
      SeenDaily(zones, steps, n - 1, city, a, b);
    }
  }

  /** No row has come to a counter since its table row was last recomputed. */
  ghost predicate AllSeen(zones: Id -> Rules, steps: seq<Step>, n: nat, city: Id)
    requires n <= |steps|
  {
    var mine := RowsOf(Run(zones, steps, n).rows, city);
    forall i, c :: 0 <= i < |mine| && c in zones(city).hits(mine[i]) ==> i < SeenBy(zones, steps, n, city, c.key)
  }

  lemma SeenUnreached(zones: Id -> Rules, steps: seq<Step>, n: nat, city: Id, c: Cell, i: nat)
    requires Sound(zones) && n <= |steps| && AllSeen(zones, steps, n, city)
    requires var mine := RowsOf(Run(zones, steps, n).rows, city); i < |mine| && Reaches(zones(city), mine[i], c)
    ensures i < SeenBy(zones, steps, n, city, c.key)
  {
    hide Run, RowsOf, SeenBy;
    var z, r := zones(city), RowsOf(Run(zones, steps, n).rows, city)[i];
    if c !in z.hits(r) {
      var platform := PlatformCell(DayOf(z, r), r);
      assert platform in z.hits(r);
      SeenDaily(zones, steps, n, city, c.key, platform.key);
    }
  }

  /**
   In every run, late rows and all, the city's tables are the aggregate of its raw rows exactly when every counter a
   row reaches was recomputed after the row came in. So a later rollup that touches the day, and the hour, heals them.
   */
  lemma TablesRightExactly(zones: Id -> Rules, steps: seq<Step>, n: nat, city: Id)
    requires Sound(zones) && n <= |steps|
    ensures var s := Run(zones, steps, n);
            TablesOf(s, city) == Aggregate(zones(city), RowsOf(s.rows, city)) <==> AllSeen(zones, steps, n, city)
  {
    hide Run, RowsOf, TablesOf, SeenBy, Local, Covering, AggregateOf, Reaches;
    var s, z := Run(zones, steps, n), zones(city);
    var mine := RowsOf(s.rows, city);
    assert Local(z) && Covering(z);
    if AllSeen(zones, steps, n, city) {
      forall c ensures Get(TablesOf(s, city), c) == Get(Aggregate(z, mine), c) {
        RunCells(zones, steps, n, city, c);
        var k := SeenBy(zones, steps, n, city, c.key);
        forall i: nat | k <= i < |mine| ensures !Reaches(z, mine[i], c) {
          if Reaches(z, mine[i], c) { SeenUnreached(zones, steps, n, city, c, i); }
        }
        UnreachedCell(z, mine, k, c);
      }
      SameCells(TablesOf(s, city), Aggregate(z, mine));
    }
    if TablesOf(s, city) == Aggregate(z, mine) {
      forall i, c | 0 <= i < |mine| && c in z.hits(mine[i]) ensures i < SeenBy(zones, steps, n, city, c.key) {
        RunCells(zones, steps, n, city, c);
        var k := SeenBy(zones, steps, n, city, c.key);
        if k <= i { LaterHitShows(z, mine, k, i, c); }
      }
    }
  }

  /** Rolling up twice in a row changes nothing. */
  lemma RollupIsIdempotent(z: Rules, s: Store, city: Id)
    ensures Rollup(z, Rollup(z, s, city), city) == Rollup(z, s, city)
  {
    var mine, wm := RowsOf(s.rows, city), Get(s.marks, city);
    var again := NewRows(mine, NextMark(mine, wm));
    if again != [] {
      SelectFrom(mine, r => Above(NextMark(mine, wm), r), |mine|, 0);
      var i :| 0 <= i < |mine| && mine[i] == again[0];
      MarkCatchesUp(mine, wm, i);
    }
  }

  /** A row that arrives with a stale reception time on a quiet day is missing from every table. */
  lemma LateRowIsLost(z: Rules, s: Store, city: Id, row: Row)
    requires Local(z) && Covering(z) && row.city == city && city in s.marks && row.receivedAt <= s.marks[city]
    requires TablesOf(s, city) == Aggregate(z, RowsOf(s.rows, city))
    requires NewRows(RowsOf(s.rows, city), Get(s.marks, city)) == []
    ensures var s' := Rollup(z, Insert(s, [row]), city);
            TablesOf(s', city) != Aggregate(z, RowsOf(s'.rows, city))
  {
    var p := (r: Row) => r.city == city;
    var mine, wm := RowsOf(s.rows, city), Get(s.marks, city);
    SelectAppend(s.rows, [row], p, 1);
    assert Select([row], p, 1) == [row] by { assert Select([row], p, 0) == []; }
    var all := mine + [row];
    assert RowsOf(s.rows + [row], city) == all;
    SelectPrefix(mine, [row], (r: Row) => Above(wm, r), |mine|);
    assert NewRows(all, wm) == Select(all, (r: Row) => Above(wm, r), |mine|);
    assert NewRows(all, wm) == [];
    FirstRowsOnly(z, mine, all, |mine|);
    RollupIsExact(z, all, |mine|, wm, TablesOf(s, city));
    assert all[|mine|] == row && !Rescued(z, all, wm, row);
    NothingNewNothingChanged(z, all, wm, TablesOf(s, city));
  }

  // ---- the store itself ----

  method CountHits(before: Counters, hits: seq<Cell>) returns (t: Counters)
    ensures t == BumpAll(before, hits, |hits|)
  {
    t := before;
    for k := 0 to |hits|
      invariant t == BumpAll(before, hits, k)
    {
      t := t[hits[k] := (if hits[k] in t then t[hits[k]] else 0) + 1];
    }
  }

  method AggregateRows(z: Rules, rows: seq<Row>) returns (t: Counters)
    ensures t == Aggregate(z, rows)
  {
    hide BumpAll, Mark, WithSessions;
    t := map[];
    var sessions: map<int, set<Id>> := map[];
    for i := 0 to |rows|
      invariant t == Tally(z, rows, i) && sessions == Seen(z, rows, i)
    {
      var r := rows[i];
      var day := DayOf(z, r);
      sessions := Mark(sessions, day, r.session);
      t := CountHits(t, z.hits(r));
    }
    t := WithSessions(t, sessions);
  }

  method TouchedBy(z: Rules, rows: seq<Row>) returns (days: set<int>, hours: set<int>)
    ensures days == DaysOf(z, rows) && hours == HoursOf(z, rows)
  {
    days, hours := {}, {};
    for i := 0 to |rows|
      invariant days == set k | 0 <= k < i :: DayOf(z, rows[k])
      invariant hours == set k | 0 <= k < i :: HourOf(z, rows[k])
    {
      days, hours := days + {DayOf(z, rows[i])}, hours + {HourOf(z, rows[i])};
    }
  }

  class MemoryAnalyticsStore {
    var rows: seq<Row>
    var aggs: map<Id, Counters>
    var watermark: map<Id, int>

    constructor ()
      ensures State() == EMPTY
    {
      rows, aggs, watermark := [], map[], map[];
    }

    ghost function State(): Store
      reads this
    {
      Store(rows, aggs, watermark)
    }

    method InsertRows(batch: seq<Row>) returns (n: nat)
      modifies this`rows
      ensures n == |batch| && State() == Insert(old(State()), batch)
    {
      rows := rows + batch;
      n := |batch|;
    }

    method RollUp(city: Id, z: Rules) returns (events: nat)
      modifies this`aggs, this`watermark
      ensures State() == Rollup(z, old(State()), city)
      ensures events == |NewRows(RowsOf(rows, city), Get(old(watermark), city))|
    {
      var wm := Get(watermark, city);
      var mine := Select(rows, (r: Row) => r.city == city, |rows|);
      var fresh_ := Select(mine, r => Above(wm, r), |mine|);
      events := |fresh_|;
      if fresh_ == [] {
        return;
      }
      var days, hours := TouchedBy(z, fresh_);
      var scope := Select(mine, r => DayOf(z, r) in days, |mine|);
      var recomputed := AggregateRows(z, scope);
      var kept := if city in aggs then aggs[city] else map[];
      aggs := aggs[city := Splice(kept, recomputed, days, hours)];
      var latest := fresh_[0].receivedAt;
      for i := 1 to |fresh_|
        invariant latest == LatestOf(fresh_, i)
      {
        latest := Max(latest, fresh_[i].receivedAt);
      }
      watermark := watermark[city := latest];
    }
  }
}
