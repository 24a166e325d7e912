/**
 The board builder: departure minutes grouped by stop, route, headsign and service, each list stored as its gaps.
 The methods follow the passes over the tables; `Build` ends with the boards under indices, and `Holds` says what
 they mean once indices are named and gaps are added up.
 */
module TimetableBoards {
  import opened Util
  import opened Interning
  import opened Timetable

  datatype Meta = Meta(route: nat, headsign: nat, service: nat)

  datatype GroupKey = GroupKey(stop: nat, meta: Meta)

  datatype Names = Names(stops: seq<Id>, routes: seq<Id>, headsigns: seq<Id>, services: seq<Id>)

  type Groups = map<GroupKey, seq<int>>

  predicate MetaIn(names: Names, m: Meta) {
    m.route < |names.routes| && m.headsign < |names.headsigns| && m.service < |names.services|
  }

  predicate KeyIn(names: Names, g: GroupKey) {
    g.stop < |names.stops| && MetaIn(names, g.meta)
  }

  function NameOf(names: Names, g: GroupKey): Key
    requires KeyIn(names, g)
  {
    Key(names.stops[g.stop], names.routes[g.meta.route], names.headsigns[g.meta.headsign],
        names.services[g.meta.service])
  }

  ghost predicate DistinctNames(names: Names) {
    Distinct(names.stops) && Distinct(names.routes) && Distinct(names.headsigns) && Distinct(names.services)
  }

  /** Two indices under one name are one index. */
  lemma NamesTellApart(names: Names, a: GroupKey, b: GroupKey)
    requires DistinctNames(names) && KeyIn(names, a) && KeyIn(names, b) && NameOf(names, a) == NameOf(names, b)
    ensures a == b
  {}

  /** `meta` is the trip table under indices. */
  ghost predicate MetaMatches(names: Names, meta: map<Id, Meta>, table: map<Id, Trip>) {
    && meta.Keys == table.Keys
    && forall t :: t in meta ==>
         && MetaIn(names, meta[t])
         && names.routes[meta[t].route] == table[t].route
         && names.headsigns[meta[t].headsign] == table[t].headsign
         && names.services[meta[t].service] == table[t].service
  }

  /** Tables only grow, so the trips read so far keep their names. */
  lemma MetaGrows(a: Names, b: Names, meta: map<Id, Meta>, table: map<Id, Trip>, t: Trip, m: Meta)
    requires MetaMatches(a, meta, table)
    requires a.routes <= b.routes && a.headsigns <= b.headsigns && a.services <= b.services
    requires MetaIn(b, m) && b.routes[m.route] == t.route && b.headsigns[m.headsign] == t.headsign
    requires b.services[m.service] == t.service
    ensures MetaMatches(b, meta[t.id := m], table[t.id := t])
  {}

  // ---- gaps ----

  /** What a reader of a board does: add up the gaps. */
  function Sums(deltas: seq<int>, n: nat): (s: seq<int>)
    requires n <= |deltas|
    ensures |s| == n
  {
    if n == 0 then []
    else
      var s := Sums(deltas, n - 1);
      s + [(if n == 1 then 0 else s[n - 2]) + deltas[n - 1]]
  }

  function Times(deltas: seq<int>): seq<int> {
    Sums(deltas, |deltas|)
  }

  predicate IntLe(a: int, b: int) {
    a <= b
  }

  method Gaps(times: seq<int>) returns (deltas: seq<int>)
    requires times != []
    ensures Times(deltas) == SortBy(times, IntLe)
  {
    hide Times, Sums, SortBy;
    SortPermutes(times, IntLe);
    var sorted := SortBy(times, IntLe);
    deltas := [sorted[0]];
    FirstGap(sorted[0]);
    for i := 1 to |sorted|
      invariant |deltas| == i && Times(deltas) == sorted[..i]
    {
      GapAdded(deltas, sorted, i);
      deltas := deltas + [sorted[i] - sorted[i - 1]];
    }
  }

  lemma FirstGap(t: int)
    ensures Times([t]) == [t]
  {
    assert Sums([t], 0) == [];
  }

  lemma GapAdded(deltas: seq<int>, sorted: seq<int>, i: nat)
    requires 0 < i < |sorted| && |deltas| == i && Times(deltas) == sorted[..i]
    ensures Times(deltas + [sorted[i] - sorted[i - 1]]) == sorted[..i + 1]
  {
    var longer := deltas + [sorted[i] - sorted[i - 1]];
    SumsOfPrefix(deltas, longer, i);
    assert Sums(longer, i)[i - 1] == sorted[i - 1];
  }

  lemma {:induction false} SumsOfPrefix(a: seq<int>, b: seq<int>, n: nat)
    requires n <= |a| && n <= |b| && forall i :: 0 <= i < n ==> a[i] == b[i]
    ensures Sums(a, n) == Sums(b, n)
  {
    if n > 0 {
      SumsOfPrefix(a, b, n - 1);
    }
  }

  // ---- reading the tables ----

  method InternIds(ids: seq<Id>) returns (ix: Interner)
    ensures fresh(ix) && ix.Valid() && ix.values == InternedAll(ids, |ids|)
  {
    ix := new Interner();
    for i := 0 to |ids|
      invariant ix.Valid() && fresh(ix) && ix.values == InternedAll(ids, i)
    {
      var _ := ix.Intern(ids[i]);
    }
  }

  method InternTrip(t: Trip, ghost stops: seq<Id>, routes: Interner, heads: Interner, services: Interner)
    returns (m: Meta)
    requires routes != heads && heads != services && routes != services
    requires routes.Valid() && heads.Valid() && services.Valid()
    modifies routes, heads, services
    ensures routes.Valid() && heads.Valid() && services.Valid()
    ensures old(routes.values) <= routes.values && old(heads.values) <= heads.values
    ensures old(services.values) <= services.values
    ensures MetaIn(Names(stops, routes.values, heads.values, services.values), m)
    ensures routes.values[m.route] == t.route && heads.values[m.headsign] == t.headsign
    ensures services.values[m.service] == t.service
  {
    var r := routes.Intern(t.route);
    var h := heads.Intern(t.headsign);
    var s := services.Intern(t.service);
    m := Meta(r, h, s);
  }

  method ReadTrips(trips: seq<Trip>, stops: seq<Id>, routes: Interner, heads: Interner, services: Interner)
    returns (meta: map<Id, Meta>)
    requires routes != heads && heads != services && routes != services
    requires routes.Valid() && heads.Valid() && services.Valid()
    modifies routes, heads, services
    ensures routes.Valid() && heads.Valid() && services.Valid()
    ensures MetaMatches(Names(stops, routes.values, heads.values, services.values), meta, TripTable(trips, |trips|))
  {
    hide MetaMatches;
    meta := map[];
    NoTrips(Names(stops, routes.values, heads.values, services.values));
    for i := 0 to |trips|
      invariant routes.Valid() && heads.Valid() && services.Valid()
      invariant MetaMatches(Names(stops, routes.values, heads.values, services.values), meta, TripTable(trips, i))
    {
      var t := trips[i];
      ghost var before := Names(stops, routes.values, heads.values, services.values);
      var m := InternTrip(t, stops, routes, heads, services);
      MetaGrows(before, Names(stops, routes.values, heads.values, services.values), meta, TripTable(trips, i), t, m);
      meta := meta[t.id := m];
    }
  }

  lemma NoTrips(names: Names)
    ensures MetaMatches(names, map[], map[])
  {}

  method ReadFrequencies(rows: seq<Frequency>) returns (windows: map<Id, seq<Window>>)
    ensures windows == WindowTable(rows, |rows|)
  {
    windows := map[];
    for i := 0 to |rows|
      invariant windows == WindowTable(rows, i)
    {
      var f := rows[i];
      if f.start.None? || f.end.None? || f.headway <= 0 || f.end.value < f.start.value {
        continue;
      }
      windows := windows[f.trip := Listed(windows, f.trip) + [Window(f.start.value, f.end.value, f.headway)]];
    }
  }

  method FirstDepartures(rows: seq<StopTime>, windows: map<Id, seq<Window>>) returns (first: map<Id, int>)
    ensures forall t :: t in windows ==> Get(first, t) == FirstTime(rows, t, |rows|)
  {
    first := map[];
    for i := 0 to |rows|
      invariant forall t :: t in windows ==> Get(first, t) == FirstTime(rows, t, i)
    {
      var r := rows[i];
      if r.trip !in windows || r.time.None? {
        continue;
      }
      if r.trip !in first || r.time.value < first[r.trip] {
        first := first[r.trip := r.time.value];
      }
    }
  }

  function MinuteSeq(departs: seq<int>, time: int, base: int): seq<int> {
    seq(|departs|, i requires 0 <= i < |departs| => Minute(departs[i], time, base))
  }

  lemma {:induction false} MinuteSeqBag(departs: seq<int>, time: int, base: int, n: nat)
    requires n <= |departs|
    ensures multiset(MinuteSeq(departs, time, base)[..n]) == MinutesAt(departs, time, base, n)
  {
    if n > 0 {
      MinuteSeqBag(departs, time, base, n - 1);
      var s := MinuteSeq(departs, time, base);
      assert s[..n] == s[..n - 1] + [s[n - 1]];
    }
  }

  /** One departure per headway of every window, shifted by how far into the trip the row is. */
  method ExpandMinutes(ws: seq<Window>, time: int, base: int) returns (minutes: seq<int>)
    ensures minutes == MinuteSeq(Expand(ws, |ws|), time, base)
  {
    hide MinuteSeq, Range;
    minutes := [];
    NoMinutes(time, base);
    for i := 0 to |ws|
      invariant minutes == MinuteSeq(Expand(ws, i), time, base)
    {
      var w := ws[i];
      var more := ExpandWindow(w, time, base);
      MinutesAppend(Expand(ws, i), Range(w.start, w.end, w.headway), time, base);
      minutes := minutes + more;
    }
  }

  lemma NoMinutes(time: int, base: int)
    ensures MinuteSeq([], time, base) == []
  {}

  lemma MinutesAppend(a: seq<int>, b: seq<int>, time: int, base: int)
    ensures MinuteSeq(a + b, time, base) == MinuteSeq(a, time, base) + MinuteSeq(b, time, base)
  {}

  method ExpandWindow(w: Window, time: int, base: int) returns (minutes: seq<int>)
    ensures minutes == MinuteSeq(Range(w.start, w.end, w.headway), time, base)
  {
    hide MinuteSeq;
    minutes := [];
    NoMinutes(time, base);
    var offset := time - base;
    if w.headway > 0 {
      var depart := w.start;
      ghost var done: seq<int> := [];
      while depart < w.end
        invariant done + Range(depart, w.end, w.headway) == Range(w.start, w.end, w.headway)
        invariant minutes == MinuteSeq(done, time, base)
      {
        MinutesAppend(done, [depart], time, base);
        OneMinute(depart, time, base);
        minutes := minutes + [(depart + offset) / 60];
        done := done + [depart];
        depart := depart + w.headway;
      }
      assert done + [] == done;
    }
  }

  lemma OneMinute(depart: int, time: int, base: int)
    ensures MinuteSeq([depart], time, base) == [(depart + (time - base)) / 60]
  {}

  // ---- grouping ----

  ghost predicate Filed(feed: Feed, names: Names, groups: Groups, n: nat)
    requires n <= |feed.stopTimes|
  {
    && (forall g :: g in groups ==> KeyIn(names, g) && groups[g] != [])
    && (forall g :: KeyIn(names, g) ==> multiset(ListedIn(groups, g)) == BoardMinutes(feed, NameOf(names, g), n))
    && (forall k :: !Named(names, k) ==> BoardMinutes(feed, k, n) == multiset{})
  }

  ghost predicate Named(names: Names, k: Key) {
    exists g :: KeyIn(names, g) && NameOf(names, g) == k
  }

  lemma FiledNothing(feed: Feed, names: Names)
    ensures Filed(feed, names, map[], 0)
  {}

  function ListedIn(groups: Groups, g: GroupKey): seq<int> {
    if g in groups then groups[g] else []
  }

  /** A row that goes nowhere leaves every board alone. */
  lemma FiledSkip(feed: Feed, names: Names, groups: Groups, n: nat)
    requires n < |feed.stopTimes| && Filed(feed, names, groups, n)
    requires forall k :: BoardShare(feed, k, feed.stopTimes[n]) == multiset{}
    ensures Filed(feed, names, groups, n + 1)
  {
    hide BoardShare;
  }

  /** A row filed under its own key leaves the other boards alone. */
  lemma FiledRow(feed: Feed, names: Names, groups: Groups, n: nat, g: GroupKey, minutes: seq<int>)
    requires n < |feed.stopTimes| && Filed(feed, names, groups, n) && DistinctNames(names) && KeyIn(names, g)
    requires forall k ::
               BoardShare(feed, k, feed.stopTimes[n]) == if k == NameOf(names, g) then multiset(minutes) else multiset{}
    ensures Filed(feed, names, if minutes == [] then groups else groups[g := ListedIn(groups, g) + minutes], n + 1)
  {
    hide BoardShare, NameOf, DistinctNames, KeyIn, BoardMinutes;
    var after := if minutes == [] then groups else groups[g := ListedIn(groups, g) + minutes];
    forall h | KeyIn(names, h) ensures multiset(ListedIn(after, h)) == BoardMinutes(feed, NameOf(names, h), n + 1) {
      FiledAt(feed, names, groups, n, g, minutes, h);
    }
    forall k | !Named(names, k) ensures BoardMinutes(feed, k, n + 1) == multiset{} {
      BoardMinutesNext(feed, k, n);
    }
  }

  lemma BoardMinutesNext(feed: Feed, k: Key, n: nat)
    requires n < |feed.stopTimes|
    ensures BoardMinutes(feed, k, n + 1) == BoardMinutes(feed, k, n) + BoardShare(feed, k, feed.stopTimes[n])
  {}

  lemma FiledAt(feed: Feed, names: Names, groups: Groups, n: nat, g: GroupKey, minutes: seq<int>, h: GroupKey)
    requires n < |feed.stopTimes| && DistinctNames(names) && KeyIn(names, g) && KeyIn(names, h)
    requires multiset(ListedIn(groups, h)) == BoardMinutes(feed, NameOf(names, h), n)
    requires BoardShare(feed, NameOf(names, h), feed.stopTimes[n])
          == if NameOf(names, h) == NameOf(names, g) then multiset(minutes) else multiset{}
    ensures var after := if minutes == [] then groups else groups[g := ListedIn(groups, g) + minutes];
            multiset(ListedIn(after, h)) == BoardMinutes(feed, NameOf(names, h), n + 1)
  {
    hide BoardShare, NameOf, DistinctNames;
    if NameOf(names, h) == NameOf(names, g) { NamesTellApart(names, g, h); }
  }

  lemma RowIsSkipped(feed: Feed, i: nat)
    requires i < |feed.stopTimes| && !Kept(feed, feed.stopTimes[i])
    ensures forall k :: BoardShare(feed, k, feed.stopTimes[i]) == multiset{}
  {}

  lemma RowFiles(feed: Feed, i: nat, names: Names, meta: map<Id, Meta>, si: nat, minutes: seq<int>)
    requires i < |feed.stopTimes| && MetaMatches(names, meta, TripsOf(feed))
    requires var r := feed.stopTimes[i];
             && Kept(feed, r) && si < |names.stops| && names.stops[si] == r.stop
             && BoardBase(feed, r.trip).Some?
             && multiset(minutes) == RowMinutes(feed, r, BoardBase(feed, r.trip).value)
    ensures var r := feed.stopTimes[i];
            var g := GroupKey(si, meta[r.trip]);
            KeyIn(names, g) && forall k ::
              BoardShare(feed, k, r) == if k == NameOf(names, g) then multiset(minutes) else multiset{}
  {
    hide RowMinutes, FirstTime, TripTable;
  }

  lemma RowMinutesListed(feed: Feed, i: nat, minutes: seq<int>)
    requires i < |feed.stopTimes| && feed.stopTimes[i].time.Some? && BoardBase(feed, feed.stopTimes[i].trip).Some?
    requires var r := feed.stopTimes[i];
             var ws := WindowsOf(feed, r.trip);
             minutes == if ws == [] then [r.time.value / 60]
                        else MinuteSeq(Expand(ws, |ws|), r.time.value, BoardBase(feed, r.trip).value)
    ensures multiset(minutes) == RowMinutes(feed, feed.stopTimes[i], BoardBase(feed, feed.stopTimes[i].trip).value)
  {
    var r := feed.stopTimes[i];
    var ws, base := WindowsOf(feed, r.trip), BoardBase(feed, r.trip).value;
    var departs := Departs(ws, base);
    MinuteSeqBag(departs, r.time.value, base, |departs|);
    var s := MinuteSeq(departs, r.time.value, base);
    assert s[..|departs|] == s;
    if ws == [] { assert s == [r.time.value / 60]; }
  }

  method Group(feed: Feed, names: Names, stops: Interner, meta: map<Id, Meta>, windows: map<Id, seq<Window>>,
               first: map<Id, int>)
    returns (groups: Groups)
    requires stops.Valid() && stops.values == names.stops && DistinctNames(names)
    requires forall s :: s in names.stops <==> s in feed.stops
    requires MetaMatches(names, meta, TripsOf(feed))
    requires windows == WindowTable(feed.frequencies, |feed.frequencies|)
    requires forall t :: t in windows ==> Get(first, t) == BoardBase(feed, t) && windows[t] != []
    ensures Filed(feed, names, groups, |feed.stopTimes|)
  {
    hide BoardShare, RowMinutes, MinuteSeq, Filed, DistinctNames, NameOf;
    groups := map[];
    FiledNothing(feed, names);
    var rows := feed.stopTimes;
    for i := 0 to |rows|
      invariant Filed(feed, names, groups, i)
    {
      var r := rows[i];
      var si := stops.Find(r.stop);
      if r.trip !in meta || r.time.None? || si.None? {
        RowIsSkipped(feed, i);
        FiledSkip(feed, names, groups, i);
        continue;
      }
      FirstTimeFound(rows, r.trip, |rows|, i);
      var t := r.time.value;
      var minutes := [t / 60];
      if r.trip in windows {
        minutes := ExpandMinutes(windows[r.trip], t, first[r.trip]);
      }
      RowMinutesListed(feed, i, minutes);
      RowFiles(feed, i, names, meta, si.value, minutes);
      var g := GroupKey(si.value, meta[r.trip]);
      FiledRow(feed, names, groups, i, g, minutes);
      if minutes != [] {
        groups := groups[g := ListedIn(groups, g) + minutes];
      }
    }
  }

  // ---- the bundle ----

  datatype Bundle = Bundle(names: Names, boards: Groups)

  ghost predicate Holds(feed: Feed, b: Bundle) {
    && DistinctNames(b.names)
    && (forall g :: g in b.boards ==> KeyIn(b.names, g))
    && (forall g :: KeyIn(b.names, g) ==>
          multiset(Times(ListedIn(b.boards, g))) == BoardMinutes(feed, NameOf(b.names, g), |feed.stopTimes|))
    && (forall k :: !Named(b.names, k) ==> BoardMinutes(feed, k, |feed.stopTimes|) == multiset{})
    && (forall g :: g in b.boards ==> SortedBy(Times(b.boards[g]), IntLe))
  }

  method EncodeBoards(feed: Feed, names: Names, groups: Groups) returns (b: Bundle)
    requires DistinctNames(names) && Filed(feed, names, groups, |feed.stopTimes|)
    ensures b.names == names && b.boards.Keys == groups.Keys && Holds(feed, b)
  {
    var boards: Groups := map[];
    var todo := groups.Keys;
    while todo != {}
      invariant todo <= groups.Keys && boards.Keys == groups.Keys - todo
      invariant forall g :: g in boards ==> Times(boards[g]) == SortBy(groups[g], IntLe)
      decreases todo
    {
      var g :| g in todo;
      var deltas := Gaps(groups[g]);
      boards := boards[g := deltas];
      todo := todo - {g};
    }
    b := Bundle(names, boards);
    forall g | KeyIn(names, g) ensures multiset(Times(ListedIn(boards, g))) == multiset(ListedIn(groups, g)) {
      if g in boards { SortPermutes(groups[g], IntLe); }
    }
    forall g | g in boards ensures SortedBy(Times(boards[g]), IntLe) {
      SortSorts(groups[g], IntLe);
    }
  }

  method Build(feed: Feed, routeIds: seq<Id>) returns (b: Bundle)
    ensures Holds(feed, b)
    ensures b.names.stops == InternedAll(feed.stops, |feed.stops|)
  {
    hide Filed, Holds, BoardMinutes, MetaMatches, FirstTime, TripTable, WindowTable, InternedAll;
    var routes := InternIds(routeIds);
    var stops := InternIds(feed.stops);
    var heads := new Interner();
    var services := new Interner();
    var meta := ReadTrips(feed.trips, stops.values, routes, heads, services);
    var windows := ReadFrequencies(feed.frequencies);
    var first := FirstDepartures(feed.stopTimes, windows);
    var names := Names(stops.values, routes.values, heads.values, services.values);
    InternedAllHas(feed.stops, |feed.stops|);
    WindowsNonEmpty(feed.frequencies, |feed.frequencies|);
    var groups := Group(feed, names, stops, meta, windows, first);
    b := EncodeBoards(feed, names, groups);
  }

  lemma {:induction false} WindowsNonEmpty(fs: seq<Frequency>, n: nat)
    requires n <= |fs|
    ensures forall t :: t in WindowTable(fs, n) ==> WindowTable(fs, n)[t] != []
  {
    if n > 0 {
      WindowsNonEmpty(fs, n - 1);
    }
  }
}
