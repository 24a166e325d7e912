/**
 Building the pattern file, and the agreement of the two files it is shipped beside. The file is in indices, its
 `meaning` in names; every method keeps the two in step while tables and patterns grow, and the last lemma compares
 the meaning with the boards.
 */
module TimetablePatternBuild {
  import opened Util
  import opened Interning
  import opened Timetable
  import opened TimetableBoards
  import opened TimetablePatterns
  import opened TimetableJourneys

  datatype PatternKey = PatternKey(route: Id, headsign: Id, stops: seq<Id>)

  datatype PatternFile = PatternFile(names: Names, patterns: seq<Pattern<nat>>)

  // ---- indices and what they stand for ----

  ghost predicate RunNamed(services: seq<Id>, r: Run<nat>, a: Run<Id>) {
    r.service < |services| && services[r.service] == a.service && r.times == a.times
  }

  ghost predicate RunsNamed(services: seq<Id>, rs: seq<Run<nat>>, as_: seq<Run<Id>>) {
    |rs| == |as_| && forall i :: 0 <= i < |rs| ==> RunNamed(services, rs[i], as_[i])
  }

  ghost predicate StopsNamed(stops: seq<Id>, ss: seq<nat>, as_: seq<Id>) {
    |ss| == |as_| && forall i :: 0 <= i < |ss| ==> ss[i] < |stops| && stops[ss[i]] == as_[i]
  }

  ghost predicate PatternNamed(n: Names, p: Pattern<nat>, a: Pattern<Id>) {
    && p.route < |n.routes| && n.routes[p.route] == a.route
    && p.headsign < |n.headsigns| && n.headsigns[p.headsign] == a.headsign
    && StopsNamed(n.stops, p.stops, a.stops)
    && RunsNamed(n.services, p.runs, a.runs)
  }

  /** `meaning` is the file with every index replaced by its name. */
  ghost predicate Means(n: Names, ps: seq<Pattern<nat>>, meaning: seq<Pattern<Id>>) {
    |ps| == |meaning| && forall i :: 0 <= i < |ps| ==> PatternNamed(n, ps[i], meaning[i])
  }

  ghost predicate Grown(a: Names, b: Names) {
    a.stops == b.stops && a.routes <= b.routes && a.headsigns <= b.headsigns && a.services <= b.services
  }

  lemma MeansStill(a: Names, b: Names, ps: seq<Pattern<nat>>, meaning: seq<Pattern<Id>>)
    requires Grown(a, b) && Means(a, ps, meaning)
    ensures Means(b, ps, meaning)
  {
    forall i | 0 <= i < |ps| ensures PatternNamed(b, ps[i], meaning[i]) {
      RunsStillNamed(a.services, b.services, ps[i].runs, meaning[i].runs);
    }
  }

  lemma RunsStillNamed(a: seq<Id>, b: seq<Id>, rs: seq<Run<nat>>, as_: seq<Run<Id>>)
    requires a <= b && RunsNamed(a, rs, as_)
    ensures RunsNamed(b, rs, as_)
  {}

  function KeyOfPattern(p: Pattern<Id>): PatternKey {
    PatternKey(p.route, p.headsign, p.stops)
  }

  /** Every pattern is found under its key, and under no other. */
  ghost predicate Known(known: map<PatternKey, nat>, meaning: seq<Pattern<Id>>) {
    && (forall key :: key in known ==> known[key] < |meaning| && KeyOfPattern(meaning[known[key]]) == key)
    && (forall i :: 0 <= i < |meaning| ==> KeyOfPattern(meaning[i]) in known && known[KeyOfPattern(meaning[i])] == i)
  }

  // ---- runs of one trip ----

  method TripRuns(service: nat, calls: seq<Call>, ws: seq<Window>, ghost services: seq<Id>)
    returns (runs: seq<Run<nat>>)
    requires calls != [] && service < |services|
    ensures var departs := Departs(ws, calls[0].time);
            RunsNamed(services, runs, NamedRuns(services[service], calls, departs, calls[0].time, |departs|))
  {
    hide Minute;
    var base := calls[0].time;
    runs := [];
    ghost var departs := Departs(ws, base);
    if ws == [] {
      PlainTimes(calls, base);
      assert NamedRuns(services[service], calls, departs, base, 0) == [];
      runs := [Run(service, seq(|calls|, i requires 0 <= i < |calls| => calls[i].time / 60))];
      return;
    }
    for i := 0 to |ws|
      invariant RunsNamed(services, runs, NamedRuns(services[service], calls, Expand(ws, i), base, |Expand(ws, i)|))
    {
      var w := ws[i];
      if w.headway > 0 {
        var depart := w.start;
        ghost var done := Expand(ws, i);
        while depart < w.end
          invariant done + Range(depart, w.end, w.headway) == Expand(ws, i + 1)
          invariant RunsNamed(services, runs, NamedRuns(services[service], calls, done, base, |done|))
        {
          runs := runs + [Run(service, TimesOf(calls, depart, base))];
          NamedRunsSnoc(services[service], calls, done, depart, base);
          done := done + [depart];
          depart := depart + w.headway;
        }
        assert done == Expand(ws, i + 1);
      } else {
        assert Expand(ws, i + 1) == Expand(ws, i);
      }
    }
  }

  lemma PlainTimes(calls: seq<Call>, base: int)
    ensures TimesOf(calls, base, base) == seq(|calls|, i requires 0 <= i < |calls| => calls[i].time / 60)
  {}

  lemma {:induction false} NamedRunsPrefix(service: Id, calls: seq<Call>, a: seq<int>, b: seq<int>, base: int, n: nat)
    requires n <= |a| && n <= |b| && forall i :: 0 <= i < n ==> a[i] == b[i]
    ensures NamedRuns(service, calls, a, base, n) == NamedRuns(service, calls, b, base, n)
  {
    if n > 0 {
      NamedRunsPrefix(service, calls, a, b, base, n - 1);
    }
  }

  lemma NamedRunsSnoc(service: Id, calls: seq<Call>, departs: seq<int>, d: int, base: int)
    ensures NamedRuns(service, calls, departs + [d], base, |departs| + 1)
         == NamedRuns(service, calls, departs, base, |departs|) + [Run(service, TimesOf(calls, d, base))]
  {
    NamedRunsPrefix(service, calls, departs + [d], departs, base, |departs|);
  }

  method StopIndices(stops: Interner, calls: seq<Call>) returns (ss: seq<nat>)
    requires stops.Valid() && forall i :: 0 <= i < |calls| ==> calls[i].stop in stops.values
    ensures StopsNamed(stops.values, ss, StopsOf(calls))
  {
    ss := [];
    for i := 0 to |calls|
      invariant |ss| == i
      invariant forall j :: 0 <= j < i ==> ss[j] < |stops.values| && stops.values[ss[j]] == calls[j].stop
    {
      ss := ss + [stops.Find(calls[i].stop).value];
    }
  }

  // ---- adding one trip ----

  ghost function NamesNow(stops: Interner, routes: Interner, heads: Interner, services: Interner): Names
    reads stops, routes, heads, services
  {
    Names(stops.values, routes.values, heads.values, services.values)
  }

  function WholeTrip(trip: Trip, calls: seq<Call>, ws: seq<Window>): Pattern<Id>
    requires calls != []
  {
    var departs := Departs(ws, calls[0].time);
    Pattern(trip.route, trip.headsign, StopsOf(calls),
            NamedRuns(trip.service, calls, departs, calls[0].time, |departs|))
  }

  function JourneysOf(p: Pattern<Id>): Journeys {
    RunJourneys(p, p.runs)
  }

  /** The pattern a trip runs on, entered if it is new. */
  method FindPattern(stops: Interner, routes: Interner, heads: Interner, ghost services: Interner,
                     known0: map<PatternKey, nat>, ps0: seq<Pattern<nat>>, ghost meaning0: seq<Pattern<Id>>,
                     trip: Trip, calls: seq<Call>)
    returns (known: map<PatternKey, nat>, ps: seq<Pattern<nat>>, at: nat, ghost meaning: seq<Pattern<Id>>)
    requires routes != heads && heads != stops && routes != stops && services != routes && services != heads
    requires stops.Valid() && routes.Valid() && heads.Valid()
    requires Means(NamesNow(stops, routes, heads, services), ps0, meaning0) && Known(known0, meaning0)
    requires forall i :: 0 <= i < |calls| ==> calls[i].stop in stops.values
    modifies routes, heads
    ensures routes.Valid() && heads.Valid()
    ensures Grown(old(NamesNow(stops, routes, heads, services)), NamesNow(stops, routes, heads, services))
    ensures Means(NamesNow(stops, routes, heads, services), ps, meaning) && Known(known, meaning)
    ensures at < |meaning| && meaning[at].route == trip.route && meaning[at].headsign == trip.headsign
    ensures meaning[at].stops == StopsOf(calls)
    ensures forall k :: Scan(meaning, k, |meaning|) == Scan(meaning0, k, |meaning0|)
    ensures AllJourneys(meaning, |meaning|) == AllJourneys(meaning0, |meaning0|)
  {
    hide Scan, Means, Known, StopsOf, StopsNamed, AllJourneys;
    known, ps, meaning := known0, ps0, meaning0;
    var key := PatternKey(trip.route, trip.headsign, StopsOf(calls));
    if key in known {
      at := known[key];
      KnownAt(known, meaning, key);
    } else {
      ghost var before := NamesNow(stops, routes, heads, services);
      at := |ps|;
      var ss := StopIndices(stops, calls);
      var r := routes.Intern(trip.route);
      var h := heads.Intern(trip.headsign);
      ghost var empty := Pattern(trip.route, trip.headsign, StopsOf(calls), []);
      NewPattern(before, NamesNow(stops, routes, heads, services), known, ps, meaning, key, Pattern(r, h, ss, []),
                 empty);
      known := known[key := at];
      ps := ps + [Pattern(r, h, ss, [])];
      meaning := meaning + [empty];
    }
  }

  lemma KnownAt(known: map<PatternKey, nat>, meaning: seq<Pattern<Id>>, key: PatternKey)
    requires Known(known, meaning) && key in known
    ensures known[key] < |meaning| && meaning[known[key]].route == key.route
    ensures meaning[known[key]].headsign == key.headsign
    ensures meaning[known[key]].stops == key.stops
  {}

  /**
   A pattern without runs entered at the end, under names that have grown, leaves the file's departures as they are.
   */
  lemma NewPattern(before: Names, now: Names, known: map<PatternKey, nat>, ps: seq<Pattern<nat>>,
                   meaning: seq<Pattern<Id>>, key: PatternKey, p: Pattern<nat>, empty: Pattern<Id>)
    requires Grown(before, now) && Means(before, ps, meaning) && Known(known, meaning) && key !in known
    requires empty == Pattern(key.route, key.headsign, key.stops, []) && p.runs == []
    requires p.route < |now.routes| && now.routes[p.route] == key.route
    requires p.headsign < |now.headsigns| && now.headsigns[p.headsign] == key.headsign
    requires StopsNamed(now.stops, p.stops, key.stops)
    ensures |ps| == |meaning| && Means(now, ps + [p], meaning + [empty]) && Known(known[key := |ps|], meaning + [empty])
    ensures forall k :: Scan(meaning + [empty], k, |meaning + [empty]|) == Scan(meaning, k, |meaning|)
    ensures AllJourneys(meaning + [empty], |meaning + [empty]|) == AllJourneys(meaning, |meaning|)
  {
    hide Scan, StopsNamed, AllJourneys;
    AddEmptyPattern(meaning, empty);
    MeansStill(before, now, ps, meaning);
    NewPatternNamed(now, p, empty);
    MeansSnoc(now, ps, meaning, p, empty);
    forall k ensures Scan(meaning + [empty], k, |meaning| + 1) == Scan(meaning, k, |meaning|) {
      ScanAddPattern(meaning, empty, k);
    }
  }

  lemma NewPatternNamed(n: Names, p: Pattern<nat>, a: Pattern<Id>)
    requires p.route < |n.routes| && n.routes[p.route] == a.route && p.headsign < |n.headsigns|
    requires n.headsigns[p.headsign] == a.headsign
    requires StopsNamed(n.stops, p.stops, a.stops) && p.runs == [] && a.runs == []
    ensures PatternNamed(n, p, a)
  {}

  lemma MeansSnoc(n: Names, ps: seq<Pattern<nat>>, meaning: seq<Pattern<Id>>, p: Pattern<nat>, a: Pattern<Id>)
    requires Means(n, ps, meaning) && PatternNamed(n, p, a)
    ensures Means(n, ps + [p], meaning + [a])
  {
    hide PatternNamed;
  }

  lemma MoreRunsNamed(n: Names, p: Pattern<nat>, a: Pattern<Id>, rs: seq<Run<nat>>, as_: seq<Run<Id>>)
    requires PatternNamed(n, p, a) && RunsNamed(n.services, rs, as_)
    ensures PatternNamed(n, p.(runs := p.runs + rs), a.(runs := a.runs + as_))
  {}

  method AddTrip(stops: Interner, routes: Interner, heads: Interner, services: Interner,
                 known0: map<PatternKey, nat>, ps0: seq<Pattern<nat>>, ghost meaning0: seq<Pattern<Id>>,
                 trip: Trip, calls: seq<Call>, ws: seq<Window>)
    returns (known: map<PatternKey, nat>, ps: seq<Pattern<nat>>, ghost meaning: seq<Pattern<Id>>)
    requires routes != heads && heads != stops && routes != stops
    requires services != routes && services != heads && services != stops
    requires stops.Valid() && routes.Valid() && heads.Valid() && services.Valid()
    requires Means(NamesNow(stops, routes, heads, services), ps0, meaning0) && Known(known0, meaning0)
    requires calls != [] && forall i :: 0 <= i < |calls| ==> calls[i].stop in stops.values
    modifies routes, heads, services
    ensures routes.Valid() && heads.Valid() && services.Valid()
    ensures Means(NamesNow(stops, routes, heads, services), ps, meaning) && Known(known, meaning)
    ensures forall k :: Scan(meaning, k, |meaning|) ==
                        Scan(meaning0, k, |meaning0|) + ScanOne(WholeTrip(trip, calls, ws), k)
    ensures AllJourneys(meaning, |meaning|) ==
            AllJourneys(meaning0, |meaning0|) + JourneysOf(WholeTrip(trip, calls, ws))
  {
    hide Scan, ScanOne, Means, Known, RunsNamed, StopsNamed, Departs, NamedRuns, AllJourneys, JourneysOf;
    var at: nat;
    known, ps, at, meaning := FindPattern(stops, routes, heads, services, known0, ps0, meaning0, trip, calls);
    ghost var before := NamesNow(stops, routes, heads, services);
    var s := services.Intern(trip.service);
    ghost var now := NamesNow(stops, routes, heads, services);
    MeansStill(before, now, ps, meaning);
    var runs := TripRuns(s, calls, ws, services.values);
    ghost var whole := WholeTrip(trip, calls, ws);
    RunsEntered(now, known, ps, meaning, at, runs, whole);
    MoreRuns(meaning, at, whole);
    ps := ps[at := ps[at].(runs := ps[at].runs + runs)];
    meaning := meaning[at := meaning[at].(runs := meaning[at].runs + whole.runs)];
  }

  /** With more runs on one pattern the file still means the same patterns, found under the same keys. */
  lemma RunsEntered(n: Names, known: map<PatternKey, nat>, ps: seq<Pattern<nat>>, meaning: seq<Pattern<Id>>, at: nat,
                    runs: seq<Run<nat>>, whole: Pattern<Id>)
    requires Means(n, ps, meaning) && Known(known, meaning) && at < |meaning|
    requires RunsNamed(n.services, runs, whole.runs)
    ensures |ps| == |meaning|
    ensures var more := meaning[at := meaning[at].(runs := meaning[at].runs + whole.runs)];
            Means(n, ps[at := ps[at].(runs := ps[at].runs + runs)], more) && Known(known, more)
  {
    hide PatternNamed, RunsNamed;
    MoreRunsNamed(n, ps[at], meaning[at], runs, whole.runs);
  }

  /** The runs of a trip entered on its pattern add just the trip's departures and journeys. */
  lemma MoreRuns(meaning: seq<Pattern<Id>>, at: nat, whole: Pattern<Id>)
    requires at < |meaning| && meaning[at].route == whole.route && meaning[at].headsign == whole.headsign
    requires meaning[at].stops == whole.stops
    ensures var more := meaning[at := meaning[at].(runs := meaning[at].runs + whole.runs)];
            && (forall k :: Scan(more, k, |meaning|) == Scan(meaning, k, |meaning|) + ScanOne(whole, k))
            && AllJourneys(more, |meaning|) == AllJourneys(meaning, |meaning|) + JourneysOf(whole)
  {
    hide Scan, ScanOne, AllJourneys, RunJourneys;
    var more := meaning[at := meaning[at].(runs := meaning[at].runs + whole.runs)];
    forall k ensures Scan(more, k, |meaning|) == Scan(meaning, k, |meaning|) + ScanOne(whole, k) {
      ScanAddRuns(meaning, at, whole.runs, k, |meaning|);
      SamePattern(meaning[at], whole);
    }
    AddRunJourneys(meaning, at, whole.runs, |meaning|);
    JourneysUnder(meaning[at], whole, whole.runs);
  }

  lemma SamePattern(p: Pattern<Id>, whole: Pattern<Id>)
    requires p.route == whole.route && p.headsign == whole.headsign && p.stops == whole.stops
    ensures p.(runs := whole.runs) == whole
  {}

  // ---- one trip against its rows ----

  lemma {:induction false} CallsKnown(feed: Feed, trip: Id, n: nat)
    requires n <= |feed.stopTimes|
    ensures forall c :: c in CallsOf(feed, trip, n) ==> c.stop in feed.stops
    ensures CallsOf(feed, trip, n) != [] ==> trip in TripsOf(feed)
  {
    if n > 0 {
      CallsKnown(feed, trip, n - 1);
    }
  }

  lemma ServiceRuns(calls: seq<Call>, k: Key, service: Id, departs: seq<int>, base: int)
    ensures Bag(RunShare(StopsOf(calls), k), NamedRuns(service, calls, departs, base, |departs|))
         == if service == k.service then Bag(CallShare(k.stop, departs, base, |departs|), calls) else multiset{}
  {
    if service == k.service {
      RunsMatchCalls(calls, k, departs, base, |departs|);
    } else {
      OtherService(calls, k, service, departs, base, |departs|);
    }
  }

  /** The runs entered for a trip are what its rows contribute. */
  lemma WholeTripScan(feed: Feed, rank: Id -> int, k: Key, id: Id)
    requires id in TripsOf(feed) && |TripCalls(feed, id)| >= 2
    ensures var calls := Ordered(TripCalls(feed, id), rank);
            |calls| == |TripCalls(feed, id)|
            && ScanOne(WholeTrip(TripsOf(feed)[id], calls, WindowsOf(feed, id)), k) == TripMinutes(feed, rank, k, id)
  {
    hide RunShare, CallShare, NamedRuns, SortBy, TripsOf, Departs, StopsOf;
    var le := (a: Call, b: Call) => CallLe(a, b, rank);
    var calls := Ordered(TripCalls(feed, id), rank);
    SortPermutes(TripCalls(feed, id), le);
    var departs := Departs(WindowsOf(feed, id), calls[0].time);
    ServiceRuns(calls, k, TripsOf(feed)[id].service, departs, calls[0].time);
    BagSort(CallShare(k.stop, departs, calls[0].time, |departs|), TripCalls(feed, id), le);
  }

  lemma ShortTripMinutes(feed: Feed, rank: Id -> int, k: Key, id: Id)
    requires |TripCalls(feed, id)| < 2
    ensures TripMinutes(feed, rank, k, id) == multiset{}
  {
    hide CallShare;
    SortPermutes(TripCalls(feed, id), (a: Call, b: Call) => CallLe(a, b, rank));
  }

  // ---- reading stop_times ----

  /** The calls of each trip, and the trips in the order they first appear. */
  method ReadCalls(feed: Feed, stops: Interner, trips: map<Id, Trip>)
    returns (order: seq<Id>, calls: map<Id, seq<Call>>)
    requires stops.Valid() && trips == TripsOf(feed)
    requires forall s :: s in stops.values <==> s in feed.stops
    ensures Distinct(order) && forall t :: t in order <==> t in calls
    ensures forall t :: Listed(calls, t) == TripCalls(feed, t)
    ensures forall t :: t in calls ==> calls[t] != []
  {
    hide TripsOf;
    order, calls := [], map[];
    for i := 0 to |feed.stopTimes|
      invariant Distinct(order) && forall t :: t in order <==> t in calls
      invariant forall t :: Listed(calls, t) == CallsOf(feed, t, i)
      invariant forall t :: t in calls ==> calls[t] != []
    {
      var r := feed.stopTimes[i];
      if r.trip !in trips || r.time.None? || stops.Find(r.stop).None? {
        continue;
      }
      if r.trip !in calls {
        order := order + [r.trip];
      }
      calls := calls[r.trip := Listed(calls, r.trip) + [Call(r.sequence, r.stop, r.time.value)]];
    }
  }

  lemma {:induction false} KeptTripIsListed(feed: Feed, i: nat)
    requires i < |feed.stopTimes| && Kept(feed, feed.stopTimes[i])
    ensures TripCalls(feed, feed.stopTimes[i].trip) != []
  {
    RowIsACall(feed, feed.stopTimes[i].trip, |feed.stopTimes|, i);
  }

  function RankIn(index: map<Id, nat>): Id -> int {
    (s: Id) => if s in index then index[s] as int else -1
  }

  method ReadTripTable(trips: seq<Trip>) returns (table: map<Id, Trip>)
    ensures table == TripTable(trips, |trips|)
  {
    table := map[];
    for i := 0 to |trips|
      invariant table == TripTable(trips, i)
    {
      table := table[trips[i].id := trips[i]];
    }
  }

  lemma OrderedCalls(calls: seq<Call>, rank: Id -> int)
    ensures |Ordered(calls, rank)| == |calls| && forall c :: c in Ordered(calls, rank) <==> c in calls
  {
    SortPermutes(calls, (a: Call, b: Call) => CallLe(a, b, rank));
    SameElements(Ordered(calls, rank), calls);
  }

  /** All trips together hold what all rows contribute. */
  lemma WholeOrder(feed: Feed, rank: Id -> int, k: Key, order: seq<Id>)
    requires Distinct(order) && forall t :: t in order <==> TripCalls(feed, t) != []
    ensures OrderMinutes(feed, rank, k, order, |order|) == PatternMinutes(feed, rank, k, |feed.stopTimes|)
  {
    hide OrderMinutes, PatternMinutes, OrderRows, TripTable;
    forall i | 0 <= i < |order| ensures order[i] in TripsOf(feed) {
      assert order[i] in order;
      CallsKnown(feed, order[i], |feed.stopTimes|);
    }
    forall i | 0 <= i < |feed.stopTimes| && Kept(feed, feed.stopTimes[i]) ensures feed.stopTimes[i].trip in order {
      KeptTripIsListed(feed, i);
    }
    OrderMinutesAreRows(feed, rank, k, order, |order|);
    RegroupRows(feed, rank, k, order, |feed.stopTimes|);
  }

  /** The journeys of a trip: none for a trip with fewer than two calls. */
  function TripJourneys(feed: Feed, rank: Id -> int, id: Id): Journeys {
    var calls := Ordered(TripCalls(feed, id), rank);
    if |calls| < 2 || id !in TripsOf(feed) then multiset{}
    else JourneysOf(WholeTrip(TripsOf(feed)[id], calls, WindowsOf(feed, id)))
  }

  function OrderJourneys(feed: Feed, rank: Id -> int, order: seq<Id>, m: nat): Journeys
    requires m <= |order|
  {
    if m == 0 then multiset{} else OrderJourneys(feed, rank, order, m - 1) + TripJourneys(feed, rank, order[m - 1])
  }

  lemma TripJourneysAre(feed: Feed, rank: Id -> int, id: Id)
    requires id in TripsOf(feed)
    ensures |Ordered(TripCalls(feed, id), rank)| == |TripCalls(feed, id)|
    ensures TripJourneys(feed, rank, id) ==
            if |TripCalls(feed, id)| < 2 then multiset{}
            else JourneysOf(WholeTrip(TripsOf(feed)[id], Ordered(TripCalls(feed, id), rank), WindowsOf(feed, id)))
  {
    hide JourneysOf, WholeTrip, WindowsOf, Ordered, CallsOf;
    OrderedCalls(TripCalls(feed, id), rank);
  }

  /** Adds one trip of the feed, or nothing for a trip with fewer than two calls. */
  method AddTripOf(feed: Feed, rank: Id -> int, id: Id, trip: Trip, calls: seq<Call>, ws: seq<Window>,
                   stops: Interner, routes: Interner, heads: Interner, services: Interner,
                   known0: map<PatternKey, nat>, ps0: seq<Pattern<nat>>, ghost meaning0: seq<Pattern<Id>>)
    returns (known: map<PatternKey, nat>, ps: seq<Pattern<nat>>, ghost meaning: seq<Pattern<Id>>)
    requires routes != heads && heads != stops && routes != stops
    requires services != routes && services != heads && services != stops
    requires stops.Valid() && routes.Valid() && heads.Valid() && services.Valid()
    requires Means(NamesNow(stops, routes, heads, services), ps0, meaning0) && Known(known0, meaning0)
    requires forall s :: s in stops.values <==> s in feed.stops
    requires id in TripsOf(feed) && trip == TripsOf(feed)[id] && calls == TripCalls(feed, id)
    requires ws == WindowsOf(feed, id)
    modifies routes, heads, services
    ensures routes.Valid() && heads.Valid() && services.Valid()
    ensures Means(NamesNow(stops, routes, heads, services), ps, meaning) && Known(known, meaning)
    ensures forall k :: Scan(meaning, k, |meaning|) == Scan(meaning0, k, |meaning0|) + TripMinutes(feed, rank, k, id)
    ensures AllJourneys(meaning, |meaning|) == AllJourneys(meaning0, |meaning0|) + TripJourneys(feed, rank, id)
  {
    hide Scan, ScanOne, TripMinutes, Means, Known, TripsOf, Ordered, CallsOf, AllJourneys, TripJourneys, JourneysOf,
         WindowsOf;
    TripJourneysAre(feed, rank, id);
    known, ps, meaning := known0, ps0, meaning0;
    if |calls| < 2 {
      forall k ensures TripMinutes(feed, rank, k, id) == multiset{} {
        ShortTripMinutes(feed, rank, k, id);
      }
      return;
    }
    CallsKnown(feed, id, |feed.stopTimes|);
    OrderedCalls(calls, rank);
    var sorted := Ordered(calls, rank);
    forall k ensures ScanOne(WholeTrip(trip, sorted, ws), k) == TripMinutes(feed, rank, k, id) {
      WholeTripScan(feed, rank, k, id);
    }
    forall i | 0 <= i < |sorted| ensures sorted[i].stop in stops.values {
      assert sorted[i] in sorted;
    }
    known, ps, meaning := AddTrip(stops, routes, heads, services, known, ps, meaning, trip, sorted, ws);
  }

  // ---- runs in order of departure ----

  predicate RunIndexLe(a: Run<nat>, b: Run<nat>) {
    FirstOf(a.times) <= FirstOf(b.times)
  }

  lemma {:induction false} InsertNamed(services: seq<Id>, x: Run<nat>, a: Run<Id>, rs: seq<Run<nat>>, as_: seq<Run<Id>>)
    requires RunNamed(services, x, a) && RunsNamed(services, rs, as_)
    ensures RunsNamed(services, InsertBy(x, rs, RunIndexLe), InsertBy(a, as_, RunLe))
  {
    if rs != [] && !RunIndexLe(x, rs[0]) {
      InsertNamed(services, x, a, rs[1..], as_[1..]);
    }
  }

  lemma {:induction false} SortNamed(services: seq<Id>, rs: seq<Run<nat>>, as_: seq<Run<Id>>)
    requires RunsNamed(services, rs, as_)
    ensures RunsNamed(services, SortBy(rs, RunIndexLe), SortBy(as_, RunLe))
  {
    if rs != [] {
      SortNamed(services, rs[1..], as_[1..]);
      InsertNamed(services, rs[0], as_[0], SortBy(rs[1..], RunIndexLe), SortBy(as_[1..], RunLe));
    }
  }

  lemma SortRunsNamed(n: Names, p: Pattern<nat>, a: Pattern<Id>)
    requires PatternNamed(n, p, a)
    ensures PatternNamed(n, p.(runs := SortBy(p.runs, RunIndexLe)), a.(runs := SortBy(a.runs, RunLe)))
  {
    SortNamed(n.services, p.runs, a.runs);
  }

  lemma {:induction false} ScanSorted(a: seq<Pattern<Id>>, b: seq<Pattern<Id>>, k: Key, n: nat)
    requires n <= |a| == |b|
    requires forall i :: 0 <= i < n ==> b[i] == a[i].(runs := SortBy(a[i].runs, RunLe))
    ensures Scan(b, k, n) == Scan(a, k, n)
  {
    hide SortBy, RunShare;
    if n > 0 {
      ScanSorted(a, b, k, n - 1);
      BagSort(RunShare(a[n - 1].stops, k), a[n - 1].runs, RunLe);
    }
  }

  method SortRuns(ghost n: Names, ps0: seq<Pattern<nat>>, ghost meaning0: seq<Pattern<Id>>)
    returns (ps: seq<Pattern<nat>>, ghost meaning: seq<Pattern<Id>>)
    requires Means(n, ps0, meaning0)
    ensures Means(n, ps, meaning)
    ensures forall k :: Scan(meaning, k, |meaning|) == Scan(meaning0, k, |meaning0|)
    ensures AllJourneys(meaning, |meaning|) == AllJourneys(meaning0, |meaning0|)
    ensures |meaning| == |meaning0|
    ensures forall i :: 0 <= i < |meaning| ==> KeyOfPattern(meaning[i]) == KeyOfPattern(meaning0[i])
    ensures forall i :: 0 <= i < |ps| ==> SortedBy(ps[i].runs, RunIndexLe)
  {
    hide Scan, PatternNamed, SortBy, AllJourneys;
    ps, meaning := [], [];
    for i := 0 to |ps0|
      invariant |ps| == |meaning| == i
      invariant forall j :: 0 <= j < i ==> PatternNamed(n, ps[j], meaning[j]) && SortedBy(ps[j].runs, RunIndexLe)
      invariant forall j :: 0 <= j < i ==> meaning[j] == meaning0[j].(runs := SortBy(meaning0[j].runs, RunLe))
    {
      SortRunsNamed(n, ps0[i], meaning0[i]);
      SortSorts(ps0[i].runs, RunIndexLe);
      ps := ps + [ps0[i].(runs := SortBy(ps0[i].runs, RunIndexLe))];
      meaning := meaning + [meaning0[i].(runs := SortBy(meaning0[i].runs, RunLe))];
    }
    forall k ensures Scan(meaning, k, |meaning|) == Scan(meaning0, k, |meaning0|) {
      ScanSorted(meaning0, meaning, k, |meaning|);
    }
    SortedJourneys(meaning0, meaning, |meaning|);
  }

  // ---- the whole file ----

  /** Scanning the file under its names gives, for every key, the minutes of all rows. */
  ghost predicate Describes(feed: Feed, rank: Id -> int, file: PatternFile, meaning: seq<Pattern<Id>>) {
    && Means(file.names, file.patterns, meaning)
    && forall k :: Scan(meaning, k, |meaning|) == PatternMinutes(feed, rank, k, |feed.stopTimes|)
  }

  method AddAllTrips(feed: Feed, rank: Id -> int, trips: map<Id, Trip>, order: seq<Id>, calls: map<Id, seq<Call>>,
                     windows: map<Id, seq<Window>>, stops: Interner, routes: Interner, heads: Interner,
                     services: Interner)
    returns (ps: seq<Pattern<nat>>, ghost meaning: seq<Pattern<Id>>)
    requires routes != heads && heads != stops && routes != stops
    requires services != routes && services != heads && services != stops
    requires stops.Valid() && routes.Valid() && heads.Valid() && services.Valid()
    requires forall s :: s in stops.values <==> s in feed.stops
    requires trips == TripsOf(feed) && forall t :: t in order <==> t in calls
    requires forall t :: t in calls ==> t in trips && calls[t] == TripCalls(feed, t)
    requires forall t :: Listed(windows, t) == WindowsOf(feed, t)
    modifies routes, heads, services
    ensures routes.Valid() && heads.Valid() && services.Valid()
    ensures Means(NamesNow(stops, routes, heads, services), ps, meaning)
    ensures forall k :: Scan(meaning, k, |meaning|) == OrderMinutes(feed, rank, k, order, |order|)
    ensures AllJourneys(meaning, |meaning|) == OrderJourneys(feed, rank, order, |order|) && DistinctKeys(meaning)
  {
    hide Scan, TripMinutes, Means, Known, TripsOf, CallsOf, WindowsOf, NamesNow, AllJourneys, TripJourneys;
    var known: map<PatternKey, nat> := map[];
    ps, meaning := [], [];
    NothingYet(NamesNow(stops, routes, heads, services));
    for i := 0 to |order|
      invariant routes.Valid() && heads.Valid() && services.Valid()
      invariant Means(NamesNow(stops, routes, heads, services), ps, meaning) && Known(known, meaning)
      invariant forall k :: Scan(meaning, k, |meaning|) == OrderMinutes(feed, rank, k, order, i)
      invariant AllJourneys(meaning, |meaning|) == OrderJourneys(feed, rank, order, i)
    {
      var id := order[i];
      assert id in order;
      known, ps, meaning := AddTripOf(feed, rank, id, trips[id], calls[id], Listed(windows, id),
                                      stops, routes, heads, services, known, ps, meaning);
    }
    KnownAreDistinct(known, meaning);
  }

  /** No two patterns are of one route and headsign along the same stops. */
  predicate DistinctKeys(meaning: seq<Pattern<Id>>) {
    forall i, j :: 0 <= i < j < |meaning| ==> KeyOfPattern(meaning[i]) != KeyOfPattern(meaning[j])
  }

  lemma KnownAreDistinct(known: map<PatternKey, nat>, meaning: seq<Pattern<Id>>)
    requires Known(known, meaning)
    ensures DistinctKeys(meaning)
  {}

  method BuildPatterns(feed: Feed)
    returns (file: PatternFile, ghost meaning: seq<Pattern<Id>>, ghost rank: Id -> int, ghost order: seq<Id>)
    ensures Describes(feed, rank, file, meaning)
    ensures Distinct(order) && forall t :: t in order <==> TripCalls(feed, t) != []
    ensures AllJourneys(meaning, |meaning|) == OrderJourneys(feed, rank, order, |order|) && DistinctKeys(meaning)
    ensures forall i :: 0 <= i < |file.names.stops| ==> rank(file.names.stops[i]) == i
    ensures file.names.stops == InternedAll(feed.stops, |feed.stops|)
    ensures forall i :: 0 <= i < |file.patterns| ==> SortedBy(file.patterns[i].runs, RunIndexLe)
  {
    hide Scan, PatternMinutes, OrderMinutes, Means, InternedAll, CallsOf, TripTable, WindowTable, AllJourneys,
         OrderJourneys;
    var trips := ReadTripTable(feed.trips);
    var stops := InternIds(feed.stops);
    InternedAllHas(feed.stops, |feed.stops|);
    var windows := ReadFrequencies(feed.frequencies);
    var listed, calls := ReadCalls(feed, stops, trips);
    order := listed;
    forall t | t in calls ensures t in trips && calls[t] == TripCalls(feed, t) {
      assert Listed(calls, t) == TripCalls(feed, t);
      CallsKnown(feed, t, |feed.stopTimes|);
    }
    var routes := new Interner();
    var heads := new Interner();
    var services := new Interner();
    rank := RankIn(stops.index);
    var ps: seq<Pattern<nat>>;
    ps, meaning := AddAllTrips(feed, RankIn(stops.index), trips, listed, calls, windows, stops, routes, heads,
                               services);
    OrderListsCalls(feed, order, calls);
    forall k ensures OrderMinutes(feed, rank, k, order, |order|) == PatternMinutes(feed, rank, k, |feed.stopTimes|) {
      WholeOrder(feed, rank, k, order);
    }
    ps, meaning := SortRuns(NamesNow(stops, routes, heads, services), ps, meaning);
    file := PatternFile(Names(stops.values, routes.values, heads.values, services.values), ps);
  }

  lemma OrderListsCalls(feed: Feed, order: seq<Id>, calls: map<Id, seq<Call>>)
    requires forall t :: t in order <==> t in calls
    requires forall t :: Listed(calls, t) == TripCalls(feed, t)
    requires forall t :: t in calls ==> calls[t] != []
    ensures forall t :: t in order <==> TripCalls(feed, t) != []
  {
    hide TripCalls;
    forall t ensures t in order <==> TripCalls(feed, t) != [] {
      assert Listed(calls, t) == TripCalls(feed, t);
    }
  }

  lemma NothingYet(n: Names)
    ensures Means(n, [], []) && Known(map[], []) && (forall k :: Scan([], k, 0) == multiset{})
    ensures AllJourneys([], 0) == multiset{}
  {}

  /**
   The two files built from one well-formed feed answer alike: adding up a board's gaps gives the
   same departure minutes as scanning every run of every pattern, frequency trips included.
   */
  lemma BoardsMatchPatterns(feed: Feed, b: Bundle, file: PatternFile, meaning: seq<Pattern<Id>>, rank: Id -> int,
                            k: Key)
    requires WellFormed(feed) && Holds(feed, b) && Describes(feed, rank, file, meaning)
    ensures forall g :: KeyIn(b.names, g) && NameOf(b.names, g) == k ==>
              multiset(Times(ListedIn(b.boards, g))) == Scan(meaning, k, |meaning|)
    ensures !Named(b.names, k) ==> Scan(meaning, k, |meaning|) == multiset{}
  {
    hide Scan, WellFormed, Means, BoardMinutes, PatternMinutes, DistinctNames;
    BoardsAndPatternsAgree(feed, rank, k);
  }
}
