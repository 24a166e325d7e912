/**
 The vehicles a feed promises, as journeys: a trip without frequencies is one vehicle at the times its rows state, one
 with frequencies a vehicle for each headway of each of its rows, at the same intervals from stop to stop. The journeys
 of the pattern file are exactly these.
 */
module TimetableVehicles {
  import opened Util
  import opened Timetable
  import opened TimetableBoards
  import opened TimetablePatterns
  import opened TimetableJourneys
  import opened TimetablePatternBuild
  import opened TimetableDepartures

  /** What a vehicle of the trip runs as that leaves the first call at `depart`. */
  function VehicleOf(t: Trip, calls: seq<Call>, depart: int): Journey
    requires calls != []
  {
    Journey(t.route, t.headsign, t.service, seq(|calls|, i requires 0 <= i < |calls| => calls[i].stop),
            seq(|calls|, i requires 0 <= i < |calls| => (depart + (calls[i].time - calls[0].time)) / 60))
  }

  /** The first `n` vehicles of a row of frequencies.txt. */
  function RowVehicles(t: Trip, calls: seq<Call>, f: Frequency, n: nat): Journeys
    requires calls != [] && f.start.Some?
  {
    if n == 0 then multiset{} else RowVehicles(t, calls, f, n - 1) + multiset{VehicleOf(t, calls, Leaves(f, n - 1))}
  }

  /** The vehicles of the first `n` rows, those that can be read and are of the trip. */
  function FrequencyVehicles(t: Trip, calls: seq<Call>, fs: seq<Frequency>, n: nat): Journeys
    requires calls != [] && n <= |fs|
  {
    if n == 0 then multiset{}
    else
      FrequencyVehicles(t, calls, fs, n - 1) +
      if RunsTrip(fs[n - 1], t.id) then RowVehicles(t, calls, fs[n - 1], Vehicles(fs[n - 1])) else multiset{}
  }

  function TripVehicles(t: Trip, calls: seq<Call>, fs: seq<Frequency>): Journeys
    requires calls != []
  {
    if ByFrequency(fs, t.id) then FrequencyVehicles(t, calls, fs, |fs|)
    else multiset{VehicleOf(t, calls, calls[0].time)}
  }

  // ---- runs as vehicles ----

  function DepartVehicles(t: Trip, calls: seq<Call>, departs: seq<int>, n: nat): Journeys
    requires calls != [] && n <= |departs|
  {
    if n == 0 then multiset{}
    else DepartVehicles(t, calls, departs, n - 1) + multiset{VehicleOf(t, calls, departs[n - 1])}
  }

  lemma RunIsVehicle(t: Trip, calls: seq<Call>, runs: seq<Run<Id>>, depart: int)
    requires calls != []
    ensures JourneyOf(Pattern(t.route, t.headsign, StopsOf(calls), runs),
                      Run(t.service, TimesOf(calls, depart, calls[0].time))) == VehicleOf(t, calls, depart)
  {}

  lemma {:induction false} RunsAreVehicles(t: Trip, calls: seq<Call>, departs: seq<int>, p: Pattern<Id>, n: nat)
    requires calls != [] && n <= |departs| && p == Pattern(t.route, t.headsign, StopsOf(calls), p.runs)
    ensures RunJourneys(p, NamedRuns(t.service, calls, departs, calls[0].time, n)) ==
            DepartVehicles(t, calls, departs, n)
  {
    hide RunJourneys, TimesOf, StopsOf, VehicleOf, JourneyOf;
    if n == 0 {
      FirstJourney(p, []);
    } else {
      var run := Run(t.service, TimesOf(calls, departs[n - 1], calls[0].time));
      RunsAreVehicles(t, calls, departs, p, n - 1);
      JourneysAppend(p, NamedRuns(t.service, calls, departs, calls[0].time, n - 1), [run]);
      FirstJourney(p, [run]);
      FirstJourney(p, []);
      assert [run][1..] == [];
      RunIsVehicle(t, calls, p.runs, departs[n - 1]);
    }
  }

  // ---- windows as rows ----

  lemma {:induction false} VehiclesOfFirst(t: Trip, calls: seq<Call>, a: seq<int>, b: seq<int>, n: nat)
    requires calls != [] && n <= |a| && n <= |b| && forall i :: 0 <= i < n ==> a[i] == b[i]
    ensures DepartVehicles(t, calls, a, n) == DepartVehicles(t, calls, b, n)
  {
    hide VehicleOf;
    if n > 0 {
      VehiclesOfFirst(t, calls, a, b, n - 1);
    }
  }

  lemma OneMoreVehicle(t: Trip, calls: seq<Call>, departs: seq<int>, n: nat)
    requires calls != [] && n < |departs|
    ensures DepartVehicles(t, calls, departs, n + 1) ==
            DepartVehicles(t, calls, departs, n) + multiset{VehicleOf(t, calls, departs[n])}
  {
    hide VehicleOf;
  }

  lemma NoVehicleYet(t: Trip, calls: seq<Call>, departs: seq<int>)
    requires calls != []
    ensures DepartVehicles(t, calls, departs, 0) == multiset{}
  {}

  lemma SameVehicles(a: Journeys, b: Journeys)
    requires b == multiset{}
    ensures a + b == a
  {}

  lemma {:induction false} VehiclesOfBoth(t: Trip, calls: seq<Call>, a: seq<int>, b: seq<int>, n: nat)
    requires calls != [] && n <= |b|
    ensures DepartVehicles(t, calls, a + b, |a| + n) ==
            DepartVehicles(t, calls, a, |a|) + DepartVehicles(t, calls, b, n)
  {
    hide VehicleOf, DepartVehicles;
    if n == 0 {
      VehiclesOfFirst(t, calls, a, a + b, |a|);
      NoVehicleYet(t, calls, b);
      SameVehicles(DepartVehicles(t, calls, a, |a|), DepartVehicles(t, calls, b, 0));
    } else {
      VehiclesOfBoth(t, calls, a, b, n - 1);
      assert (a + b)[|a| + n - 1] == b[n - 1];
      OneMoreVehicle(t, calls, a + b, |a| + n - 1);
      OneMoreVehicle(t, calls, b, n - 1);
      Regroup(DepartVehicles(t, calls, a, |a|), DepartVehicles(t, calls, b, n - 1),
              multiset{VehicleOf(t, calls, b[n - 1])});
    }
  }

  lemma {:induction false} RangeVehicles(t: Trip, calls: seq<Call>, f: Frequency, n: nat)
    requires calls != [] && f.start.Some? && f.end.Some? && f.headway > 0
    requires n <= |Range(f.start.value, f.end.value, f.headway)|
    ensures DepartVehicles(t, calls, Range(f.start.value, f.end.value, f.headway), n) == RowVehicles(t, calls, f, n)
  {
    hide Range, Leaves, VehicleOf;
    if n > 0 {
      RangeVehicles(t, calls, f, n - 1);
      RangeLeaves(f, n - 1);
    }
  }

  lemma WindowAddsVehicles(t: Trip, calls: seq<Call>, ws: seq<Window>, f: Frequency)
    requires calls != [] && RunsTrip(f, t.id)
    ensures var more := ws + [Window(f.start.value, f.end.value, f.headway)];
            DepartVehicles(t, calls, Expand(more, |more|), |Expand(more, |more|)|) ==
            DepartVehicles(t, calls, Expand(ws, |ws|), |Expand(ws, |ws|)|) + RowVehicles(t, calls, f, Vehicles(f))
  {
    hide Range, Vehicles, RowVehicles, DepartVehicles;
    var more := ws + [Window(f.start.value, f.end.value, f.headway)];
    ExpandOfFirst(ws, more, |ws|);
    var range := Range(f.start.value, f.end.value, f.headway);
    assert Expand(more, |ws| + 1) == Expand(ws, |ws|) + range;
    VehiclesOfBoth(t, calls, Expand(ws, |ws|), range, |range|);
    RangeVehicles(t, calls, f, |range|);
    RangeCount(f);
  }

  lemma {:induction false} TableVehicles(t: Trip, calls: seq<Call>, fs: seq<Frequency>, n: nat)
    requires calls != [] && n <= |fs|
    ensures var ws := Listed(WindowTable(fs, n), t.id);
            && DepartVehicles(t, calls, Expand(ws, |ws|), |Expand(ws, |ws|)|) == FrequencyVehicles(t, calls, fs, n)
            && (ws == [] <==> forall j :: 0 <= j < n ==> !RunsTrip(fs[j], t.id))
  {
    hide Vehicles, RowVehicles, WindowTable, Expand, DepartVehicles;
    if n == 0 {
      NoVehicles(t, calls, fs);
    } else {
      TableVehicles(t, calls, fs, n - 1);
      ListedNext(fs, n - 1, t.id);
      if RunsTrip(fs[n - 1], t.id) {
        WindowAddsVehicles(t, calls, Listed(WindowTable(fs, n - 1), t.id), fs[n - 1]);
      }
    }
  }

  lemma NoVehicles(t: Trip, calls: seq<Call>, fs: seq<Frequency>)
    requires calls != []
    ensures Listed(WindowTable(fs, 0), t.id) == []
    ensures DepartVehicles(t, calls, Expand([], 0), |Expand([], 0)|) == multiset{}
  {}

  // ---- the file ----

  /** The calls of a trip, one for each of its rows that can be used, in the order they are made. */
  lemma CallsInOrder(feed: Feed, rank: Id -> int, id: Id)
    ensures var calls := Ordered(TripCalls(feed, id), rank);
            && multiset(calls) == multiset(TripCalls(feed, id)) && |calls| == |TripCalls(feed, id)|
            && forall i, j :: 0 <= i < j < |calls| ==>
                 || calls[i].sequence < calls[j].sequence
                 || (calls[i].sequence == calls[j].sequence && rank(calls[i].stop) < rank(calls[j].stop))
                 || (calls[i].sequence == calls[j].sequence && rank(calls[i].stop) == rank(calls[j].stop)
                     && calls[i].time <= calls[j].time)
  {
    hide CallsOf;
    var le := (a: Call, b: Call) => CallLe(a, b, rank);
    CallOrder(rank);
    SortSorts(TripCalls(feed, id), le);
    SortPermutes(TripCalls(feed, id), le);
    var calls := Ordered(TripCalls(feed, id), rank);
    forall i, j | 0 <= i < j < |calls| ensures CallLe(calls[i], calls[j], rank) { assert le(calls[i], calls[j]); }
  }

  /** A trip with two calls is entered as its vehicles, one journey each; one with fewer is not entered. */
  lemma TripIsVehicles(feed: Feed, rank: Id -> int, id: Id)
    requires id in TripsOf(feed)
    ensures var calls := Ordered(TripCalls(feed, id), rank);
            TripJourneys(feed, rank, id) ==
            if |calls| < 2 then multiset{} else TripVehicles(TripsOf(feed)[id], calls, feed.frequencies)
  {
    hide WindowTable, CallsOf, Ordered, RunJourneys, FrequencyVehicles, DepartVehicles, VehicleOf, Expand, NamedRuns;
    var calls, fs := Ordered(TripCalls(feed, id), rank), feed.frequencies;
    TripJourneysAre(feed, rank, id);
    if |calls| >= 2 {
      var t := TripsOf(feed)[id];
      IdOfTrip(feed.trips, |feed.trips|, id);
      var ws := WindowsOf(feed, id);
      var whole := WholeTrip(t, calls, ws);
      TableVehicles(t, calls, fs, |fs|);
      RunsAreVehicles(t, calls, Departs(ws, calls[0].time), whole, |Departs(ws, calls[0].time)|);
      if ws == [] {
        OneVehicle(t, calls, calls[0].time);
      }
    }
  }

  lemma OneVehicle(t: Trip, calls: seq<Call>, depart: int)
    requires calls != []
    ensures DepartVehicles(t, calls, [depart], 1) == multiset{VehicleOf(t, calls, depart)}
  {
    hide VehicleOf;
    assert DepartVehicles(t, calls, [depart], 0) == multiset{};
  }

  lemma {:induction false} IdOfTrip(trips: seq<Trip>, n: nat, id: Id)
    requires n <= |trips| && id in TripTable(trips, n)
    ensures TripTable(trips, n)[id].id == id
  {
    if trips[n - 1].id != id {
      IdOfTrip(trips, n - 1, id);
    }
  }

  lemma {:induction false} InRow(t: Trip, calls: seq<Call>, f: Frequency, n: nat, k: nat)
    requires calls != [] && f.start.Some? && k < n
    ensures VehicleOf(t, calls, Leaves(f, k)) in RowVehicles(t, calls, f, n)
  {
    hide VehicleOf, Leaves;
    if k < n - 1 {
      InRow(t, calls, f, n - 1, k);
    }
  }

  lemma {:induction false} InRows(t: Trip, calls: seq<Call>, fs: seq<Frequency>, n: nat, j: nat, v: Journey)
    requires calls != [] && j < n <= |fs| && RunsTrip(fs[j], t.id)
    requires v in RowVehicles(t, calls, fs[j], Vehicles(fs[j]))
    ensures v in FrequencyVehicles(t, calls, fs, n)
  {
    hide RowVehicles, Vehicles;
    if j < n - 1 {
      InRows(t, calls, fs, n - 1, j, v);
    }
  }

  lemma {:induction false} InOrderJourneys(feed: Feed, rank: Id -> int, order: seq<Id>, m: nat, id: Id, v: Journey)
    requires m <= |order| && id in order[..m] && v in TripJourneys(feed, rank, id)
    ensures v in OrderJourneys(feed, rank, order, m)
  {
    hide TripJourneys;
    assert order[..m] == order[..m - 1] + [order[m - 1]];
    if id != order[m - 1] {
      InOrderJourneys(feed, rank, order, m - 1, id, v);
    }
  }

  /**
   Each vehicle that a row of frequencies.txt promises for a trip with two calls is one journey of the file: it leaves
   each stop in the minute the headway and the trip's own intervals give, and it is the same one at every stop.
   */
  lemma EveryVehicleRunsThrough(feed: Feed, rank: Id -> int, order: seq<Id>, meaning: seq<Pattern<Id>>, id: Id, j: nat,
                                k: nat)
    requires AllJourneys(meaning, |meaning|) == OrderJourneys(feed, rank, order, |order|)
    requires forall t :: t in order <==> TripCalls(feed, t) != []
    requires id in TripsOf(feed) && |TripCalls(feed, id)| >= 2
    requires j < |feed.frequencies| && RunsTrip(feed.frequencies[j], id)
    requires Leaves(feed.frequencies[j], k) < feed.frequencies[j].end.value
    ensures |Ordered(TripCalls(feed, id), rank)| >= 2
    ensures VehicleOf(TripsOf(feed)[id], Ordered(TripCalls(feed, id), rank), Leaves(feed.frequencies[j], k)) in
            AllJourneys(meaning, |meaning|)
  {
    hide WindowTable, CallsOf, Ordered, AllJourneys, OrderJourneys, TripJourneys, VehicleOf, Leaves, Vehicles,
         RowVehicles, FrequencyVehicles, TripTable;
    var calls, fs, t := Ordered(TripCalls(feed, id), rank), feed.frequencies, TripsOf(feed)[id];
    CallsInOrder(feed, rank, id);
    IdOfTrip(feed.trips, |feed.trips|, id);
    TripIsVehicles(feed, rank, id);
    VehiclesAre(fs[j], k);
    InRow(t, calls, fs[j], Vehicles(fs[j]), k);
    var v := VehicleOf(t, calls, Leaves(fs[j], k));
    InRows(t, calls, fs, |fs|, j, v);
    assert id in order && order[..|order|] == order;
    InOrderJourneys(feed, rank, order, |order|, id, v);
  }

  // ---- the file as it is read ----

  function NameAt(names: seq<Id>, i: nat): Id {
    if i < |names| then names[i] else Id("")
  }

  /** A run of the file, every index looked up in its table. */
  function ReadRun(n: Names, p: Pattern<nat>, r: Run<nat>): Journey {
    Journey(NameAt(n.routes, p.route), NameAt(n.headsigns, p.headsign), NameAt(n.services, r.service),
            seq(|p.stops|, i requires 0 <= i < |p.stops| => NameAt(n.stops, p.stops[i])), r.times)
  }

  function ReadRuns(n: Names, p: Pattern<nat>, runs: seq<Run<nat>>): Journeys {
    if runs == [] then multiset{} else multiset{ReadRun(n, p, runs[0])} + ReadRuns(n, p, runs[1..])
  }

  function ReadFile(n: Names, ps: seq<Pattern<nat>>, m: nat): Journeys
    requires m <= |ps|
  {
    if m == 0 then multiset{} else ReadFile(n, ps, m - 1) + ReadRuns(n, ps[m - 1], ps[m - 1].runs)
  }

  lemma RunReads(n: Names, p: Pattern<nat>, a: Pattern<Id>, r: Run<nat>, b: Run<Id>)
    requires p.route < |n.routes| && n.routes[p.route] == a.route
    requires p.headsign < |n.headsigns| && n.headsigns[p.headsign] == a.headsign
    requires StopsNamed(n.stops, p.stops, a.stops) && RunNamed(n.services, r, b)
    ensures ReadRun(n, p, r) == JourneyOf(a, b)
  {}

  lemma {:induction false} RunsRead(n: Names, p: Pattern<nat>, a: Pattern<Id>, rs: seq<Run<nat>>, as_: seq<Run<Id>>)
    requires p.route < |n.routes| && n.routes[p.route] == a.route
    requires p.headsign < |n.headsigns| && n.headsigns[p.headsign] == a.headsign
    requires StopsNamed(n.stops, p.stops, a.stops) && RunsNamed(n.services, rs, as_)
    ensures ReadRuns(n, p, rs) == RunJourneys(a, as_)
  {
    hide StopsNamed, ReadRun, JourneyOf;
    if rs != [] {
      RunsRead(n, p, a, rs[1..], as_[1..]);
      RunReads(n, p, a, rs[0], as_[0]);
    }
  }

  /** Read through its tables of names, the file holds exactly its journeys. */
  lemma {:induction false} FileReads(n: Names, ps: seq<Pattern<nat>>, meaning: seq<Pattern<Id>>, m: nat)
    requires Means(n, ps, meaning) && m <= |ps|
    ensures |ps| == |meaning| && ReadFile(n, ps, m) == AllJourneys(meaning, m)
  {
    hide ReadRuns, RunJourneys, RunsNamed, StopsNamed;
    if m > 0 {
      FileReads(n, ps, meaning, m - 1);
      RunsRead(n, ps[m - 1], meaning[m - 1], ps[m - 1].runs, meaning[m - 1].runs);
    }
  }

  /** Read through its tables, the file holds the vehicles of all trips with two calls, and no others. */
  lemma FileHoldsVehicles(feed: Feed, rank: Id -> int, order: seq<Id>, file: PatternFile, meaning: seq<Pattern<Id>>)
    requires Describes(feed, rank, file, meaning)
    requires AllJourneys(meaning, |meaning|) == OrderJourneys(feed, rank, order, |order|)
    requires forall t :: t in order <==> TripCalls(feed, t) != []
    ensures ReadFile(file.names, file.patterns, |file.patterns|) == VehiclesIn(feed, rank, order, |order|)
  {
    hide AllJourneys, OrderJourneys, Means, CallsOf, Scan, PatternMinutes;
    FileReads(file.names, file.patterns, meaning, |file.patterns|);
    forall i | 0 <= i < |order| ensures order[i] in TripsOf(feed) {
      assert order[i] in order;
      CallsKnown(feed, order[i], |feed.stopTimes|);
    }
    OrderIsVehicles(feed, rank, order, |order|);
  }

  /** The vehicles of the first `m` trips listed. */
  function VehiclesIn(feed: Feed, rank: Id -> int, order: seq<Id>, m: nat): Journeys
    requires m <= |order|
  {
    if m == 0 then multiset{}
    else
      var id := order[m - 1];
      var calls := Ordered(TripCalls(feed, id), rank);
      VehiclesIn(feed, rank, order, m - 1) +
      if |calls| < 2 || id !in TripsOf(feed) then multiset{}
      else TripVehicles(TripsOf(feed)[id], calls, feed.frequencies)
  }

  lemma {:induction false} OrderIsVehicles(feed: Feed, rank: Id -> int, order: seq<Id>, m: nat)
    requires m <= |order| && forall i :: 0 <= i < m ==> order[i] in TripsOf(feed)
    ensures OrderJourneys(feed, rank, order, m) == VehiclesIn(feed, rank, order, m)
  {
    hide TripJourneys, TripVehicles, CallsOf, Ordered, TripsOf;
    if m > 0 {
      OrderIsVehicles(feed, rank, order, m - 1);
      TripIsVehicles(feed, rank, order[m - 1]);
    }
  }

  /** The runs of a pattern leave their first stop in the order they are listed. */
  lemma RunsLeaveInOrder(p: Pattern<nat>, i: nat, j: nat)
    requires SortedBy(p.runs, RunIndexLe) && i < j < |p.runs| && p.runs[i].times != [] && p.runs[j].times != []
    ensures p.runs[i].times[0] <= p.runs[j].times[0]
  {
    assert RunIndexLe(p.runs[i], p.runs[j]);
  }

  lemma {:induction false} SumsOf(deltas: seq<int>, n: nat, k: nat)
    requires 0 < k < n <= |deltas|
    ensures Sums(deltas, n)[k] == Sums(deltas, n)[k - 1] + deltas[k]
  {
    if k < n - 1 {
      SumsOf(deltas, n - 1, k);
    }
  }

  /** A board is listed under indices of its tables, which name each thing once, and counts forward. */
  lemma BoardsCountForward(feed: Feed, b: Bundle, g: GroupKey, k: nat)
    requires Holds(feed, b) && g in b.boards && 0 < k < |b.boards[g]|
    ensures b.boards[g][k] >= 0
    ensures g.stop < |b.names.stops| && g.meta.route < |b.names.routes| && g.meta.headsign < |b.names.headsigns|
    ensures g.meta.service < |b.names.services|
    ensures forall i, j :: 0 <= i < j < |b.names.stops| ==> b.names.stops[i] != b.names.stops[j]
    ensures forall i, j :: 0 <= i < j < |b.names.routes| ==> b.names.routes[i] != b.names.routes[j]
  {
    hide BoardMinutes, Sums;
    SumsOf(b.boards[g], |b.boards[g]|, k);
    var times := Times(b.boards[g]);
    assert IntLe(times[k - 1], times[k]);
  }
}
