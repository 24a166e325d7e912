/**
 The departures a feed promises, read straight off its rows: one for every timed row of a trip without frequencies, and
 for one with frequencies a departure per headway of each of its rows in `frequencies.txt`. The boards hold exactly
 these, and so do the patterns for trips with two calls, up to where a trip's offsets are counted from.
 */
module TimetableDepartures {
  import opened Util
  import opened Timetable
  import opened TimetableBoards
  import opened TimetablePatterns
  import opened TimetablePatternBuild

  // ---- one row of frequencies.txt ----

  /** The row can be read and is of this trip. */
  predicate RunsTrip(f: Frequency, trip: Id) {
    f.trip == trip && f.start.Some? && f.end.Some? && f.headway > 0 && f.start.value <= f.end.value
  }

  /** When the `k`-th vehicle of the row leaves. */
  function Leaves(f: Frequency, k: nat): int
    requires f.start.Some?
  {
    f.start.value + k * f.headway
  }

  /** How many vehicles leave before the end of the row. */
  function Vehicles(f: Frequency): (n: nat)
    requires f.start.Some? && f.end.Some? && f.headway > 0 && f.start.value <= f.end.value
  {
    (f.end.value - f.start.value + f.headway - 1) / f.headway
  }

  lemma VehiclesAre(f: Frequency, k: nat)
    requires f.start.Some? && f.end.Some? && f.headway > 0 && f.start.value <= f.end.value
    ensures k < Vehicles(f) <==> Leaves(f, k) < f.end.value
  {
    var span, h := f.end.value - f.start.value, f.headway;
    var n := (span + h - 1) / h;
    assert n * h <= span + h - 1 < n * h + h;
    if k < n {
      assert k * h + h == (k + 1) * h;
      Monotone(k + 1, n, h);
    } else {
      Monotone(n, k, h);
    }
  }

  lemma Monotone(a: nat, b: nat, h: nat)
    requires a <= b
    ensures a * h <= b * h
  {
    assert b * h == a * h + (b - a) * h;
  }

  lemma {:induction false} RangeIs(start: int, end: int, h: nat, k: nat)
    requires h > 0
    ensures k < |Range(start, end, h)| <==> start + k * h < end
    ensures k < |Range(start, end, h)| ==> Range(start, end, h)[k] == start + k * h
    decreases k
  {
    if start < end {
      if k > 0 {
        RangeIs(start + h, end, h, k - 1);
        assert h + (k - 1) * h == k * h;
      }
    } else {
      Monotone(0, k, h);
    }
  }

  /** The minutes in which the first `n` vehicles of the row call where the trip's row says `time`. */
  function VehicleMinutes(f: Frequency, time: int, base: int, n: nat): Minutes
    requires f.start.Some?
  {
    if n == 0 then multiset{}
    else VehicleMinutes(f, time, base, n - 1) + multiset{(Leaves(f, n - 1) + (time - base)) / 60}
  }

  lemma RangeLeaves(f: Frequency, k: nat)
    requires f.start.Some? && f.end.Some? && f.headway > 0 && k < |Range(f.start.value, f.end.value, f.headway)|
    ensures Range(f.start.value, f.end.value, f.headway)[k] == Leaves(f, k)
  {
    hide Range;
    RangeIs(f.start.value, f.end.value, f.headway, k);
  }

  lemma {:induction false} RangeMinutes(f: Frequency, time: int, base: int, n: nat)
    requires f.start.Some? && f.end.Some? && f.headway > 0
    requires n <= |Range(f.start.value, f.end.value, f.headway)|
    ensures MinutesAt(Range(f.start.value, f.end.value, f.headway), time, base, n) == VehicleMinutes(f, time, base, n)
  {
    hide Range, Leaves;
    if n > 0 {
      RangeMinutes(f, time, base, n - 1);
      RangeLeaves(f, n - 1);
    }
  }

  lemma RangeCount(f: Frequency)
    requires f.start.Some? && f.end.Some? && f.headway > 0 && f.start.value <= f.end.value
    ensures |Range(f.start.value, f.end.value, f.headway)| == Vehicles(f)
  {
    hide Range, Vehicles;
    var m, n := |Range(f.start.value, f.end.value, f.headway)|, Vehicles(f);
    RangeIs(f.start.value, f.end.value, f.headway, m);
    RangeIs(f.start.value, f.end.value, f.headway, n);
    VehiclesAre(f, m);
    VehiclesAre(f, n);
  }

  // ---- one row of stop_times.txt ----

  /** What the first `n` rows of frequencies.txt make of a trip's row. */
  function FrequencyMinutes(fs: seq<Frequency>, n: nat, trip: Id, time: int, base: int): Minutes
    requires n <= |fs|
  {
    if n == 0 then multiset{}
    else
      FrequencyMinutes(fs, n - 1, trip, time, base) +
      if RunsTrip(fs[n - 1], trip) then VehicleMinutes(fs[n - 1], time, base, Vehicles(fs[n - 1])) else multiset{}
  }

  predicate ByFrequency(fs: seq<Frequency>, trip: Id) {
    exists j :: 0 <= j < |fs| && RunsTrip(fs[j], trip)
  }

  lemma OneMoreMinute(departs: seq<int>, time: int, base: int, n: nat)
    requires n < |departs|
    ensures MinutesAt(departs, time, base, n + 1) ==
            MinutesAt(departs, time, base, n) + multiset{Minute(departs[n], time, base)}
  {
    hide Minute;
  }

  lemma NoMinuteYet(departs: seq<int>, time: int, base: int)
    ensures MinutesAt(departs, time, base, 0) == multiset{}
  {}

  lemma Regrouped(a: Minutes, b: Minutes, c: Minutes)
    ensures a + (b + c) == (a + b) + c
    ensures b == multiset{} ==> a + b == a
  {}

  lemma {:induction false} MinutesOfBoth(a: seq<int>, b: seq<int>, time: int, base: int, n: nat)
    requires n <= |b|
    ensures MinutesAt(a + b, time, base, |a| + n) == MinutesAt(a, time, base, |a|) + MinutesAt(b, time, base, n)
  {
    hide Minute, MinutesAt;
    var before := MinutesAt(a, time, base, |a|);
    if n == 0 {
      MinutesOfFirst(a, a + b, time, base, |a|);
      NoMinuteYet(b, time, base);
      Regrouped(before, MinutesAt(b, time, base, 0), multiset{});
    } else {
      MinutesOfBoth(a, b, time, base, n - 1);
      assert (a + b)[|a| + n - 1] == b[n - 1];
      OneMoreMinute(a + b, time, base, |a| + n - 1);
      OneMoreMinute(b, time, base, n - 1);
      Regrouped(before, MinutesAt(b, time, base, n - 1), multiset{Minute(b[n - 1], time, base)});
    }
  }

  lemma {:induction false} MinutesOfFirst(a: seq<int>, b: seq<int>, time: int, base: int, n: nat)
    requires n <= |a| && n <= |b| && forall i :: 0 <= i < n ==> a[i] == b[i]
    ensures MinutesAt(a, time, base, n) == MinutesAt(b, time, base, n)
  {
    hide Minute;
    if n > 0 {
      MinutesOfFirst(a, b, time, base, n - 1);
    }
  }

  lemma {:induction false} ExpandOfFirst(a: seq<Window>, b: seq<Window>, n: nat)
    requires n <= |a| && n <= |b| && forall i :: 0 <= i < n ==> a[i] == b[i]
    ensures Expand(a, n) == Expand(b, n)
  {
    if n > 0 {
      ExpandOfFirst(a, b, n - 1);
    }
  }

  /** One more window is what its frequency row makes more. */
  lemma WindowAdds(ws: seq<Window>, f: Frequency, time: int, base: int)
    requires RunsTrip(f, f.trip)
    ensures var more := ws + [Window(f.start.value, f.end.value, f.headway)];
            MinutesAt(Expand(more, |more|), time, base, |Expand(more, |more|)|) ==
            MinutesAt(Expand(ws, |ws|), time, base, |Expand(ws, |ws|)|) + VehicleMinutes(f, time, base, Vehicles(f))
  {
    hide Range, Vehicles, VehicleMinutes, MinutesAt;
    var more := ws + [Window(f.start.value, f.end.value, f.headway)];
    ExpandOfFirst(ws, more, |ws|);
    var range := Range(f.start.value, f.end.value, f.headway);
    assert Expand(more, |ws| + 1) == Expand(ws, |ws|) + range;
    MinutesOfBoth(Expand(ws, |ws|), range, time, base, |range|);
    RangeMinutes(f, time, base, |range|);
    RangeCount(f);
  }

  lemma ListedNext(fs: seq<Frequency>, n: nat, trip: Id)
    requires n < |fs|
    ensures var ws, f := Listed(WindowTable(fs, n), trip), fs[n];
            Listed(WindowTable(fs, n + 1), trip)
            == if RunsTrip(f, trip) then ws + [Window(f.start.value, f.end.value, f.headway)] else ws
  {}

  /** The windows listed for a trip are expanded to what its frequency rows make. */
  lemma {:induction false} TableMinutes(fs: seq<Frequency>, n: nat, trip: Id, time: int, base: int)
    requires n <= |fs|
    ensures var ws := Listed(WindowTable(fs, n), trip);
            MinutesAt(Expand(ws, |ws|), time, base, |Expand(ws, |ws|)|) == FrequencyMinutes(fs, n, trip, time, base)
    ensures Listed(WindowTable(fs, n), trip) == [] <==> forall j :: 0 <= j < n ==> !RunsTrip(fs[j], trip)
  {
    hide Vehicles, VehicleMinutes, WindowTable, Expand, MinutesAt;
    if n == 0 {
      NoWindows(fs, trip, time, base);
    } else {
      TableMinutes(fs, n - 1, trip, time, base);
      ListedNext(fs, n - 1, trip);
      if RunsTrip(fs[n - 1], trip) {
        WindowAdds(Listed(WindowTable(fs, n - 1), trip), fs[n - 1], time, base);
      }
    }
  }

  lemma NoWindows(fs: seq<Frequency>, trip: Id, time: int, base: int)
    ensures Listed(WindowTable(fs, 0), trip) == []
    ensures MinutesAt(Expand([], 0), time, base, |Expand([], 0)|) == multiset{}
  {}

  /** All departures of a row: by frequency, or the one it states. */
  function RowDepartures(fs: seq<Frequency>, r: StopTime, base: int): Minutes
    requires r.time.Some?
  {
    if ByFrequency(fs, r.trip) then FrequencyMinutes(fs, |fs|, r.trip, r.time.value, base)
       else multiset{r.time.value / 60}
  }

  lemma RowMinutesAre(feed: Feed, r: StopTime, base: int)
    requires r.time.Some?
    ensures RowMinutes(feed, r, base) == RowDepartures(feed.frequencies, r, base)
  {
    hide WindowTable, FrequencyMinutes, Expand;
    var ws, fs := WindowsOf(feed, r.trip), feed.frequencies;
    TableMinutes(fs, |fs|, r.trip, r.time.value, base);
    if ws == [] {
      assert MinutesAt([base], r.time.value, base, 0) == multiset{};
    }
  }

  // ---- the rows of a key ----

  /** The last row of trips.txt with the id says route, headsign and service. */
  predicate TripSays(feed: Feed, id: Id, route: Id, headsign: Id, service: Id) {
    exists i :: && 0 <= i < |feed.trips| && feed.trips[i].id == id
                && (forall j :: i < j < |feed.trips| ==> feed.trips[j].id != id)
                && (feed.trips[i].route, feed.trips[i].headsign, feed.trips[i].service) == (route, headsign, service)
  }

  /** The row has a time, its stop is known, and so is its trip, which is of the key's route, headsign and service. */
  predicate Under(feed: Feed, k: Key, r: StopTime) {
    r.stop == k.stop && r.stop in feed.stops && r.time.Some? && TripSays(feed, r.trip, k.route, k.headsign, k.service)
  }

  lemma {:induction false} TripIsLast(trips: seq<Trip>, n: nat, id: Id, i: nat)
    requires i < n <= |trips| && trips[i].id == id && forall j :: i < j < n ==> trips[j].id != id
    ensures Get(TripTable(trips, n), id) == Some(trips[i])
  {
    if i < n - 1 {
      TripIsLast(trips, n - 1, id, i);
    }
  }

  lemma {:induction false} LastTrip(trips: seq<Trip>, n: nat, id: Id) returns (i: nat)
    requires n <= |trips| && id in TripTable(trips, n)
    ensures i < n && trips[i].id == id && forall j :: i < j < n ==> trips[j].id != id
  {
    if trips[n - 1].id == id {
      i := n - 1;
    } else {
      i := LastTrip(trips, n - 1, id);
    }
  }

  lemma UnderIs(feed: Feed, k: Key, r: StopTime)
    ensures Under(feed, k, r) <==> Kept(feed, r) && KeyOf(TripsOf(feed)[r.trip], r.stop) == k
  {
    hide TripTable;
    if r.trip in TripsOf(feed) {
      var i := LastTrip(feed.trips, |feed.trips|, r.trip);
      TripIsLast(feed.trips, |feed.trips|, r.trip, i);
      assert TripSays(feed, r.trip, feed.trips[i].route, feed.trips[i].headsign, feed.trips[i].service);
    }
    if TripSays(feed, r.trip, k.route, k.headsign, k.service) {
      var i :| && 0 <= i < |feed.trips| && feed.trips[i].id == r.trip
               && (forall j :: i < j < |feed.trips| ==> feed.trips[j].id != r.trip)
               && (feed.trips[i].route, feed.trips[i].headsign, feed.trips[i].service) == (k.route, k.headsign,
                                                                                           k.service);
      TripIsLast(feed.trips, |feed.trips|, r.trip, i);
    }
  }

  // ---- where offsets are counted from ----

  /** The earliest time any row of the trip states. */
  predicate Earliest(feed: Feed, trip: Id, base: int) {
    && (exists i :: 0 <= i < |feed.stopTimes| && feed.stopTimes[i].trip == trip && feed.stopTimes[i].time == Some(base))
    && forall i :: 0 <= i < |feed.stopTimes| && feed.stopTimes[i].trip == trip && feed.stopTimes[i].time.Some? ==>
         base <= feed.stopTimes[i].time.value
  }

  lemma EarliestIs(feed: Feed, trip: Id, base: int)
    ensures Earliest(feed, trip, base) <==> BoardBase(feed, trip) == Some(base)
  {
    hide FirstTime;
    forall i: nat | i < |feed.stopTimes| && feed.stopTimes[i].trip == trip && feed.stopTimes[i].time.Some?
      ensures BoardBase(feed, trip).Some? && BoardBase(feed, trip).value <= feed.stopTimes[i].time.value
    {
      FirstTimeFound(feed.stopTimes, trip, |feed.stopTimes|, i);
    }
    if BoardBase(feed, trip).Some? {
      var i := FirstTimeIsARow(feed.stopTimes, trip, |feed.stopTimes|);
    }
  }

  /** The time of the trip's first call, in the order of sequence, stop and time. */
  predicate FirstCall(feed: Feed, rank: Id -> int, trip: Id, base: int) {
    exists i :: && 0 <= i < |feed.stopTimes| && Kept(feed, feed.stopTimes[i])
                && feed.stopTimes[i].trip == trip && feed.stopTimes[i].time == Some(base)
                && FirstOfCalls(feed, rank, trip, feed.stopTimes[i])
  }

  predicate FirstOfCalls(feed: Feed, rank: Id -> int, trip: Id, a: StopTime)
    requires a.time.Some?
  {
    forall j :: 0 <= j < |feed.stopTimes| && Kept(feed, feed.stopTimes[j]) && feed.stopTimes[j].trip == trip ==>
      var b := feed.stopTimes[j];
      || a.sequence < b.sequence
      || (a.sequence == b.sequence && rank(a.stop) < rank(b.stop))
      || (a.sequence == b.sequence && rank(a.stop) == rank(b.stop) && a.time.value <= b.time.value)
  }

  lemma FirstCallIs(feed: Feed, rank: Id -> int, trip: Id, base: int)
    requires |TripCalls(feed, trip)| >= 2
    ensures FirstCall(feed, rank, trip, base) <==> PatternBase(feed, trip, rank) == Some(base)
  {
    hide TripsOf, CallsOf, Ordered, FirstOfCalls;
    var n, calls := |feed.stopTimes|, TripCalls(feed, trip);
    OrderedFirst(calls, rank);
    var c := Ordered(calls, rank)[0];
    var j := CallIsARow(feed, trip, n, c);
    FirstIsLeast(feed, rank, trip, j, c);
    if i :| && 0 <= i < n && Kept(feed, feed.stopTimes[i])
            && feed.stopTimes[i].trip == trip && feed.stopTimes[i].time == Some(base)
            && FirstOfCalls(feed, rank, trip, feed.stopTimes[i])
    {
      SameFirst(feed, rank, trip, i, j);
    }
  }

  lemma SameFirst(feed: Feed, rank: Id -> int, trip: Id, i: nat, j: nat)
    requires i < |feed.stopTimes| && Kept(feed, feed.stopTimes[i]) && feed.stopTimes[i].trip == trip
    requires j < |feed.stopTimes| && Kept(feed, feed.stopTimes[j]) && feed.stopTimes[j].trip == trip
    requires FirstOfCalls(feed, rank, trip, feed.stopTimes[i]) && FirstOfCalls(feed, rank, trip, feed.stopTimes[j])
    ensures feed.stopTimes[i].time == feed.stopTimes[j].time
  {
    hide TripsOf;
  }

  lemma FirstIsLeast(feed: Feed, rank: Id -> int, trip: Id, j: nat, c: Call)
    requires j < |feed.stopTimes| && Kept(feed, feed.stopTimes[j]) && feed.stopTimes[j].trip == trip
    requires var r := feed.stopTimes[j]; c == Call(r.sequence, r.stop, r.time.value)
    requires forall d :: d in TripCalls(feed, trip) ==> CallLe(c, d, rank)
    ensures FirstOfCalls(feed, rank, trip, feed.stopTimes[j])
  {
    hide TripsOf, CallsOf;
    forall i: nat | i < |feed.stopTimes| && Kept(feed, feed.stopTimes[i]) && feed.stopTimes[i].trip == trip
      ensures CallLe(c, Call(feed.stopTimes[i].sequence, feed.stopTimes[i].stop, feed.stopTimes[i].time.value), rank)
    {
      RowIsACall(feed, trip, |feed.stopTimes|, i);
    }
  }

  /** Two rows of the trip are kept. */
  predicate TwoCalls(feed: Feed, trip: Id) {
    exists i, j :: && 0 <= i < j < |feed.stopTimes| && Kept(feed, feed.stopTimes[i]) && Kept(feed, feed.stopTimes[j])
                   && feed.stopTimes[i].trip == trip && feed.stopTimes[j].trip == trip
  }

  lemma {:induction false} OneCallOneRow(feed: Feed, trip: Id, n: nat)
    requires n <= |feed.stopTimes| && CallsOf(feed, trip, n) != []
    ensures exists i :: 0 <= i < n && Kept(feed, feed.stopTimes[i]) && feed.stopTimes[i].trip == trip
  {
    hide TripsOf;
    var r := feed.stopTimes[n - 1];
    if !(Kept(feed, r) && r.trip == trip) {
      OneCallOneRow(feed, trip, n - 1);
    }
  }

  lemma {:induction false} TwoCallsTwoRows(feed: Feed, trip: Id, n: nat)
    requires n <= |feed.stopTimes| && |CallsOf(feed, trip, n)| >= 2
    ensures TwoCalls(feed, trip)
  {
    hide TripsOf;
    var r := feed.stopTimes[n - 1];
    if Kept(feed, r) && r.trip == trip {
      OneCallOneRow(feed, trip, n - 1);
    } else {
      TwoCallsTwoRows(feed, trip, n - 1);
    }
  }

  lemma TwoCallsAre(feed: Feed, trip: Id)
    ensures TwoCalls(feed, trip) <==> |TripCalls(feed, trip)| >= 2
  {
    hide TripsOf, CallsOf, Kept;
    if i, j :| && 0 <= i < j < |feed.stopTimes| && Kept(feed, feed.stopTimes[i]) && Kept(feed, feed.stopTimes[j])
               && feed.stopTimes[i].trip == trip && feed.stopTimes[j].trip == trip
    {
      TwoRowsTwoCalls(feed, trip, |feed.stopTimes|, i, j);
    }
    if |TripCalls(feed, trip)| >= 2 { TwoCallsTwoRows(feed, trip, |feed.stopTimes|); }
  }

  // ---- the board of a key ----

  /** The departures of the first `n` rows under the key, offsets counted from the earliest time of each trip. */
  ghost function Promised(feed: Feed, k: Key, n: nat): Minutes
    requires n <= |feed.stopTimes|
  {
    if n == 0 then multiset{}
    else
      var r := feed.stopTimes[n - 1];
      Promised(feed, k, n - 1) +
      if Under(feed, k, r) && exists b :: Earliest(feed, r.trip, b) then
        (var b :| Earliest(feed, r.trip, b); RowDepartures(feed.frequencies, r, b))
      else multiset{}
  }

  lemma {:induction false} BoardsHoldPromised(feed: Feed, k: Key, n: nat)
    requires n <= |feed.stopTimes|
    ensures BoardMinutes(feed, k, n) == Promised(feed, k, n)
  {
    hide RowMinutes, RowDepartures, Earliest, TripSays, Kept, KeyOf, TripsOf, BoardBase;
    if n > 0 {
      BoardsHoldPromised(feed, k, n - 1);
      var r := feed.stopTimes[n - 1];
      UnderIs(feed, k, r);
      forall b ensures Earliest(feed, r.trip, b) <==>
             BoardBase(feed, r.trip) == Some(b) { EarliestIs(feed, r.trip, b); }
      if Under(feed, k, r) && BoardBase(feed, r.trip).Some? {
        assert Earliest(feed, r.trip, BoardBase(feed, r.trip).value);
        RowMinutesAre(feed, r, BoardBase(feed, r.trip).value);
      }
    }
  }

  /** The same of the patterns: of trips with two calls, offsets counted from the first of them. */
  ghost function Scheduled(feed: Feed, rank: Id -> int, k: Key, n: nat): Minutes
    requires n <= |feed.stopTimes|
  {
    if n == 0 then multiset{}
    else
      var r := feed.stopTimes[n - 1];
      Scheduled(feed, rank, k, n - 1) +
      if Under(feed, k, r) && TwoCalls(feed, r.trip) && exists b :: FirstCall(feed, rank, r.trip, b) then
        (var b :| FirstCall(feed, rank, r.trip, b); RowDepartures(feed.frequencies, r, b))
      else multiset{}
  }

  lemma {:induction false} PatternsHoldScheduled(feed: Feed, rank: Id -> int, k: Key, n: nat)
    requires n <= |feed.stopTimes|
    ensures PatternMinutes(feed, rank, k, n) == Scheduled(feed, rank, k, n)
  {
    hide RowMinutes, RowDepartures, FirstCall, TwoCalls, TripSays, Kept, KeyOf, TripsOf, CallsOf, PatternBase;
    if n > 0 {
      PatternsHoldScheduled(feed, rank, k, n - 1);
      ScheduledRow(feed, rank, k, feed.stopTimes[n - 1]);
    }
  }

  lemma ScheduledRow(feed: Feed, rank: Id -> int, k: Key, r: StopTime)
    ensures var share := PatternShare(feed, rank, k, r);
            if Under(feed, k, r) && TwoCalls(feed, r.trip) then
              && (exists b :: FirstCall(feed, rank, r.trip, b))
              && forall b :: FirstCall(feed, rank, r.trip, b) ==> share == RowDepartures(feed.frequencies, r, b)
            else share == multiset{}
  {
    hide RowMinutes, RowDepartures, FirstCall, TwoCalls, TripSays, Kept, KeyOf, TripsOf, CallsOf;
    UnderIs(feed, k, r);
    TwoCallsAre(feed, r.trip);
    OrderedCount(feed, rank, r.trip);
    if Under(feed, k, r) && TwoCalls(feed, r.trip) {
      forall b ensures FirstCall(feed, rank, r.trip, b) <==> PatternBase(feed, r.trip, rank) == Some(b) {
        FirstCallIs(feed, rank, r.trip, b);
      }
      var base := PatternBase(feed, r.trip, rank).value;
      assert FirstCall(feed, rank, r.trip, base);
      RowMinutesAre(feed, r, base);
    }
  }

  lemma OrderedCount(feed: Feed, rank: Id -> int, trip: Id)
    ensures PatternBase(feed, trip, rank).Some? <==> |TripCalls(feed, trip)| >= 2
  {
    SortPermutes(TripCalls(feed, trip), (a, b) => CallLe(a, b, rank));
  }

  // ---- in the two files ----

  lemma {:induction false} VehicleListed(f: Frequency, time: int, base: int, n: nat, v: nat)
    requires f.start.Some? && v < n
    ensures (Leaves(f, v) + (time - base)) / 60 in VehicleMinutes(f, time, base, n)
  {
    hide Leaves;
    if v < n - 1 {
      VehicleListed(f, time, base, n - 1, v);
    }
  }

  /** Vehicle `v` of the frequency row calls in that minute. */
  lemma {:induction false} FrequencyListed(fs: seq<Frequency>, n: nat, trip: Id, time: int, base: int, j: nat, v: nat)
    requires j < n <= |fs| && RunsTrip(fs[j], trip) && Leaves(fs[j], v) < fs[j].end.value
    ensures (Leaves(fs[j], v) + (time - base)) / 60 in FrequencyMinutes(fs, n, trip, time, base)
  {
    hide Leaves, Vehicles, VehicleMinutes;
    if j < n - 1 {
      FrequencyListed(fs, n - 1, trip, time, base, j, v);
    } else {
      VehiclesAre(fs[j], v);
      VehicleListed(fs[j], time, base, Vehicles(fs[j]), v);
    }
  }

  lemma {:induction false} PromisedRow(feed: Feed, k: Key, n: nat, i: nat, base: int, m: int)
    requires i < n <= |feed.stopTimes| && Under(feed, k, feed.stopTimes[i])
    requires Earliest(feed, feed.stopTimes[i].trip, base)
    requires m in RowDepartures(feed.frequencies, feed.stopTimes[i], base)
    ensures m in Promised(feed, k, n)
  {
    hide RowDepartures, Under, Earliest;
    if i < n - 1 {
      PromisedRow(feed, k, n - 1, i, base, m);
    } else {
      forall b | Earliest(feed, feed.stopTimes[i].trip, b) ensures b == base {
        OneEarliest(feed, feed.stopTimes[i].trip, b, base);
      }
      UnderIsTimed(feed, k, feed.stopTimes[i]);
    }
  }

  lemma UnderIsTimed(feed: Feed, k: Key, r: StopTime)
    requires Under(feed, k, r)
    ensures r.time.Some?
  {}

  lemma OneEarliest(feed: Feed, trip: Id, a: int, b: int)
    requires Earliest(feed, trip, a) && Earliest(feed, trip, b)
    ensures a == b
  {}

  /** Every vehicle of every frequency row of a trip is on the board of each stop the trip calls at. */
  lemma EveryVehicleIsOnTheBoard(feed: Feed, b: Bundle, g: GroupKey, i: nat, j: nat, v: nat, base: int)
    requires Holds(feed, b) && KeyIn(b.names, g)
    requires i < |feed.stopTimes| && Under(feed, NameOf(b.names, g), feed.stopTimes[i])
    requires j < |feed.frequencies| && RunsTrip(feed.frequencies[j], feed.stopTimes[i].trip)
    requires Leaves(feed.frequencies[j], v) < feed.frequencies[j].end.value
    requires Earliest(feed, feed.stopTimes[i].trip, base)
    ensures (Leaves(feed.frequencies[j], v) + (feed.stopTimes[i].time.value - base)) / 60 in Times(ListedIn(b.boards,
                                                                                                            g))
  {
    hide Leaves, Times, BoardMinutes, Promised, FrequencyMinutes, Earliest, TripSays, DistinctNames, RunsTrip;
    var r, fs, k := feed.stopTimes[i], feed.frequencies, NameOf(b.names, g);
    RunsTripReads(fs[j], r.trip);
    var m := (Leaves(fs[j], v) + (r.time.value - base)) / 60;
    FrequencyListed(fs, |fs|, r.trip, r.time.value, base, j, v);
    PromisedRow(feed, k, |feed.stopTimes|, i, base, m);
    BoardsHoldPromised(feed, k, |feed.stopTimes|);
    assert m in multiset(Times(ListedIn(b.boards, g)));
  }

  lemma RunsTripReads(f: Frequency, trip: Id)
    requires RunsTrip(f, trip)
    ensures f.start.Some? && f.end.Some?
  {}

  lemma {:induction false} ScheduledHas(feed: Feed, rank: Id -> int, k: Key, n: nat, i: nat, base: int, m: int)
    requires i < n <= |feed.stopTimes| && Under(feed, k, feed.stopTimes[i])
    requires TwoCalls(feed, feed.stopTimes[i].trip) && FirstCall(feed, rank, feed.stopTimes[i].trip, base)
    requires m in RowDepartures(feed.frequencies, feed.stopTimes[i], base)
    ensures m in PatternMinutes(feed, rank, k, n)
  {
    hide RowDepartures, Under, FirstCall, TwoCalls, PatternShare;
    if i < n - 1 {
      ScheduledHas(feed, rank, k, n - 1, i, base, m);
    } else {
      UnderIsTimed(feed, k, feed.stopTimes[i]);
      ScheduledRow(feed, rank, k, feed.stopTimes[i]);
    }
  }

  /** And in the scan of the patterns, for a trip with two calls. */
  lemma EveryVehicleIsInThePatterns(feed: Feed, rank: Id -> int, file: PatternFile, meaning: seq<Pattern<Id>>, k: Key,
                                    i: nat, j: nat, v: nat, base: int)
    requires Describes(feed, rank, file, meaning) && i < |feed.stopTimes| && Under(feed, k, feed.stopTimes[i])
    requires j < |feed.frequencies| && RunsTrip(feed.frequencies[j], feed.stopTimes[i].trip)
    requires Leaves(feed.frequencies[j], v) < feed.frequencies[j].end.value
    requires TwoCalls(feed, feed.stopTimes[i].trip) && FirstCall(feed, rank, feed.stopTimes[i].trip, base)
    ensures (Leaves(feed.frequencies[j], v) + (feed.stopTimes[i].time.value - base)) / 60 in Scan(meaning, k, |meaning|)
  {
    hide Leaves, Scan, Means, PatternMinutes, FrequencyMinutes, FirstCall, TwoCalls, TripSays, RunsTrip;
    var r, fs := feed.stopTimes[i], feed.frequencies;
    RunsTripReads(fs[j], r.trip);
    var m := (Leaves(fs[j], v) + (r.time.value - base)) / 60;
    FrequencyListed(fs, |fs|, r.trip, r.time.value, base, j, v);
    ScheduledHas(feed, rank, k, |feed.stopTimes|, i, base, m);
  }

  // ---- how many ----

  function VehiclesOf(fs: seq<Frequency>, n: nat, trip: Id): nat
    requires n <= |fs|
  {
    if n == 0 then 0 else VehiclesOf(fs, n - 1, trip) + if RunsTrip(fs[n - 1], trip) then Vehicles(fs[n - 1]) else 0
  }

  /**
   The departures of the first `n` rows under the key: one for each vehicle, or one for a trip without frequencies.
   */
  function Departures(feed: Feed, k: Key, n: nat): nat
    requires n <= |feed.stopTimes|
  {
    if n == 0 then 0
    else
      var r := feed.stopTimes[n - 1];
      Departures(feed, k, n - 1) +
      if !Under(feed, k, r) then 0
      else if ByFrequency(feed.frequencies, r.trip) then VehiclesOf(feed.frequencies, |feed.frequencies|, r.trip) else 1
  }

  lemma {:induction false} VehicleCount(f: Frequency, time: int, base: int, n: nat)
    requires f.start.Some?
    ensures |VehicleMinutes(f, time, base, n)| == n
  {
    hide Leaves;
    if n > 0 {
      VehicleCount(f, time, base, n - 1);
    }
  }

  lemma {:induction false} FrequencyCount(fs: seq<Frequency>, n: nat, trip: Id, time: int, base: int)
    requires n <= |fs|
    ensures |FrequencyMinutes(fs, n, trip, time, base)| == VehiclesOf(fs, n, trip)
  {
    hide Vehicles, VehicleMinutes;
    if n > 0 {
      FrequencyCount(fs, n - 1, trip, time, base);
      if RunsTrip(fs[n - 1], trip) { VehicleCount(fs[n - 1], time, base, Vehicles(fs[n - 1])); }
    }
  }

  lemma RowCount(feed: Feed, k: Key, r: StopTime)
    requires r in feed.stopTimes && Under(feed, k, r)
    ensures exists b :: Earliest(feed, r.trip, b)
    ensures forall b ::
              |RowDepartures(feed.frequencies, r, b)| ==
              if ByFrequency(feed.frequencies, r.trip) then VehiclesOf(feed.frequencies, |feed.frequencies|, r.trip)
                 else 1
  {
    hide FrequencyMinutes, VehiclesOf, Earliest, FirstTime, TripSays, ByFrequency;
    forall b ensures |RowDepartures(feed.frequencies, r, b)| ==
                     if ByFrequency(feed.frequencies, r.trip)
                     then VehiclesOf(feed.frequencies, |feed.frequencies|, r.trip) else 1
    {
      FrequencyCount(feed.frequencies, |feed.frequencies|, r.trip, r.time.value, b);
    }
    var i :| 0 <= i < |feed.stopTimes| && feed.stopTimes[i] == r;
    FirstTimeFound(feed.stopTimes, r.trip, |feed.stopTimes|, i);
    EarliestIs(feed, r.trip, BoardBase(feed, r.trip).value);
  }

  lemma {:induction false} PromisedCount(feed: Feed, k: Key, n: nat)
    requires n <= |feed.stopTimes|
    ensures |Promised(feed, k, n)| == Departures(feed, k, n)
  {
    hide RowDepartures, Earliest, TripSays, ByFrequency, VehiclesOf;
    if n > 0 {
      PromisedCount(feed, k, n - 1);
      if Under(feed, k, feed.stopTimes[n - 1]) { RowCount(feed, k, feed.stopTimes[n - 1]); }
    }
  }

  /** A board lists as many departures as its rows promise. */
  lemma BoardSize(feed: Feed, b: Bundle, g: GroupKey)
    requires Holds(feed, b) && KeyIn(b.names, g)
    ensures |Times(ListedIn(b.boards, g))| == Departures(feed, NameOf(b.names, g), |feed.stopTimes|)
  {
    hide Times, BoardMinutes, Promised, Departures, DistinctNames;
    var k := NameOf(b.names, g);
    BoardsHoldPromised(feed, k, |feed.stopTimes|);
    PromisedCount(feed, k, |feed.stopTimes|);
    assert |multiset(Times(ListedIn(b.boards, g)))| == |Times(ListedIn(b.boards, g))|;
  }
}
