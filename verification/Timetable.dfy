module Timetable {
  /**
   The offline timetable of one city, read out of the same GTFS Schedule tables in two ways: per stop
   (boards of departure minutes) and per pattern (runs along a stop sequence).

   This file says, row by row of `stop_times.txt`, what each of the two holds, and when they agree.
   */
  import opened Util

  datatype Trip = Trip(id: Id, route: Id, service: Id, headsign: Id)

  /** `time` is the departure time in seconds (the arrival time without one), `None` if it cannot be read. */
  datatype StopTime = StopTime(trip: Id, sequence: int, stop: Id, time: Option<int>)

  datatype Frequency = Frequency(trip: Id, start: Option<int>, end: Option<int>, headway: int)

  datatype Feed = Feed(trips: seq<Trip>, stops: seq<Id>, frequencies: seq<Frequency>, stopTimes: seq<StopTime>)

  datatype Window = Window(start: int, end: int, headway: int)

  /** What a departure is asked for by. */
  datatype Key = Key(stop: Id, route: Id, headsign: Id, service: Id)

  type Minutes = multiset<int>

  // ---- the tables as dictionaries ----

  /** Later rows win. */
  function TripTable(trips: seq<Trip>, n: nat): map<Id, Trip>
    requires n <= |trips|
  {
    if n == 0 then map[] else TripTable(trips, n - 1)[trips[n - 1].id := trips[n - 1]]
  }

  function TripsOf(feed: Feed): map<Id, Trip> {
    TripTable(feed.trips, |feed.trips|)
  }

  predicate Usable(f: Frequency) {
    f.start.Some? && f.end.Some? && f.headway > 0 && f.end.value >= f.start.value
  }

  function WindowTable(fs: seq<Frequency>, n: nat): map<Id, seq<Window>>
    requires n <= |fs|
  {
    if n == 0 then map[]
    else
      var m, f := WindowTable(fs, n - 1), fs[n - 1];
      if Usable(f) then m[f.trip := Listed(m, f.trip) + [Window(f.start.value, f.end.value, f.headway)]] else m
  }

  function Listed<T>(m: map<Id, seq<T>>, id: Id): seq<T> {
    if id in m then m[id] else []
  }

  function WindowsOf(feed: Feed, trip: Id): seq<Window> {
    Listed(WindowTable(feed.frequencies, |feed.frequencies|), trip)
  }

  /** The earliest readable time of a trip, whatever the stop. */
  function FirstTime(rows: seq<StopTime>, trip: Id, n: nat): Option<int>
    requires n <= |rows|
  {
    if n == 0 then None
    else
      var m, r := FirstTime(rows, trip, n - 1), rows[n - 1];
      if r.trip == trip && r.time.Some? && (m.None? || r.time.value < m.value) then r.time else m
  }

  /** One readable row of a trip at a known stop, as the pattern builder keeps it. */
  datatype Call = Call(sequence: int, stop: Id, time: int)

  predicate Kept(feed: Feed, r: StopTime) {
    r.trip in TripsOf(feed) && r.time.Some? && r.stop in feed.stops
  }

  function CallsOf(feed: Feed, trip: Id, n: nat): seq<Call>
    requires n <= |feed.stopTimes|
  {
    if n == 0 then []
    else
      var calls, r := CallsOf(feed, trip, n - 1), feed.stopTimes[n - 1];
      if Kept(feed, r) && r.trip == trip then calls + [Call(r.sequence, r.stop, r.time.value)] else calls
  }

  // ---- departures ----

  function Range(start: int, end: int, step: int): seq<int>
    decreases end - start
  {
    if start >= end || step <= 0 then [] else [start] + Range(start + step, end, step)
  }

  function Expand(ws: seq<Window>, n: nat): seq<int>
    requires n <= |ws|
  {
    if n == 0 then [] else Expand(ws, n - 1) + Range(ws[n - 1].start, ws[n - 1].end, ws[n - 1].headway)
  }

  /** When a trip leaves its first stop: as scheduled, or once per headway of its windows. */
  function Departs(ws: seq<Window>, base: int): seq<int> {
    if ws == [] then [base] else Expand(ws, |ws|)
  }

  function Minute(depart: int, time: int, base: int): int {
    (depart + (time - base)) / 60
  }

  function MinutesAt(departs: seq<int>, time: int, base: int, n: nat): Minutes
    requires n <= |departs|
  {
    if n == 0 then multiset{}
    else MinutesAt(departs, time, base, n - 1) + multiset{Minute(departs[n - 1], time, base)}
  }

  function KeyOf(trip: Trip, stop: Id): Key {
    Key(stop, trip.route, trip.headsign, trip.service)
  }

  // ---- what a row adds to a board, and to the patterns ----

  function RowMinutes(feed: Feed, r: StopTime, base: int): Minutes
    requires r.time.Some?
  {
    var departs := Departs(WindowsOf(feed, r.trip), base);
    MinutesAt(departs, r.time.value, base, |departs|)
  }

  function BoardBase(feed: Feed, trip: Id): Option<int> {
    FirstTime(feed.stopTimes, trip, |feed.stopTimes|)
  }

  function BoardShare(feed: Feed, k: Key, r: StopTime): Minutes {
    if Kept(feed, r) && KeyOf(TripsOf(feed)[r.trip], r.stop) == k && BoardBase(feed, r.trip).Some?
    then RowMinutes(feed, r, BoardBase(feed, r.trip).value)
    else multiset{}
  }

  predicate CallLe(a: Call, b: Call, rank: Id -> int) {
    a.sequence < b.sequence ||
    (a.sequence == b.sequence &&
     (rank(a.stop) < rank(b.stop) || (rank(a.stop) == rank(b.stop) && a.time <= b.time)))
  }

  /** Calls in the order of (stop_sequence, stop, time); `rank` numbers the stops. */
  function Ordered(calls: seq<Call>, rank: Id -> int): seq<Call> {
    SortBy(calls, (a, b) => CallLe(a, b, rank))
  }

  function TripCalls(feed: Feed, trip: Id): seq<Call> {
    CallsOf(feed, trip, |feed.stopTimes|)
  }

  function PatternBase(feed: Feed, trip: Id, rank: Id -> int): Option<int> {
    var calls := Ordered(TripCalls(feed, trip), rank);
    if |calls| < 2 then None else Some(calls[0].time)
  }

  function PatternShare(feed: Feed, rank: Id -> int, k: Key, r: StopTime): Minutes {
    if Kept(feed, r) && KeyOf(TripsOf(feed)[r.trip], r.stop) == k && PatternBase(feed, r.trip, rank).Some?
    then RowMinutes(feed, r, PatternBase(feed, r.trip, rank).value)
    else multiset{}
  }

  function BoardMinutes(feed: Feed, k: Key, n: nat): Minutes
    requires n <= |feed.stopTimes|
  {
    if n == 0 then multiset{} else BoardMinutes(feed, k, n - 1) + BoardShare(feed, k, feed.stopTimes[n - 1])
  }

  function PatternMinutes(feed: Feed, rank: Id -> int, k: Key, n: nat): Minutes
    requires n <= |feed.stopTimes|
  {
    if n == 0 then multiset{}
    else PatternMinutes(feed, rank, k, n - 1) + PatternShare(feed, rank, k, feed.stopTimes[n - 1])
  }

  // ---- when the two agree ----

  predicate StopsDefined(feed: Feed) {
    forall i :: 0 <= i < |feed.stopTimes| ==> feed.stopTimes[i].stop in feed.stops
  }

  predicate Timed(feed: Feed, trip: Id, i: int) {
    0 <= i < |feed.stopTimes| && feed.stopTimes[i].trip == trip && feed.stopTimes[i].time.Some?
  }

  predicate TimedTwice(feed: Feed, trip: Id) {
    exists i, j :: 0 <= i < j < |feed.stopTimes| && Timed(feed, trip, i) && Timed(feed, trip, j)
  }

  predicate TimesNonDecreasing(feed: Feed, trip: Id) {
    forall i, j :: && 0 <= i < |feed.stopTimes| && 0 <= j < |feed.stopTimes|
                   && Timed(feed, trip, i) && Timed(feed, trip, j) ==>
      (feed.stopTimes[i].sequence <= feed.stopTimes[j].sequence ==>
         feed.stopTimes[i].time.value <= feed.stopTimes[j].time.value)
  }

  /** Every stop is defined, every trip has two timed rows, and times do not decrease along a trip. */
  predicate WellFormed(feed: Feed) {
    && StopsDefined(feed)
    && forall i :: 0 <= i < |feed.stopTimes| ==>
         TimedTwice(feed, feed.stopTimes[i].trip) && TimesNonDecreasing(feed, feed.stopTimes[i].trip)
  }

  /** A frequency trip's first call in order is also its earliest timed row. */
  predicate Anchored(feed: Feed, rank: Id -> int, trip: Id) {
    WindowsOf(feed, trip) == [] || |TripCalls(feed, trip)| < 2 || PatternBase(feed, trip, rank) == BoardBase(feed, trip)
  }

  lemma {:induction false} FirstTimeFound(rows: seq<StopTime>, trip: Id, n: nat, i: nat)
    requires i < n <= |rows| && rows[i].trip == trip && rows[i].time.Some?
    ensures FirstTime(rows, trip, n).Some? && FirstTime(rows, trip, n).value <= rows[i].time.value
  {
    if i < n - 1 {
      FirstTimeFound(rows, trip, n - 1, i);
    }
  }

  lemma {:induction false} FirstTimeIsARow(rows: seq<StopTime>, trip: Id, n: nat) returns (i: nat)
    requires n <= |rows| && FirstTime(rows, trip, n).Some?
    ensures i < n && rows[i].trip == trip && rows[i].time == FirstTime(rows, trip, n)
  {
    var m, r := FirstTime(rows, trip, n - 1), rows[n - 1];
    if r.trip == trip && r.time.Some? && (m.None? || r.time.value < m.value) {
      i := n - 1;
    } else {
      i := FirstTimeIsARow(rows, trip, n - 1);
    }
  }

  lemma {:induction false} CallIsARow(feed: Feed, trip: Id, n: nat, c: Call) returns (i: nat)
    requires n <= |feed.stopTimes| && c in CallsOf(feed, trip, n)
    ensures i < n && Kept(feed, feed.stopTimes[i]) && feed.stopTimes[i].trip == trip
    ensures c == Call(feed.stopTimes[i].sequence, feed.stopTimes[i].stop, feed.stopTimes[i].time.value)
  {
    var r := feed.stopTimes[n - 1];
    if Kept(feed, r) && r.trip == trip && c == Call(r.sequence, r.stop, r.time.value) {
      i := n - 1;
    } else {
      i := CallIsARow(feed, trip, n - 1, c);
    }
  }

  lemma {:induction false} RowIsACall(feed: Feed, trip: Id, n: nat, i: nat)
    requires i < n <= |feed.stopTimes| && Kept(feed, feed.stopTimes[i]) && feed.stopTimes[i].trip == trip
    ensures var r := feed.stopTimes[i]; Call(r.sequence, r.stop, r.time.value) in CallsOf(feed, trip, n)
  {
    if i < n - 1 {
      RowIsACall(feed, trip, n - 1, i);
    }
  }

  lemma {:induction false} TwoRowsTwoCalls(feed: Feed, trip: Id, n: nat, i: nat, j: nat)
    requires i < j < n <= |feed.stopTimes|
    requires Kept(feed, feed.stopTimes[i]) && Kept(feed, feed.stopTimes[j])
    requires feed.stopTimes[i].trip == trip && feed.stopTimes[j].trip == trip
    ensures |CallsOf(feed, trip, n)| >= 2
  {
    if j < n - 1 {
      TwoRowsTwoCalls(feed, trip, n - 1, i, j);
    } else {
      RowIsACall(feed, trip, j, i);
    }
  }

  lemma CallOrder(rank: Id -> int)
    ensures TotalPreorder((a: Call, b: Call) => CallLe(a, b, rank))
  {}

  lemma OrderedFirst(calls: seq<Call>, rank: Id -> int)
    requires calls != []
    ensures |Ordered(calls, rank)| == |calls| && Ordered(calls, rank)[0] in calls
    ensures forall c :: c in calls ==> CallLe(Ordered(calls, rank)[0], c, rank)
  {
    var le := (a: Call, b: Call) => CallLe(a, b, rank);
    CallOrder(rank);
    SortSorts(calls, le);
    SortPermutes(calls, le);
    SameElements(Ordered(calls, rank), calls);
    assert Ordered(calls, rank)[0] in Ordered(calls, rank);
    forall c | c in calls ensures le(Ordered(calls, rank)[0], c) {
      assert c in Ordered(calls, rank);
      var k :| 0 <= k < |Ordered(calls, rank)| && Ordered(calls, rank)[k] == c;
    }
  }

  lemma NonDecreasingIsAnchored(feed: Feed, rank: Id -> int, trip: Id)
    requires StopsDefined(feed) && trip in TripsOf(feed) && TimedTwice(feed, trip) && TimesNonDecreasing(feed, trip)
    ensures |TripCalls(feed, trip)| >= 2 && PatternBase(feed, trip, rank) == BoardBase(feed, trip)
  {
    hide CallLe;
    var n := |feed.stopTimes|;
    var i, j :| 0 <= i < j < n && Timed(feed, trip, i) && Timed(feed, trip, j);
    TwoRowsTwoCalls(feed, trip, n, i, j);
    OrderedFirst(TripCalls(feed, trip), rank);
    var c := Ordered(TripCalls(feed, trip), rank)[0];
    var first := CallIsARow(feed, trip, n, c);
    FirstTimeFound(feed.stopTimes, trip, n, first);
    var e := FirstTimeIsARow(feed.stopTimes, trip, n);
    RowIsACall(feed, trip, n, e);
    SequenceFirst(c, Call(feed.stopTimes[e].sequence, feed.stopTimes[e].stop, feed.stopTimes[e].time.value), rank);
    assert Timed(feed, trip, first) && Timed(feed, trip, e);
  }

  lemma SequenceFirst(a: Call, b: Call, rank: Id -> int)
    requires CallLe(a, b, rank)
    ensures a.sequence <= b.sequence
  {}

  lemma SameShare(feed: Feed, rank: Id -> int, k: Key, r: StopTime)
    requires r in feed.stopTimes
    requires Kept(feed, r) ==> |TripCalls(feed, r.trip)| >= 2 && Anchored(feed, rank, r.trip)
    ensures BoardShare(feed, k, r) == PatternShare(feed, rank, k, r)
  {
    if Kept(feed, r) {
      var i :| 0 <= i < |feed.stopTimes| && feed.stopTimes[i] == r;
      FirstTimeFound(feed.stopTimes, r.trip, |feed.stopTimes|, i);
      OrderedFirst(TripCalls(feed, r.trip), rank);
      if WindowsOf(feed, r.trip) == [] {
        UnmovedByBase(r.time.value, BoardBase(feed, r.trip).value, PatternBase(feed, r.trip, rank).value);
      }
    }
  }

  /** Without windows the base cancels out. */
  lemma UnmovedByBase(time: int, a: int, b: int)
    ensures MinutesAt([a], time, a, 1) == MinutesAt([b], time, b, 1)
  {
    assert MinutesAt([a], time, a, 0) == MinutesAt([b], time, b, 0);
  }

  lemma {:induction false} SharesAgree(feed: Feed, rank: Id -> int, k: Key, n: nat)
    requires n <= |feed.stopTimes|
    requires forall i :: 0 <= i < n && Kept(feed, feed.stopTimes[i]) ==>
               |TripCalls(feed, feed.stopTimes[i].trip)| >= 2 && Anchored(feed, rank, feed.stopTimes[i].trip)
    ensures BoardMinutes(feed, k, n) == PatternMinutes(feed, rank, k, n)
  {
    if n > 0 {
      SharesAgree(feed, rank, k, n - 1);
      SameShare(feed, rank, k, feed.stopTimes[n - 1]);
    }
  }

  /** For a well-formed feed the boards and the patterns hold the same departure minutes under every key. */
  lemma BoardsAndPatternsAgree(feed: Feed, rank: Id -> int, k: Key)
    requires WellFormed(feed)
    ensures BoardMinutes(feed, k, |feed.stopTimes|) == PatternMinutes(feed, rank, k, |feed.stopTimes|)
  {
    forall i | 0 <= i < |feed.stopTimes| && Kept(feed, feed.stopTimes[i])
      ensures |TripCalls(feed, feed.stopTimes[i].trip)| >= 2 && Anchored(feed, rank, feed.stopTimes[i].trip)
    {
      NonDecreasingIsAnchored(feed, rank, feed.stopTimes[i].trip);
    }
    SharesAgree(feed, rank, k, |feed.stopTimes|);
  }

  // ---- exactly when, where bases agree ----

  lemma {:induction false} MinutesCount(departs: seq<int>, time: int, base: int, n: nat)
    requires n <= |departs|
    ensures |MinutesAt(departs, time, base, n)| == n
  {
    if n > 0 {
      MinutesCount(departs, time, base, n - 1);
    }
  }

  lemma DepartsCount(ws: seq<Window>, a: int, b: int)
    ensures |Departs(ws, a)| == |Departs(ws, b)|
  {}

  /** A trip with one call is on the boards and in no pattern; any other row is as many departures in both. */
  lemma ShareSizes(feed: Feed, rank: Id -> int, k: Key, r: StopTime)
    requires r in feed.stopTimes
    ensures Kept(feed, r) ==> BoardBase(feed, r.trip).Some?
    ensures |TripCalls(feed, r.trip)| < 2 ==> PatternShare(feed, rank, k, r) == multiset{}
    ensures |TripCalls(feed, r.trip)| >= 2 || !Kept(feed, r) ==>
              |BoardShare(feed, k, r)| == |PatternShare(feed, rank, k, r)|
    ensures Kept(feed, r) ==>
              |BoardShare(feed, k, r)| == if k == KeyOf(TripsOf(feed)[r.trip], r.stop)
                                          then |Departs(WindowsOf(feed, r.trip), BoardBase(feed, r.trip).value)| else 0
  {
    hide MinutesAt, Departs, CallsOf, WindowTable, TripTable, FirstTime;
    if Kept(feed, r) {
      var i :| 0 <= i < |feed.stopTimes| && feed.stopTimes[i] == r;
      FirstTimeFound(feed.stopTimes, r.trip, |feed.stopTimes|, i);
      var base := BoardBase(feed, r.trip).value;
      var departs := Departs(WindowsOf(feed, r.trip), base);
      MinutesCount(departs, r.time.value, base, |departs|);
      SortPermutes(TripCalls(feed, r.trip), (a, b) => CallLe(a, b, rank));
      if PatternBase(feed, r.trip, rank).Some? {
        var base' := PatternBase(feed, r.trip, rank).value;
        DepartsCount(WindowsOf(feed, r.trip), base, base');
        MinutesCount(Departs(WindowsOf(feed, r.trip), base'), r.time.value, base', |departs|);
      }
    }
  }

  /** The only call of its trip, and the trip does run. */
  predicate Dropped(feed: Feed, r: StopTime) {
    && Kept(feed, r) && |TripCalls(feed, r.trip)| < 2
    && BoardBase(feed, r.trip).Some? && Departs(WindowsOf(feed, r.trip), BoardBase(feed, r.trip).value) != []
  }

  predicate DroppedAt(feed: Feed, k: Key, r: StopTime) {
    Dropped(feed, r) && k == KeyOf(TripsOf(feed)[r.trip], r.stop)
  }

  predicate AllAnchored(feed: Feed, rank: Id -> int) {
    forall i :: 0 <= i < |feed.stopTimes| && Kept(feed, feed.stopTimes[i]) ==>
             Anchored(feed, rank, feed.stopTimes[i].trip)
  }

  lemma ShareCounts(feed: Feed, rank: Id -> int, k: Key, i: nat)
    requires i < |feed.stopTimes|
    ensures var r := feed.stopTimes[i];
            && |BoardShare(feed, k, r)| >= |PatternShare(feed, rank, k, r)|
            && (DroppedAt(feed, k, r) <==> |BoardShare(feed, k, r)| > |PatternShare(feed, rank, k, r)|)
  {
    hide RowMinutes, PatternBase, TripsOf, CallsOf, FirstTime, Departs, PatternShare, BoardShare;
    ShareSizes(feed, rank, k, feed.stopTimes[i]);
  }

  lemma {:induction false} BoardsHoldMore(feed: Feed, rank: Id -> int, k: Key, n: nat)
    requires n <= |feed.stopTimes|
    ensures |BoardMinutes(feed, k, n)| >= |PatternMinutes(feed, rank, k, n)|
    ensures |BoardMinutes(feed, k, n)| == |PatternMinutes(feed, rank, k, n)| <==>
            forall i :: 0 <= i < n ==> !DroppedAt(feed, k, feed.stopTimes[i])
  {
    hide BoardShare, PatternShare, DroppedAt, AllAnchored;
    if n > 0 {
      BoardsHoldMore(feed, rank, k, n - 1);
      ShareCounts(feed, rank, k, n - 1);
      var r := feed.stopTimes[n - 1];
      assert |BoardMinutes(feed, k, n)| == |BoardMinutes(feed, k, n - 1)| + |BoardShare(feed, k, r)|;
      assert |PatternMinutes(feed, rank, k, n)|
          == |PatternMinutes(feed, rank, k, n - 1)| + |PatternShare(feed, rank, k, r)|;
    }
  }

  // ---- sums: patterns are never later than boards, so nothing evens out ----

  ghost function Sum(m: Minutes): int
    decreases |m|
  {
    if exists x :: x in m then
      var x :| x in m;
      x + Sum(m - multiset{x})
    else 0
  }

  lemma SumOfOne(m: Minutes) returns (x: int)
    requires exists x :: x in m
    ensures x in m && Sum(m) == x + Sum(m - multiset{x})
  {
    x :| x in m && Sum(m) == x + Sum(m - multiset{x});
  }

  lemma {:induction false} SumRemove(m: Minutes, y: int)
    requires y in m
    ensures Sum(m) == y + Sum(m - multiset{y})
    decreases |m|
  {
    hide Sum;
    var x := SumOfOne(m);
    if x != y {
      SumRemove(m - multiset{x}, y);
      SumRemove(m - multiset{y}, x);
      assert m - multiset{x} - multiset{y} == m - multiset{y} - multiset{x};
    }
  }

  lemma {:induction false} SumAdd(a: Minutes, b: Minutes)
    ensures Sum(a + b) == Sum(a) + Sum(b)
    decreases |b|
  {
    hide Sum;
    if y :| y in b {
      SumRemove(b, y);
      SumRemove(a + b, y);
      SumAdd(a, b - multiset{y});
      assert a + b - multiset{y} == a + (b - multiset{y});
    } else {
      forall y ensures b[y] == 0 { assert y !in b; }
      SumEmpty();
      assert b == multiset{} && a + b == a;
    }
  }

  lemma SumEmpty()
    ensures Sum(multiset{}) == 0
  {}

  /** Counted from the one base or the other, each of the first `n` departures is in the same minute. */
  predicate SameMinutes(departs: seq<int>, time: int, a: int, b: int, n: nat)
    requires n <= |departs|
  {
    forall i :: 0 <= i < n ==> Minute(departs[i], time, a) == Minute(departs[i], time, b)
  }

  lemma LaterBase(depart: int, time: int, a: int, b: int)
    requires a <= b
    ensures Minute(depart, time, b) <= Minute(depart, time, a)
  {}

  lemma SumSingle(x: int)
    ensures Sum(multiset{x}) == x
  {
    SumRemove(multiset{x}, x);
    assert multiset{x} - multiset{x} == multiset{};
  }

  lemma NoMinutes(departs: seq<int>, time: int, a: int, b: int)
    ensures SameMinutes(departs, time, a, b, 0)
    ensures Sum(MinutesAt(departs, time, a, 0)) == 0 == Sum(MinutesAt(departs, time, b, 0))
  {
    SumEmpty();
  }

  lemma SameMinutesNext(departs: seq<int>, time: int, a: int, b: int, n: nat)
    requires n < |departs|
    ensures SameMinutes(departs, time, a, b, n + 1) <==>
            SameMinutes(departs, time, a, b, n) && Minute(departs[n], time, a) == Minute(departs[n], time, b)
  {
    hide Minute;
  }

  lemma MinutesSumNext(departs: seq<int>, time: int, base: int, n: nat)
    requires n < |departs|
    ensures Sum(MinutesAt(departs, time, base, n + 1))
         == Sum(MinutesAt(departs, time, base, n)) + Minute(departs[n], time, base)
  {
    hide Sum, Minute;
    SumSingle(Minute(departs[n], time, base));
    SumAdd(MinutesAt(departs, time, base, n), multiset{Minute(departs[n], time, base)});
  }

  lemma {:induction false} MinutesSums(departs: seq<int>, time: int, a: int, b: int, n: nat)
    requires a <= b && n <= |departs|
    ensures Sum(MinutesAt(departs, time, b, n)) <= Sum(MinutesAt(departs, time, a, n))
    ensures Sum(MinutesAt(departs, time, b, n)) == Sum(MinutesAt(departs, time, a, n)) <==>
            SameMinutes(departs, time, a, b, n)
  {
    hide Sum, Minute, SameMinutes, MinutesAt;
    if n == 0 {
      NoMinutes(departs, time, a, b);
    } else {
      MinutesSums(departs, time, a, b, n - 1);
      SameMinutesNext(departs, time, a, b, n - 1);
      LaterBase(departs[n - 1], time, a, b);
      MinutesSumNext(departs, time, a, n - 1);
      MinutesSumNext(departs, time, b, n - 1);
    }
  }

  lemma {:induction false} SameMinutesAt(departs: seq<int>, time: int, a: int, b: int, n: nat)
    requires n <= |departs| && SameMinutes(departs, time, a, b, n)
    ensures MinutesAt(departs, time, b, n) == MinutesAt(departs, time, a, n)
  {
    hide Minute;
    if n > 0 {
      SameMinutesAt(departs, time, a, b, n - 1);
    }
  }

  /** The boards count from the earliest time of a trip, so never from later than its first call. */
  lemma BoardBaseFirst(feed: Feed, rank: Id -> int, trip: Id)
    requires PatternBase(feed, trip, rank).Some?
    ensures BoardBase(feed, trip).Some? && BoardBase(feed, trip).value <= PatternBase(feed, trip, rank).value
  {
    hide CallLe;
    SortPermutes(TripCalls(feed, trip), (a, b) => CallLe(a, b, rank));
    OrderedFirst(TripCalls(feed, trip), rank);
    var i := CallIsARow(feed, trip, |feed.stopTimes|, Ordered(TripCalls(feed, trip), rank)[0]);
    FirstTimeFound(feed.stopTimes, trip, |feed.stopTimes|, i);
  }

  /**
   If the row is of a frequency trip in some pattern, each of its departures is in the same minute counted from the
   trip's earliest time as counted from its first call.
   */
  predicate AgreesAt(feed: Feed, rank: Id -> int, k: Key, r: StopTime) {
    var ws, boards, patterns := WindowsOf(feed, r.trip), BoardBase(feed, r.trip), PatternBase(feed, r.trip, rank);
    Kept(feed, r) && KeyOf(TripsOf(feed)[r.trip], r.stop) == k && ws != [] && boards.Some? && patterns.Some? ==>
      SameMinutes(Expand(ws, |ws|), r.time.value, boards.value, patterns.value, |Expand(ws, |ws|)|)
  }

  lemma ShareSums(feed: Feed, rank: Id -> int, k: Key, r: StopTime)
    requires r in feed.stopTimes && !DroppedAt(feed, k, r)
    ensures Sum(PatternShare(feed, rank, k, r)) <= Sum(BoardShare(feed, k, r))
    ensures Sum(PatternShare(feed, rank, k, r)) == Sum(BoardShare(feed, k, r)) <==> AgreesAt(feed, rank, k, r)
    ensures AgreesAt(feed, rank, k, r) ==> PatternShare(feed, rank, k, r) == BoardShare(feed, k, r)
  {
    hide Sum, MinutesAt, SameMinutes, Expand, TripsOf, WindowsOf, CallsOf, FirstTime, Minute;
    if Kept(feed, r) && KeyOf(TripsOf(feed)[r.trip], r.stop) == k {
      var ws := WindowsOf(feed, r.trip);
      ShareSizes(feed, rank, k, r);
      if PatternBase(feed, r.trip, rank).Some? {
        BoardBaseFirst(feed, rank, r.trip);
        var a, b := BoardBase(feed, r.trip).value, PatternBase(feed, r.trip, rank).value;
        if ws == [] {
          UnmovedByBase(r.time.value, a, b);
        } else {
          var departs := Expand(ws, |ws|);
          MinutesSums(departs, r.time.value, a, b, |departs|);
          if AgreesAt(feed, rank, k, r) { SameMinutesAt(departs, r.time.value, a, b, |departs|); }
        }
      } else {
        NotDroppedIsEmpty(feed, rank, k, r);
      }
    }
  }

  lemma NotDroppedIsEmpty(feed: Feed, rank: Id -> int, k: Key, r: StopTime)
    requires r in feed.stopTimes && !DroppedAt(feed, k, r) && PatternBase(feed, r.trip, rank).None?
    ensures BoardShare(feed, k, r) == multiset{} == PatternShare(feed, rank, k, r)
  {
    hide Departs, TripsOf, WindowsOf, CallsOf, FirstTime, RowMinutes;
    SortPermutes(TripCalls(feed, r.trip), (a, b) => CallLe(a, b, rank));
    ShareSizes(feed, rank, k, r);
    assert |BoardShare(feed, k, r)| == 0;
  }

  lemma {:induction false} AgreementSums(feed: Feed, rank: Id -> int, k: Key, n: nat)
    requires n <= |feed.stopTimes| && forall i :: 0 <= i < n ==> !DroppedAt(feed, k, feed.stopTimes[i])
    ensures Sum(PatternMinutes(feed, rank, k, n)) <= Sum(BoardMinutes(feed, k, n))
    ensures Sum(PatternMinutes(feed, rank, k, n)) == Sum(BoardMinutes(feed, k, n)) <==>
            forall i :: 0 <= i < n ==> AgreesAt(feed, rank, k, feed.stopTimes[i])
    ensures (forall i :: 0 <= i < n ==> AgreesAt(feed, rank, k, feed.stopTimes[i])) ==>
              PatternMinutes(feed, rank, k, n) == BoardMinutes(feed, k, n)
  {
    hide Sum, BoardShare, PatternShare, DroppedAt, AgreesAt;
    if n > 0 {
      var r := feed.stopTimes[n - 1];
      AgreementSums(feed, rank, k, n - 1);
      ShareSums(feed, rank, k, r);
      SumAdd(BoardMinutes(feed, k, n - 1), BoardShare(feed, k, r));
      SumAdd(PatternMinutes(feed, rank, k, n - 1), PatternShare(feed, rank, k, r));
    }
  }

  predicate AgreeUnder(feed: Feed, rank: Id -> int, k: Key) {
    BoardMinutes(feed, k, |feed.stopTimes|) == PatternMinutes(feed, rank, k, |feed.stopTimes|)
  }

  predicate NoneDroppedAt(feed: Feed, k: Key) {
    forall i :: 0 <= i < |feed.stopTimes| ==> !DroppedAt(feed, k, feed.stopTimes[i])
  }

  /**
   Under a key the two hold equally many departures exactly when none of them is the single call of a running trip. They
   hold the same departures exactly when, besides, no departure of a frequency trip is in another minute for being
   counted from the trip's first call instead of its earliest time.
   */
  lemma AgreementExact(feed: Feed, rank: Id -> int, k: Key)
    ensures |BoardMinutes(feed, k, |feed.stopTimes|)| == |PatternMinutes(feed, rank, k, |feed.stopTimes|)| <==>
            NoneDroppedAt(feed, k)
    ensures AgreeUnder(feed, rank, k) <==>
            NoneDroppedAt(feed, k)
            && forall i :: 0 <= i < |feed.stopTimes| ==> AgreesAt(feed, rank, k, feed.stopTimes[i])
  {
    hide BoardMinutes, PatternMinutes, DroppedAt, AgreesAt, Sum;
    BoardsHoldMore(feed, rank, k, |feed.stopTimes|);
    if NoneDroppedAt(feed, k) {
      AgreementSums(feed, rank, k, |feed.stopTimes|);
    }
  }

  /** Where frequency trips are anchored, dropped calls are all that can tell the two apart. */
  lemma AnchoredAgreement(feed: Feed, rank: Id -> int, k: Key)
    requires AllAnchored(feed, rank)
    ensures AgreeUnder(feed, rank, k) <==> NoneDroppedAt(feed, k)
  {
    hide AgreeUnder, NoneDroppedAt, TripsOf, WindowsOf, Expand, CallsOf, FirstTime, KeyOf;
    AgreementExact(feed, rank, k);
    forall i | 0 <= i < |feed.stopTimes| ensures AgreesAt(feed, rank, k, feed.stopTimes[i]) {
      var r := feed.stopTimes[i];
      if Kept(feed, r) && PatternBase(feed, r.trip, rank).Some? {
        SortPermutes(TripCalls(feed, r.trip), (a, b) => CallLe(a, b, rank));
      }
    }
  }

  /** A trip with one timed row, at noon, is on its stop's board and in no pattern. */
  lemma LoneCallIsDropped(trip: Trip, stop: Id, rank: Id -> int)
    ensures var feed := Feed([trip], [stop], [], [StopTime(trip.id, 1, stop, Some(43200))]);
            AllAnchored(feed, rank) && !AgreeUnder(feed, rank, KeyOf(trip, stop))
  {
    var feed := Feed([trip], [stop], [], [StopTime(trip.id, 1, stop, Some(43200))]);
    var r := feed.stopTimes[0];
    assert TripTable(feed.trips, 0) == map[] && TripsOf(feed) == map[trip.id := trip];
    assert CallsOf(feed, trip.id, 0) == [] && |TripCalls(feed, trip.id)| == 1;
    assert FirstTime(feed.stopTimes, trip.id, 0) == None && BoardBase(feed, trip.id) == Some(43200);
    assert DroppedAt(feed, KeyOf(trip, stop), r);
    AgreementExact(feed, rank, KeyOf(trip, stop));
  }

  /** A frequency trip whose second call in order is its earliest: ten minutes apart on the board and in the pattern. */
  lemma LateFirstCallDisagrees(trip: Trip, a: Id, b: Id, rank: Id -> int)
    requires a != b
    ensures var feed := Feed([trip], [a, b], [Frequency(trip.id, Some(0), Some(60), 60)],
                             [StopTime(trip.id, 1, a, Some(600)), StopTime(trip.id, 2, b, Some(0))]);
            !AllAnchored(feed, rank)
            && BoardMinutes(feed, KeyOf(trip, a), 2) == multiset{10}
            && PatternMinutes(feed, rank, KeyOf(trip, a), 2) == multiset{0}
  {
    hide MinutesAt, CallLe, Range;
    var feed := Feed([trip], [a, b], [Frequency(trip.id, Some(0), Some(60), 60)],
                     [StopTime(trip.id, 1, a, Some(600)), StopTime(trip.id, 2, b, Some(0))]);
    var k := KeyOf(trip, a);
    LateFirstBases(feed, trip, a, b, rank);
    OneDeparture(600, 0);
    OneDeparture(600, 600);
    assert BoardMinutes(feed, k, 0) == multiset{} && PatternMinutes(feed, rank, k, 0) == multiset{};
    assert BoardMinutes(feed, k, 1) == multiset{10} && PatternMinutes(feed, rank, k, 1) == multiset{0};
  }

  lemma OneDeparture(time: int, base: int)
    ensures Departs([Window(0, 60, 60)], base) == [0]
    ensures MinutesAt([0], time, base, 1) == multiset{Minute(0, time, base)}
  {
    var ws := [Window(0, 60, 60)];
    assert Expand(ws, 0) == [] && Range(0, 60, 60) == [0];
    assert Expand(ws, 1) == [0];
    assert MinutesAt([0], time, base, 0) == multiset{};
  }

  lemma LateFirstBases(feed: Feed, trip: Trip, a: Id, b: Id, rank: Id -> int)
    requires feed == Feed([trip], [a, b], [Frequency(trip.id, Some(0), Some(60), 60)],
                          [StopTime(trip.id, 1, a, Some(600)), StopTime(trip.id, 2, b, Some(0))])
    ensures TripsOf(feed) == map[trip.id := trip] && WindowsOf(feed, trip.id) == [Window(0, 60, 60)]
    ensures BoardBase(feed, trip.id) == Some(0) && PatternBase(feed, trip.id, rank) == Some(600)
    ensures |TripCalls(feed, trip.id)| == 2
  {
    assert TripTable(feed.trips, 0) == map[] && WindowTable(feed.frequencies, 0) == map[];
    assert FirstTime(feed.stopTimes, trip.id, 0) == None && FirstTime(feed.stopTimes, trip.id, 1) == Some(600);
    assert CallsOf(feed, trip.id, 0) == [] && CallsOf(feed, trip.id, 1) == [Call(1, a, 600)];
    assert TripCalls(feed, trip.id) == [Call(1, a, 600), Call(2, b, 0)];
    OrderedFirst(TripCalls(feed, trip.id), rank);
  }
}
