/**
 The pattern builder: one entry per ordered stop sequence, with every run along it. Here is what scanning the
 entries yields for a key, and why the runs of a trip contribute exactly what its rows do; minutes are multisets,
 so that runs and rows may be walked in any order.
 */
module TimetablePatterns {
  import opened Util
  import opened Interning
  import opened Timetable

  datatype Run<N> = Run(service: N, times: seq<int>)

  /** `N` is `nat` in the file, where names are indices into tables, and `Id` for its meaning. */
  datatype Pattern<N> = Pattern(route: N, headsign: N, stops: seq<N>, runs: seq<Run<N>>)

  // ---- sums that do not care about order ----

  function Bag<T>(f: T -> Minutes, s: seq<T>): Minutes {
    if s == [] then multiset{} else f(s[0]) + Bag(f, s[1..])
  }

  lemma {:induction false} BagAppend<T>(f: T -> Minutes, a: seq<T>, b: seq<T>)
    ensures Bag(f, a + b) == Bag(f, a) + Bag(f, b)
  {
    if a == [] {
      assert a + b == b;
    } else {
      BagAppend(f, a[1..], b);
      assert (a + b)[1..] == a[1..] + b;
    }
  }

  lemma {:induction false} BagInsert<T>(f: T -> Minutes, x: T, s: seq<T>, le: (T, T) -> bool)
    ensures Bag(f, InsertBy(x, s, le)) == f(x) + Bag(f, s)
  {
    if s == [] {
    } else if le(x, s[0]) {
      assert ([x] + s)[1..] == s;
    } else {
      BagInsert(f, x, s[1..], le);
      assert ([s[0]] + InsertBy(x, s[1..], le))[1..] == InsertBy(x, s[1..], le);
    }
  }

  lemma {:induction false} BagSort<T>(f: T -> Minutes, s: seq<T>, le: (T, T) -> bool)
    ensures Bag(f, SortBy(s, le)) == Bag(f, s)
  {
    if s != [] {
      BagSort(f, s[1..], le);
      BagInsert(f, s[0], SortBy(s[1..], le), le);
    }
  }

  lemma {:induction false} BagSame<T>(f: T -> Minutes, g: T -> Minutes, s: seq<T>)
    requires forall x :: f(x) == g(x)
    ensures Bag(f, s) == Bag(g, s)
  {
    if s != [] {
      BagSame(f, g, s[1..]);
    }
  }

  // ---- scanning the patterns ----

  function RunMinutes(stops: seq<Id>, times: seq<int>, stop: Id): Minutes {
    if stops == [] || times == [] then multiset{}
    else (if stops[0] == stop then multiset{times[0]} else multiset{}) + RunMinutes(stops[1..], times[1..], stop)
  }

  function RunShare(stops: seq<Id>, k: Key): Run<Id> -> Minutes {
    (r: Run<Id>) => if r.service == k.service then RunMinutes(stops, r.times, k.stop) else multiset{}
  }

  function ScanOne(p: Pattern<Id>, k: Key): Minutes {
    if p.route == k.route && p.headsign == k.headsign then Bag(RunShare(p.stops, k), p.runs) else multiset{}
  }

  /** Every departure at the key's stop, by walking all runs of all patterns. */
  function Scan(ps: seq<Pattern<Id>>, k: Key, n: nat): Minutes
    requires n <= |ps|
  {
    if n == 0 then multiset{} else Scan(ps, k, n - 1) + ScanOne(ps[n - 1], k)
  }

  lemma {:induction false} ScanPrefix(a: seq<Pattern<Id>>, b: seq<Pattern<Id>>, k: Key, n: nat)
    requires n <= |a| && n <= |b| && forall i :: 0 <= i < n ==> a[i] == b[i]
    ensures Scan(a, k, n) == Scan(b, k, n)
  {
    if n > 0 {
      ScanPrefix(a, b, k, n - 1);
    }
  }

  /** More runs on one pattern are more departures there. */
  lemma {:induction false} ScanAddRuns(ps: seq<Pattern<Id>>, i: nat, runs: seq<Run<Id>>, k: Key, n: nat)
    requires i < n <= |ps|
    ensures var p := ps[i];
            Scan(ps[i := p.(runs := p.runs + runs)], k, n) == Scan(ps, k, n) + ScanOne(p.(runs := runs), k)
  {
    hide RunShare;
    var p := ps[i];
    if i < n - 1 {
      ScanAddRuns(ps, i, runs, k, n - 1);
    } else {
      ScanPrefix(ps[i := p.(runs := p.runs + runs)], ps, k, i);
      BagAppend(RunShare(p.stops, k), p.runs, runs);
    }
  }

  lemma ScanAddPattern(ps: seq<Pattern<Id>>, p: Pattern<Id>, k: Key)
    ensures Scan(ps + [p], k, |ps| + 1) == Scan(ps, k, |ps|) + ScanOne(p, k)
  {
    ScanPrefix(ps + [p], ps, k, |ps|);
  }

  predicate RunLe(a: Run<Id>, b: Run<Id>) {
    FirstOf(a.times) <= FirstOf(b.times)
  }

  function FirstOf(times: seq<int>): int {
    if times == [] then 0 else times[0]
  }

  // ---- one trip: runs against calls ----

  function StopsOf(calls: seq<Call>): seq<Id> {
    seq(|calls|, i requires 0 <= i < |calls| => calls[i].stop)
  }

  function TimesOf(calls: seq<Call>, depart: int, base: int): seq<int> {
    seq(|calls|, i requires 0 <= i < |calls| => Minute(depart, calls[i].time, base))
  }

  function NamedRuns(service: Id, calls: seq<Call>, departs: seq<int>, base: int, n: nat): seq<Run<Id>>
    requires n <= |departs|
  {
    if n == 0 then []
    else NamedRuns(service, calls, departs, base, n - 1) + [Run(service, TimesOf(calls, departs[n - 1], base))]
  }

  function CallShare(stop: Id, departs: seq<int>, base: int, n: nat): Call -> Minutes
    requires n <= |departs|
  {
    (c: Call) => if c.stop == stop then MinutesAt(departs, c.time, base, n) else multiset{}
  }

  lemma Shuffle(a: Minutes, b: Minutes, c: Minutes, d: Minutes)
    ensures (a + b) + (c + d) == (a + c) + (b + d)
  {}

  lemma NoRun(stops: seq<Id>, times: seq<int>, stop: Id)
    ensures StopsOf([]) == []
    ensures RunMinutes([], times, stop) == multiset{}
  {}

  lemma RunHead(calls: seq<Call>, depart: int, base: int, stop: Id)
    requires calls != []
    ensures RunMinutes(StopsOf(calls), TimesOf(calls, depart, base), stop)
         == (if calls[0].stop == stop then multiset{Minute(depart, calls[0].time, base)} else multiset{})
          + RunMinutes(StopsOf(calls[1..]), TimesOf(calls[1..], depart, base), stop)
  {
    hide Minute;
    assert StopsOf(calls)[1..] == StopsOf(calls[1..]);
    assert TimesOf(calls, depart, base)[1..] == TimesOf(calls[1..], depart, base);
  }

  lemma {:induction false} OneMoreDepart(calls: seq<Call>, stop: Id, departs: seq<int>, base: int, n: nat)
    requires 0 < n <= |departs|
    ensures Bag(CallShare(stop, departs, base, n), calls)
         == Bag(CallShare(stop, departs, base, n - 1), calls)
          + RunMinutes(StopsOf(calls), TimesOf(calls, departs[n - 1], base), stop)
  {
    hide RunMinutes, Minute, StopsOf, TimesOf;
    if calls == [] {
      NoRun(StopsOf(calls), TimesOf(calls, departs[n - 1], base), stop);
    } else {
      var c, rest, depart := calls[0], calls[1..], departs[n - 1];
      OneMoreDepart(rest, stop, departs, base, n);
      RunHead(calls, depart, base, stop);
      var here := if c.stop == stop then multiset{Minute(depart, c.time, base)} else multiset{};
      var before := CallShare(stop, departs, base, n - 1);
      assert CallShare(stop, departs, base, n)(c) == before(c) + here;
      Shuffle(before(c), here, Bag(before, rest), RunMinutes(StopsOf(rest), TimesOf(rest, depart, base), stop));
    }
  }

  lemma {:induction false} BagOfNothing(calls: seq<Call>, stop: Id, departs: seq<int>, base: int)
    ensures Bag(CallShare(stop, departs, base, 0), calls) == multiset{}
  {
    if calls != [] {
      BagOfNothing(calls[1..], stop, departs, base);
    }
  }

  /** Walking the runs departure by departure, or the calls one by one, gives the same minutes. */
  lemma {:induction false} RunsMatchCalls(calls: seq<Call>, k: Key, departs: seq<int>, base: int, n: nat)
    requires n <= |departs|
    ensures Bag(RunShare(StopsOf(calls), k), NamedRuns(k.service, calls, departs, base, n))
         == Bag(CallShare(k.stop, departs, base, n), calls)
  {
    if n == 0 {
      BagOfNothing(calls, k.stop, departs, base);
    } else {
      RunsMatchCalls(calls, k, departs, base, n - 1);
      OneMoreDepart(calls, k.stop, departs, base, n);
      var last := Run(k.service, TimesOf(calls, departs[n - 1], base));
      BagAppend(RunShare(StopsOf(calls), k), NamedRuns(k.service, calls, departs, base, n - 1), [last]);
      assert [last][1..] == [];
    }
  }

  lemma {:induction false} OtherService(calls: seq<Call>, k: Key, service: Id, departs: seq<int>, base: int, n: nat)
    requires n <= |departs| && service != k.service
    ensures Bag(RunShare(StopsOf(calls), k), NamedRuns(service, calls, departs, base, n)) == multiset{}
  {
    if n > 0 {
      OtherService(calls, k, service, departs, base, n - 1);
      var last := Run(service, TimesOf(calls, departs[n - 1], base));
      BagAppend(RunShare(StopsOf(calls), k), NamedRuns(service, calls, departs, base, n - 1), [last]);
      assert [last][1..] == [];
    }
  }

  // ---- one trip: calls against rows of the feed ----

  predicate TripUnder(t: Trip, k: Key) {
    t.route == k.route && t.headsign == k.headsign && t.service == k.service
  }

  function TripDeparts(feed: Feed, rank: Id -> int, trip: Id): seq<int> {
    if PatternBase(feed, trip, rank).None? then []
    else Departs(WindowsOf(feed, trip), PatternBase(feed, trip, rank).value)
  }

  /** What one trip contributes to a scan. */
  function TripMinutes(feed: Feed, rank: Id -> int, k: Key, trip: Id): Minutes {
    var base := PatternBase(feed, trip, rank);
    if trip in TripsOf(feed) && TripUnder(TripsOf(feed)[trip], k) && base.Some? then
      var departs := TripDeparts(feed, rank, trip);
      Bag(CallShare(k.stop, departs, base.value, |departs|), TripCalls(feed, trip))
    else multiset{}
  }

  /** The same, row by row. */
  function TripRows(feed: Feed, rank: Id -> int, k: Key, trip: Id, n: nat): Minutes
    requires n <= |feed.stopTimes|
  {
    if n == 0 then multiset{}
    else if feed.stopTimes[n - 1].trip == trip then
      TripRows(feed, rank, k, trip, n - 1) + PatternShare(feed, rank, k, feed.stopTimes[n - 1])
    else TripRows(feed, rank, k, trip, n - 1)
  }

  lemma RowShare(feed: Feed, rank: Id -> int, k: Key, r: StopTime)
    requires Kept(feed, r)
    ensures PatternShare(feed, rank, k, r)
         == if TripUnder(TripsOf(feed)[r.trip], k) && PatternBase(feed, r.trip, rank).Some? then
              var departs := TripDeparts(feed, rank, r.trip);
              CallShare(k.stop, departs, PatternBase(feed, r.trip, rank).value,
                        |departs|)(Call(r.sequence, r.stop, r.time.value))
            else multiset{}
  {
    hide PatternBase, TripTable, WindowsOf, Departs, MinutesAt;
  }

  lemma {:induction false} RowsAreCalls(feed: Feed, rank: Id -> int, k: Key, trip: Id, n: nat)
    requires n <= |feed.stopTimes| && trip in TripsOf(feed)
    ensures TripUnder(TripsOf(feed)[trip], k) && PatternBase(feed, trip, rank).Some? ==>
              var departs := TripDeparts(feed, rank, trip);
              TripRows(feed, rank, k, trip, n)
              == Bag(CallShare(k.stop, departs, PatternBase(feed, trip, rank).value, |departs|), CallsOf(feed, trip, n))
    ensures !(TripUnder(TripsOf(feed)[trip], k) && PatternBase(feed, trip, rank).Some?) ==>
              TripRows(feed, rank, k, trip, n) == multiset{}
  {
    hide PatternBase, TripDeparts, CallShare, TripsOf;
    if n > 0 {
      RowsAreCalls(feed, rank, k, trip, n - 1);
      var r := feed.stopTimes[n - 1];
      if r.trip == trip {
        if Kept(feed, r) {
          RowShare(feed, rank, k, r);
          if PatternBase(feed, trip, rank).Some? {
            var departs := TripDeparts(feed, rank, trip);
            var f := CallShare(k.stop, departs, PatternBase(feed, trip, rank).value, |departs|);
            var c := Call(r.sequence, r.stop, r.time.value);
            BagAppend(f, CallsOf(feed, trip, n - 1), [c]);
            assert [c][1..] == [];
          }
        } else {
          NotKeptNoShare(feed, rank, k, r);
        }
      }
    }
  }

  lemma NotKeptNoShare(feed: Feed, rank: Id -> int, k: Key, r: StopTime)
    requires !Kept(feed, r)
    ensures PatternShare(feed, rank, k, r) == multiset{}
  {}

  lemma TripMinutesAreRows(feed: Feed, rank: Id -> int, k: Key, trip: Id)
    requires trip in TripsOf(feed)
    ensures TripMinutes(feed, rank, k, trip) == TripRows(feed, rank, k, trip, |feed.stopTimes|)
  {
    hide PatternBase, TripDeparts, CallShare, TripRows;
    RowsAreCalls(feed, rank, k, trip, |feed.stopTimes|);
  }

  // ---- all trips: regrouping the rows ----

  function OrderRows(feed: Feed, rank: Id -> int, k: Key, order: seq<Id>, m: nat, n: nat): Minutes
    requires m <= |order| && n <= |feed.stopTimes|
  {
    if m == 0 then multiset{} else OrderRows(feed, rank, k, order, m - 1, n) + TripRows(feed, rank, k, order[m - 1], n)
  }

  lemma {:induction false} OrderRowsNext(feed: Feed, rank: Id -> int, k: Key, order: seq<Id>, m: nat, n: nat)
    requires m <= |order| && n < |feed.stopTimes| && Distinct(order)
    ensures OrderRows(feed, rank, k, order, m, n + 1)
         == OrderRows(feed, rank, k, order, m, n)
          + if feed.stopTimes[n].trip in order[..m] then PatternShare(feed, rank, k, feed.stopTimes[n]) else multiset{}
  {
    hide PatternShare;
    if m > 0 {
      OrderRowsNext(feed, rank, k, order, m - 1, n);
      var share, trip := PatternShare(feed, rank, k, feed.stopTimes[n]), feed.stopTimes[n].trip;
      assert order[..m] == order[..m - 1] + [order[m - 1]];
      var earlier := if trip in order[..m - 1] then share else multiset{};
      var here := if trip == order[m - 1] then share else multiset{};
      Shuffle(OrderRows(feed, rank, k, order, m - 1, n), earlier, TripRows(feed, rank, k, order[m - 1], n), here);
    }
  }

  lemma {:induction false} RegroupRows(feed: Feed, rank: Id -> int, k: Key, order: seq<Id>, n: nat)
    requires n <= |feed.stopTimes| && Distinct(order)
    requires forall i :: 0 <= i < n && Kept(feed, feed.stopTimes[i]) ==> feed.stopTimes[i].trip in order
    ensures PatternMinutes(feed, rank, k, n) == OrderRows(feed, rank, k, order, |order|, n)
  {
    hide PatternShare, Kept;
    if n == 0 {
      NoRowsYet(feed, rank, k, order, |order|);
    } else {
      RegroupRows(feed, rank, k, order, n - 1);
      OrderRowsNext(feed, rank, k, order, |order|, n - 1);
      assert order[..|order|] == order;
      if !Kept(feed, feed.stopTimes[n - 1]) {
        NotKeptNoShare(feed, rank, k, feed.stopTimes[n - 1]);
      }
    }
  }

  lemma {:induction false} NoRowsYet(feed: Feed, rank: Id -> int, k: Key, order: seq<Id>, m: nat)
    requires m <= |order|
    ensures OrderRows(feed, rank, k, order, m, 0) == multiset{}
  {
    if m > 0 {
      NoRowsYet(feed, rank, k, order, m - 1);
    }
  }

  function OrderMinutes(feed: Feed, rank: Id -> int, k: Key, order: seq<Id>, m: nat): Minutes
    requires m <= |order|
  {
    if m == 0 then multiset{} else OrderMinutes(feed, rank, k, order, m - 1) + TripMinutes(feed, rank, k, order[m - 1])
  }

  lemma {:induction false} OrderMinutesAreRows(feed: Feed, rank: Id -> int, k: Key, order: seq<Id>, m: nat)
    requires m <= |order| && forall i :: 0 <= i < |order| ==> order[i] in TripsOf(feed)
    ensures OrderMinutes(feed, rank, k, order, m) == OrderRows(feed, rank, k, order, m, |feed.stopTimes|)
  {
    hide TripMinutes, TripRows, TripsOf;
    if m > 0 {
      OrderMinutesAreRows(feed, rank, k, order, m - 1);
      TripMinutesAreRows(feed, rank, k, order[m - 1]);
    }
  }
}
