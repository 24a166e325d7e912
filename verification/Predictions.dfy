/**
 Pairing stop-keyed arrival predictions with scheduled departures, and merging departure rows.
 Times are texts; what they mean as instants and how they compare are parameters.
 */
module Predictions {
  import opened Util

  /** Instant to text, text to instant (`None` where it does not parse), and the order of texts. */
  datatype Clock = Clock(iso: int -> Id, epoch: Id -> Option<int>, le: (Id, Id) -> bool)

  datatype Arrival = Arrival(route: string, eta: Option<int>, position: Option<int>)

  /** The part of a departure that pairing and merging look at or change. */
  datatype Row = Row(route: string, tripId: Option<Id>, scheduled: Option<Id>, realtimeTime: Option<Id>,
                     realtime: bool, delay: Option<int>, source: Option<string>, stopSequence: Option<int>)

  /** Python's idea of a missing text. */
  predicate Missing(t: Option<Id>) {
    t.None? || t.value.text == ""
  }

  function Colon(s: string, i: nat): (k: nat)
    requires i <= |s|
    ensures i <= k <= |s|
    decreases |s| - i
  {
    if i == |s| || s[i] == ':' then i else Colon(s, i + 1)
  }

  /** What follows the first colon, or all of it. */
  function RawRoute(route: string): string {
    var k := Colon(route, 0);
    if k < |route| then route[k + 1..] else route
  }

  // ---- pairing ----

  predicate Recent(a: Arrival, now: int) {
    (if a.eta.Some? then a.eta.value else 0) >= now - 120
  }

  function RecentOf(arrivals: seq<Arrival>, n: nat, now: int): (r: seq<Arrival>)
    requires n <= |arrivals|
    ensures now > 120 ==> forall a :: a in r ==> a.eta.Some?
    ensures forall a :: a in r ==> Recent(a, now)
  {
    if n == 0 then []
    else RecentOf(arrivals, n - 1, now) + if Recent(arrivals[n - 1], now) then [arrivals[n - 1]] else []
  }

  function Eta(a: Arrival): int {
    if a.eta.Some? then a.eta.value else 0
  }

  function Pool(arrivals: seq<Arrival>, now: int): seq<Arrival> {
    SortBy(RecentOf(arrivals, |arrivals|, now), (a: Arrival, b: Arrival) => Eta(a) <= Eta(b))
  }

  /** A departure that pairing looks at: scheduled, readable, and without a realtime time yet. */
  predicate Open(c: Clock, d: Row) {
    !Missing(d.scheduled) && Missing(d.realtimeTime) && c.epoch(d.scheduled.value).Some?
  }

  function Due(c: Clock, d: Row): int
    requires Open(c, d)
  {
    c.epoch(d.scheduled.value).value
  }

  predicate SameRoute(a: Arrival, d: Row) {
    a.route == "" || RawRoute(d.route) == "" || a.route == RawRoute(d.route)
  }

  function Gap(c: Clock, a: Arrival, d: Row): nat
    requires Open(c, d)
  {
    var g := Eta(a) - Due(c, d);
    if g < 0 then -g else g
  }

  predicate Fits(c: Clock, window: int, a: Arrival, d: Row)
    requires Open(c, d)
  {
    SameRoute(a, d) && Gap(c, a, d) <= window
  }

  /** The first of the nearest fitting arrivals among the first `n`. */
  function Nearest(c: Clock, window: int, unused: seq<Arrival>, n: nat, d: Row): (b: Option<nat>)
    requires Open(c, d) && n <= |unused|
    ensures b.Some? ==> b.value < n
  {
    if n == 0 then None
    else
      var b := Nearest(c, window, unused, n - 1, d);
      if Fits(c, window, unused[n - 1], d) && (b.None? || Gap(c, unused[n - 1], d) < Gap(c, unused[b.value], d))
      then Some(n - 1)
      else b
  }

  function Choice(c: Clock, window: int, unused: seq<Arrival>, d: Row): Option<Arrival> {
    if !Open(c, d) then None
    else
      var b := Nearest(c, window, unused, |unused|, d);
      if b.None? then None else Some(unused[b.value])
  }

  function RemoveFirst(s: seq<Arrival>, a: Arrival): seq<Arrival> {
    if s == [] then [] else if s[0] == a then s[1..] else [s[0]] + RemoveFirst(s[1..], a)
  }

  /** The arrivals nobody has taken once the first `n` departures had their turn. */
  function Left(c: Clock, window: int, pool: seq<Arrival>, rows: seq<Row>, n: nat): seq<Arrival>
    requires n <= |rows|
  {
    if n == 0 then pool
    else
      var unused := Left(c, window, pool, rows, n - 1);
      var a := Choice(c, window, unused, rows[n - 1]);
      if a.Some? then RemoveFirst(unused, a.value) else unused
  }

  /** The arrival departure `i` takes, if any. */
  function Taken(c: Clock, window: int, pool: seq<Arrival>, rows: seq<Row>, i: nat): Option<Arrival>
    requires i < |rows|
  {
    Choice(c, window, Left(c, window, pool, rows, i), rows[i])
  }

  function Filled(c: Clock, d: Row, a: Arrival): Row
    requires Open(c, d)
  {
    d.(realtimeTime := Some(c.iso(Eta(a))), realtime := true, delay := Some(Eta(a) - Due(c, d)), source := Some("stop"))
  }

  /** Departure `i` after its turn. */
  function Paired(c: Clock, window: int, pool: seq<Arrival>, rows: seq<Row>, i: nat): Row
    requires i < |rows|
  {
    var a := Taken(c, window, pool, rows, i);
    if a.Some? && Open(c, rows[i]) then Filled(c, rows[i], a.value) else rows[i]
  }

  /** The row added for an arrival no departure took. */
  function Extra(c: Clock, scoped: string -> string, a: Arrival): Row {
    Row(if a.route != "" then scoped(a.route) else "", None, None, Some(c.iso(Eta(a))), true, None, Some("stop"),
        a.position)
  }

  // ---- what the pairing promises ----

  lemma {:induction false} NearestIs(c: Clock, window: int, unused: seq<Arrival>, n: nat, d: Row)
    requires Open(c, d) && n <= |unused|
    ensures var b := Nearest(c, window, unused, n, d);
            && (b.None? ==> forall k :: 0 <= k < n ==> !Fits(c, window, unused[k], d))
            && (b.Some? ==>
                  && Fits(c, window, unused[b.value], d)
                  && (forall k :: 0 <= k < n && Fits(c, window, unused[k], d) ==>
                        Gap(c, unused[b.value], d) <= Gap(c, unused[k], d))
                  && (forall k :: 0 <= k < b.value && Fits(c, window, unused[k], d) ==>
                        Gap(c, unused[b.value], d) < Gap(c, unused[k], d)))
  {
    hide Fits, Gap, Open;
    if n > 0 {
      NearestIs(c, window, unused, n - 1, d);
    }
  }

  /** The copy that is removed is the very one that was chosen: no equal arrival stands before it. */
  lemma ChosenIsFirstEqual(c: Clock, window: int, unused: seq<Arrival>, d: Row)
    requires Open(c, d) && Nearest(c, window, unused, |unused|, d).Some?
    ensures var b := Nearest(c, window, unused, |unused|, d).value;
            RemoveFirst(unused, unused[b]) == unused[..b] + unused[b + 1..]
  {
    hide Fits, Gap, Open, Nearest;
    NearestIs(c, window, unused, |unused|, d);
    var b := Nearest(c, window, unused, |unused|, d).value;
    forall k | 0 <= k < b ensures unused[k] != unused[b] {
      assert Fits(c, window, unused[k], d) ==> Gap(c, unused[b], d) < Gap(c, unused[k], d);
    }
    RemoveFirstAt(unused, b);
  }

  lemma {:induction false} RemoveFirstAt(s: seq<Arrival>, b: nat)
    requires b < |s| && forall k :: 0 <= k < b ==> s[k] != s[b]
    ensures RemoveFirst(s, s[b]) == s[..b] + s[b + 1..]
  {
    if b > 0 {
      RemoveFirstAt(s[1..], b - 1);
    }
  }

  lemma {:induction false} RemovePermutes(s: seq<Arrival>, a: Arrival)
    requires a in s
    ensures multiset(RemoveFirst(s, a)) + multiset{a} == multiset(s)
  {
    if s[0] != a {
      RemovePermutes(s[1..], a);
    }
    assert s == [s[0]] + s[1..];
  }

  function TakenBag(c: Clock, window: int, pool: seq<Arrival>, rows: seq<Row>, n: nat): multiset<Arrival>
    requires n <= |rows|
  {
    if n == 0 then multiset{}
    else
      var a := Taken(c, window, pool, rows, n - 1);
      TakenBag(c, window, pool, rows, n - 1) + if a.Some? then multiset{a.value} else multiset{}
  }

  lemma ChoiceIsUnused(c: Clock, window: int, unused: seq<Arrival>, d: Row)
    ensures var a := Choice(c, window, unused, d);
            a.Some? ==>
              && a.value in unused && Open(c, d) && Fits(c, window, a.value, d)
              && forall b :: b in unused && Fits(c, window, b, d) ==> Gap(c, a.value, d) <= Gap(c, b, d)
    ensures Choice(c, window, unused, d).None? && Open(c, d) ==> forall b :: b in unused ==> !Fits(c, window, b, d)
  {
    hide Fits, Gap, Open, Nearest;
    if Open(c, d) {
      NearestIs(c, window, unused, |unused|, d);
    }
  }

  /** What is taken and what is left over is the pool. */
  lemma {:induction false} Conserved(c: Clock, window: int, pool: seq<Arrival>, rows: seq<Row>, n: nat)
    requires n <= |rows|
    ensures TakenBag(c, window, pool, rows, n) + multiset(Left(c, window, pool, rows, n)) == multiset(pool)
  {
    hide Choice;
    if n > 0 {
      Conserved(c, window, pool, rows, n - 1);
      var unused := Left(c, window, pool, rows, n - 1);
      var a := Choice(c, window, unused, rows[n - 1]);
      ChoiceIsUnused(c, window, unused, rows[n - 1]);
      if a.Some? {
        RemovePermutes(unused, a.value);
      }
    }
  }

  lemma CountSnoc(s: seq<Arrival>, x: Arrival, a: Arrival)
    ensures multiset(s + [x])[a] == multiset(s)[a] + if a == x then 1 else 0
  {}

  lemma RecentNext(arrivals: seq<Arrival>, n: nat, now: int)
    ensures n < |arrivals| ==>
              RecentOf(arrivals, n + 1, now) ==
              RecentOf(arrivals, n, now) + if Recent(arrivals[n], now) then [arrivals[n]] else []
    ensures RecentOf(arrivals, 0, now) == []
  {
    hide Recent;
  }

  lemma {:induction false} RecentBag(arrivals: seq<Arrival>, n: nat, now: int, a: Arrival)
    requires n <= |arrivals|
    ensures multiset(RecentOf(arrivals, n, now))[a] == if Recent(a, now) then multiset(arrivals[..n])[a] else 0
  {
    hide Recent, RecentOf;
    if n == 0 {
      RecentNext(arrivals, 0, now);
    } else {
      RecentBag(arrivals, n - 1, now, a);
      RecentNext(arrivals, n - 1, now);
      assert arrivals[..n] == arrivals[..n - 1] + [arrivals[n - 1]];
      CountSnoc(arrivals[..n - 1], arrivals[n - 1], a);
      CountSnoc(RecentOf(arrivals, n - 1, now), arrivals[n - 1], a);
    }
  }

  /** The pool is the recent arrivals, soonest first. */
  lemma PoolIsRecent(arrivals: seq<Arrival>, now: int)
    ensures multiset(Pool(arrivals, now)) == multiset(RecentOf(arrivals, |arrivals|, now))
    ensures SortedBy(Pool(arrivals, now), (a: Arrival, b: Arrival) => Eta(a) <= Eta(b))
  {
    SortPermutes(RecentOf(arrivals, |arrivals|, now), (a: Arrival, b: Arrival) => Eta(a) <= Eta(b));
    SortSorts(RecentOf(arrivals, |arrivals|, now), (a: Arrival, b: Arrival) => Eta(a) <= Eta(b));
  }

  /** Every arrival that is recent is taken or left over as often as it was predicted, and no other ever is. */
  lemma ArrivalsConserved(c: Clock, window: int, arrivals: seq<Arrival>, rows: seq<Row>, now: int, a: Arrival)
    ensures var pool := Pool(arrivals, now);
            TakenBag(c, window, pool, rows, |rows|)[a] + multiset(Left(c, window, pool, rows, |rows|))[a]
            == if Recent(a, now) then multiset(arrivals)[a] else 0
  {
    hide TakenBag, Left, Pool, Recent, RecentOf;
    Conserved(c, window, Pool(arrivals, now), rows, |rows|);
    PoolIsRecent(arrivals, now);
    RecentBag(arrivals, |arrivals|, now, a);
    assert arrivals[..|arrivals|] == arrivals;
  }

  /** What a departure takes is of its route, inside the window, and nearest among what was left at its turn. */
  lemma TakenIsNearest(c: Clock, window: int, pool: seq<Arrival>, rows: seq<Row>, i: nat)
    requires i < |rows|
    ensures var (a, p) := (Taken(c, window, pool, rows, i), Paired(c, window, pool, rows, i));
            && p.scheduled == rows[i].scheduled && p.tripId == rows[i].tripId && p.route == rows[i].route
            && (a.None? ==> p == rows[i])
            && (a.Some? ==>
                  && Open(c, rows[i]) && a.value in Left(c, window, pool, rows, i) && Fits(c, window, a.value, rows[i])
                  && p.realtimeTime == Some(c.iso(Eta(a.value))) && p.delay == Some(Eta(a.value) - Due(c, rows[i]))
                  && forall b :: b in Left(c, window, pool, rows, i) && Fits(c, window, b, rows[i]) ==>
                       Gap(c, a.value, rows[i]) <= Gap(c, b, rows[i]))
  {
    hide Fits, Gap, Open, Choice, Left;
    ChoiceIsUnused(c, window, Left(c, window, pool, rows, i), rows[i]);
  }

  lemma {:induction false} LeftShrinks(c: Clock, window: int, pool: seq<Arrival>, rows: seq<Row>, i: nat, n: nat)
    requires i <= n <= |rows|
    ensures forall a :: a in Left(c, window, pool, rows, n) ==> a in Left(c, window, pool, rows, i)
  {
    hide Choice;
    if i < n {
      LeftShrinks(c, window, pool, rows, i, n - 1);
      var unused := Left(c, window, pool, rows, n - 1);
      var a := Choice(c, window, unused, rows[n - 1]);
      if a.Some? {
        RemoveKeeps(unused, a.value);
      }
    }
  }

  lemma {:induction false} RemoveKeeps(s: seq<Arrival>, a: Arrival)
    ensures forall b :: b in RemoveFirst(s, a) ==> b in s
  {
    if s != [] && s[0] != a {
      RemoveKeeps(s[1..], a);
    }
  }

  /** Nothing is left over that a departure without a time could still have used. */
  lemma NothingLeftFits(c: Clock, window: int, pool: seq<Arrival>, rows: seq<Row>, i: nat, a: Arrival)
    requires i < |rows| && Open(c, rows[i]) && Taken(c, window, pool, rows, i).None?
    requires a in Left(c, window, pool, rows, |rows|)
    ensures !Fits(c, window, a, rows[i])
  {
    hide Fits, Choice, Left, Open;
    LeftShrinks(c, window, pool, rows, i, |rows|);
    ChoiceIsUnused(c, window, Left(c, window, pool, rows, i), rows[i]);
  }

  // ---- merging ----

  function Effective(d: Row): Option<Id> {
    if Missing(d.realtimeTime) then d.scheduled else d.realtimeTime
  }

  predicate Timed(rows: seq<Row>) {
    forall d :: d in rows ==> Effective(d).Some?
  }

  predicate NoLater(c: Clock, a: Row, b: Row) {
    Effective(a).Some? && Effective(b).Some? && c.le(Effective(a).value, Effective(b).value)
  }

  predicate Tracked(d: Row) {
    !Missing(d.tripId)
  }

  /** Whether row `i` is the first of its trip; rows without a trip always are. */
  predicate FirstOfTrip(s: seq<Row>, i: nat)
    requires i < |s|
  {
    Tracked(s[i]) ==> forall j :: 0 <= j < i ==> s[j].tripId != s[i].tripId
  }

  function Firsts(s: seq<Row>, n: nat): seq<Row>
    requires n <= |s|
  {
    if n == 0 then [] else Firsts(s, n - 1) + if FirstOfTrip(s, n - 1) then [s[n - 1]] else []
  }

  /** Sorting on the effective time. The order of rows with no time at all, which never meet here, is filled in. */
  predicate Before(c: Clock, a: Row, b: Row) {
    Effective(a).None? || (Effective(b).Some? && c.le(Effective(a).value, Effective(b).value))
  }

  function ByTime(c: Clock, rows: seq<Row>): seq<Row> {
    SortBy(rows, (a, b) => Before(c, a, b))
  }

  function Merged(c: Clock, rows: seq<Row>): seq<Row> {
    Firsts(ByTime(c, rows), |ByTime(c, rows)|)
  }

  lemma {:induction false} FirstsFrom(s: seq<Row>, n: nat, k: nat) returns (i: nat)
    requires n <= |s| && k < |Firsts(s, n)|
    ensures i < n && s[i] == Firsts(s, n)[k] && FirstOfTrip(s, i) && |Firsts(s, i)| == k
  {
    hide FirstOfTrip;
    if k < |Firsts(s, n - 1)| {
      i := FirstsFrom(s, n - 1, k);
    } else {
      i := n - 1;
    }
  }

  lemma {:induction false} FirstsGrow(s: seq<Row>, i: nat, n: nat)
    requires i <= n <= |s|
    ensures Firsts(s, i) <= Firsts(s, n)
  {
    hide FirstOfTrip;
    if i < n {
      FirstsGrow(s, i, n - 1);
    }
  }

  /** The merged rows are in order of their effective times, each trip at most once. */
  lemma MergedIsSorted(c: Clock, rows: seq<Row>, j: nat, k: nat)
    requires TotalPreorder(c.le) && Timed(rows)
    requires j < k < |Merged(c, rows)|
    ensures var (a, b) := (Merged(c, rows)[j], Merged(c, rows)[k]);
            NoLater(c, a, b) && (Tracked(b) ==> a.tripId != b.tripId)
  {
    hide FirstOfTrip, Effective, Tracked;
    var s := ByTime(c, rows);
    var i := FirstsFrom(s, |s|, j);
    var m := FirstsFrom(s, |s|, k);
    if m <= i {
      FirstsGrow(s, m, i);
    }
    SortedByTime(c, rows, i, m);
    TripBefore(s, i, m);
  }

  lemma TripBefore(s: seq<Row>, i: nat, m: nat)
    requires i < m < |s| && FirstOfTrip(s, m)
    ensures Tracked(s[m]) ==> s[i].tripId != s[m].tripId
  {}

  lemma SortedByTime(c: Clock, rows: seq<Row>, i: nat, m: nat)
    requires TotalPreorder(c.le) && Timed(rows) && i < m < |ByTime(c, rows)|
    ensures NoLater(c, ByTime(c, rows)[i], ByTime(c, rows)[m])
  {
    hide Effective;
    var le := (a, b) => Before(c, a, b);
    BeforeOrders(c);
    SortSorts(rows, le);
    SortPermutes(rows, le);
    SameElements(ByTime(c, rows), rows);
    var s := ByTime(c, rows);
    assert le(s[i], s[m]);
    assert s[i] in rows && s[m] in rows;
  }

  lemma BeforeOrders(c: Clock)
    requires TotalPreorder(c.le)
    ensures TotalPreorder((a, b) => Before(c, a, b))
  {
    hide Effective;
  }

  lemma ByTimeKeeps(c: Clock, rows: seq<Row>)
    ensures multiset(ByTime(c, rows)) == multiset(rows) && |ByTime(c, rows)| == |rows|
  {
    SortPermutes(rows, (a, b) => Before(c, a, b));
  }

  /** For every row its trip is in the result, in a row that is no later; a row without a trip is there itself. */
  lemma MergedKeepsEarliest(c: Clock, rows: seq<Row>, d: Row) returns (k: nat)
    requires TotalPreorder(c.le) && Timed(rows) && d in rows
    ensures k < |Merged(c, rows)|
    ensures Tracked(d) ==>
              Merged(c, rows)[k].tripId == d.tripId && (Merged(c, rows)[k] == d || NoLater(c, Merged(c, rows)[k], d))
    ensures !Tracked(d) ==> Merged(c, rows)[k] == d
  {
    hide Effective, Tracked, ByTime;
    var s := ByTime(c, rows);
    ByTimeKeeps(c, rows);
    SameElements(s, rows);
    assert d in s;
    var m :| 0 <= m < |s| && s[m] == d;
    var i := FirstWithTrip(s, m);
    if i < m {
      SortedByTime(c, rows, i, m);
    }
    FirstsGrow(s, i + 1, |s|);
    k := |Firsts(s, i)|;
    assert Firsts(s, i + 1)[k] == s[i];
  }

  lemma {:induction false} FirstWithTrip(s: seq<Row>, m: nat) returns (i: nat)
    requires m < |s|
    ensures i <= m && FirstOfTrip(s, i) && s[i].tripId == s[m].tripId && (!Tracked(s[m]) ==> i == m)
    decreases m
  {
    if FirstOfTrip(s, m) {
      i := m;
    } else {
      var j :| 0 <= j < m && s[j].tripId == s[m].tripId;
      i := FirstWithTrip(s, j);
    }
  }

  /** How many of the first `n` rows are without a trip and equal to `d`. */
  function CountOf(s: seq<Row>, d: Row): nat {
    multiset(s)[d]
  }

  lemma {:induction false} UntrackedKept(s: seq<Row>, n: nat, d: Row)
    requires n <= |s| && !Tracked(d)
    ensures CountOf(Firsts(s, n), d) == CountOf(s[..n], d)
  {
    hide Tracked, CountOf;
    CountNone(d);
    if n > 0 {
      UntrackedKept(s, n - 1, d);
      assert s[..n] == s[..n - 1] + [s[n - 1]];
      CountAppend(s[..n - 1], s[n - 1], d);
      CountAppend(Firsts(s, n - 1), s[n - 1], d);
      assert Firsts(s, n - 1) + [] == Firsts(s, n - 1);
      assert s[n - 1] == d ==> FirstOfTrip(s, n - 1);
    }
  }

  lemma CountNone(d: Row)
    ensures CountOf([], d) == 0
  {}

  lemma CountAppend(s: seq<Row>, x: Row, d: Row)
    ensures CountOf(s + [x], d) == CountOf(s, d) + if x == d then 1 else 0
  {}

  /** Rows without a trip, such as the arrivals added by the pairing, are all kept, as often as they occur. */
  lemma MergedKeepsUntracked(c: Clock, rows: seq<Row>, d: Row)
    requires !Tracked(d)
    ensures CountOf(Merged(c, rows), d) == CountOf(rows, d)
  {
    hide Tracked, ByTime;
    ByTimeKeeps(c, rows);
    var s := ByTime(c, rows);
    UntrackedKept(s, |s|, d);
    assert s[..|s|] == s;
  }

  // ---- the loops as they are written ----

  class Departure {
    var row: Row

    constructor (r: Row)
      ensures row == r
    {
      row := r;
    }
  }

  method BestArrival(c: Clock, window: int, unused: seq<Arrival>, d: Row) returns (best: Option<Arrival>)
    requires Open(c, d)
    ensures best == Choice(c, window, unused, d)
  {
    hide Fits, Gap, Open;
    best := None;
    var gap := 0;
    for k := 0 to |unused|
      invariant var b := Nearest(c, window, unused, k, d);
                if b.None? then best == None else best == Some(unused[b.value]) && gap == Gap(c, unused[b.value], d)
    {
      if Fits(c, window, unused[k], d) && (best.None? || Gap(c, unused[k], d) < gap) {
        best, gap := Some(unused[k]), Gap(c, unused[k], d);
      }
    }
  }

  ghost predicate Distinct(deps: seq<Departure>) {
    forall i, j :: 0 <= i < j < |deps| ==> deps[i] != deps[j]
  }

  ghost function Rows(deps: seq<Departure>): (rows: seq<Row>)
    reads deps
    ensures |rows| == |deps|
  {
    seq(|deps|, i requires 0 <= i < |deps| reads deps => deps[i].row)
  }

  /** Gives each departure its turn, in place. */
  method PairAll(c: Clock, window: int, deps: seq<Departure>, pool: seq<Arrival>) returns (unused: seq<Arrival>)
    requires Distinct(deps)
    modifies deps
    ensures unused == Left(c, window, pool, old(Rows(deps)), |deps|)
    ensures forall i :: 0 <= i < |deps| ==> deps[i].row == Paired(c, window, pool, old(Rows(deps)), i)
  {
    hide Open, Choice, Left, Paired, RemoveFirst, SameRoute;
    ghost var rows := Rows(deps);
    unused := pool;
    NobodyYet(c, window, pool, rows);
    for n := 0 to |deps|
      invariant unused == Left(c, window, pool, rows, n)
      invariant forall i :: 0 <= i < n ==> deps[i].row == Paired(c, window, pool, rows, i)
      invariant forall i :: n <= i < |deps| ==> deps[i].row == rows[i]
    {
      var d := deps[n].row;
      Turn(c, window, pool, rows, n);
      if Open(c, d) {
        var best := BestArrival(c, window, unused, d);
        if best.Some? {
          unused := RemoveFirst(unused, best.value);
          deps[n].row := Filled(c, d, best.value);
        }
      }
    }
  }

  lemma NobodyYet(c: Clock, window: int, pool: seq<Arrival>, rows: seq<Row>)
    ensures Left(c, window, pool, rows, 0) == pool
  {}

  lemma Turn(c: Clock, window: int, pool: seq<Arrival>, rows: seq<Row>, n: nat)
    requires n < |rows|
    ensures var (unused, d) := (Left(c, window, pool, rows, n), rows[n]);
            var a := Choice(c, window, unused, d);
            && Left(c, window, pool, rows, n + 1) ==
               (if Open(c, d) && a.Some? then RemoveFirst(unused, a.value) else unused)
            && Paired(c, window, pool, rows, n) == if Open(c, d) && a.Some? then Filled(c, d, a.value) else d
  {
    hide Open, Filled;
    ClosedTakesNothing(c, window, Left(c, window, pool, rows, n), rows[n]);
  }

  method ApplyStopPredictions(c: Clock, scoped: string -> string, deps: seq<Departure>, arrivals: seq<Arrival>,
                              now: int, window: int)
    returns (out: seq<Departure>)
    requires Distinct(deps) && now > 120
    modifies deps
    ensures |out| >= |deps| && out[..|deps|] == deps && forall k :: |deps| <= k < |out| ==> fresh(out[k])
    ensures forall i :: 0 <= i < |deps| ==> deps[i].row == Paired(c, window, Pool(arrivals, now), old(Rows(deps)), i)
    ensures var left := Left(c, window, Pool(arrivals, now), old(Rows(deps)), |deps|);
            |out| == |deps| + |left| && forall k :: 0 <= k < |left| ==> out[|deps| + k].row == Extra(c, scoped, left[k])
  {
    hide Pool, Left, Paired, Extra;
    if arrivals == [] {
      NothingToPair(c, window, Rows(deps), now);
      return deps;
    }
    var unused := PairAll(c, window, deps, Pool(arrivals, now));
    label Turns:
    out := deps;
    for k := 0 to |unused|
      invariant |out| == |deps| + k && out[..|deps|] == deps
      invariant forall j :: |deps| <= j < |out| ==> fresh(out[j])
      invariant forall j :: 0 <= j < k ==> out[|deps| + j].row == Extra(c, scoped, unused[j])
      invariant forall i :: 0 <= i < |deps| ==> deps[i].row == old@Turns(deps[i].row)
    {
      var extra := new Departure(Extra(c, scoped, unused[k]));
      out := out + [extra];
    }
  }

  lemma ClosedTakesNothing(c: Clock, window: int, unused: seq<Arrival>, d: Row)
    ensures !Open(c, d) ==> Choice(c, window, unused, d) == None
  {}

  lemma {:induction false} LeftOfNothing(c: Clock, window: int, rows: seq<Row>, n: nat)
    requires n <= |rows|
    ensures Left(c, window, [], rows, n) == []
  {
    if n > 0 {
      LeftOfNothing(c, window, rows, n - 1);
    }
  }

  lemma NothingToPair(c: Clock, window: int, rows: seq<Row>, now: int)
    ensures Left(c, window, Pool([], now), rows, |rows|) == []
    ensures forall i :: 0 <= i < |rows| ==> Paired(c, window, Pool([], now), rows, i) == rows[i]
  {
    forall i | 0 <= i <= |rows| ensures Left(c, window, [], rows, i) == [] {
      LeftOfNothing(c, window, rows, i);
    }
  }

  method MergeDepartures(c: Clock, rows: seq<Row>) returns (out: seq<Row>)
    requires Timed(rows)
    ensures out == Merged(c, rows)
  {
    hide ByTime;
    var s := ByTime(c, rows);
    var seen: set<Id> := {};
    out := [];
    for n := 0 to |s|
      invariant out == Firsts(s, n)
      invariant forall t :: t in seen <==> exists j :: 0 <= j < n && s[j].tripId == Some(t) && Tracked(s[j])
    {
      var key := s[n].tripId;
      if Tracked(s[n]) && key.Some? && key.value in seen {
        continue;
      }
      if Tracked(s[n]) && key.Some? {
        seen := seen + {key.value};
      }
      out := out + [s[n]];
    }
  }
}
