module Itinerary {
  /**
   Stretching the car legs of an itinerary by the traffic factor: in-place shifts of the leg times that keep the
   timeline consistent.
   */
  import opened Util

  /** A time of the plan: an instant in seconds, or a text that is missing or cannot be read. */
  datatype Time = At(t: int) | Unknown {
    function Shift(seconds: int): Time {
      if At? then At(t + seconds) else this
    }
  }

  datatype Mode = Car | Walk | Other

  datatype Leg = Leg(start: Time, end: Time, duration: Option<int>, mode: Mode, transit: bool, rental: bool,
                     parkRide: bool) {
    function Base(): int { if duration.Some? then duration.value else 0 }

    function Shift(seconds: int): Leg {
      this.(start := start.Shift(seconds), end := end.Shift(seconds))
    }

    /** A ride that gets taxi quotes: neither a rented car nor your own. */
    predicate OnDemand() { mode.Car? && !transit && !rental && !parkRide }
  }

  datatype Trip = Trip(legs: seq<Leg>, start: Time, end: Time, duration: Option<int>, walkTime: Option<int>) {
    function Base(): int { if duration.Some? then duration.value else 0 }
  }

  // ---- one stretch ----

  function Scaled(seconds: int, factor: real): int {
    RoundHalfEven(seconds as real * factor)
  }

  function Delta(l: Leg, factor: real): int {
    Scaled(l.Base(), factor) - l.Base()
  }

  predicate TransitIn(legs: seq<Leg>, lo: nat, hi: nat)
    requires lo <= hi <= |legs|
  {
    exists j :: lo <= j < hi && legs[j].transit
  }

  /** Whether the leg has to end in time for a later transit leg. */
  predicate Feeds(legs: seq<Leg>, idx: nat)
    requires idx < |legs|
  {
    TransitIn(legs, idx + 1, |legs|)
  }

  /** Leg `k` after leg `idx` was stretched by `delta` seconds. */
  function StretchedLeg(legs: seq<Leg>, idx: nat, delta: int, k: nat): Leg
    requires idx < |legs| && k < |legs|
  {
    var l := legs[k];
    if Feeds(legs, idx) then
      if k < idx then l.Shift(-delta)
      else if k == idx then l.(start := l.start.Shift(-delta), duration := Some(l.Base() + delta))
      else l
    else
      if k > idx then l.Shift(delta)
      else if k == idx then l.(end := l.end.Shift(delta), duration := Some(l.Base() + delta))
      else l
  }

  function Stretched(t: Trip, idx: nat, factor: real): (r: Trip)
    requires idx < |t.legs|
    ensures |r.legs| == |t.legs|
  {
    var delta := Delta(t.legs[idx], factor);
    if delta <= 0 then t
    else
      Trip(seq(|t.legs|, k requires 0 <= k < |t.legs| => StretchedLeg(t.legs, idx, delta, k)),
           if Feeds(t.legs, idx) then t.start.Shift(-delta) else t.start,
           if Feeds(t.legs, idx) then t.end else t.end.Shift(delta),
           Some(t.Base() + delta), t.walkTime)
  }

  /** The first `n` legs looked at in order; the factor is that of the leg's start as it is by then. */
  function StretchAll(t: Trip, factor: Time -> real, n: nat): (r: Trip)
    requires n <= |t.legs|
    ensures |r.legs| == |t.legs|
  {
    if n == 0 then t
    else
      var s := StretchAll(t, factor, n - 1);
      if s.legs[n - 1].OnDemand() then Stretched(s, n - 1, factor(s.legs[n - 1].start)) else s
  }

  // ---- what a timeline keeps ----

  predicate SpanIs(start: Time, end: Time, duration: int) {
    start.At? && end.At? ==> end.t - start.t == duration
  }

  predicate NotAfter(a: Time, b: Time) {
    a.At? && b.At? ==> a.t <= b.t
  }

  /** The legs follow one another without overlap. */
  predicate Ordered(legs: seq<Leg>) {
    && (forall k :: 0 <= k < |legs| ==> NotAfter(legs[k].start, legs[k].end))
    && (forall j, k :: 0 <= j < k < |legs| ==> NotAfter(legs[j].end, legs[k].start))
  }

  /** Every leg lasts as long as it says. */
  predicate Timed(legs: seq<Leg>) {
    forall k :: 0 <= k < |legs| ==> SpanIs(legs[k].start, legs[k].end, legs[k].Base())
  }

  predicate SameShape(a: seq<Leg>, b: seq<Leg>) {
    |a| == |b| && forall k :: 0 <= k < |a| ==>
      a[k].transit == b[k].transit && a[k].mode == b[k].mode && a[k].OnDemand() == b[k].OnDemand()
  }

  lemma StretchKeepsTimeline(t: Trip, idx: nat, factor: real)
    requires idx < |t.legs|
    ensures var r := Stretched(t, idx, factor);
            && SameShape(t.legs, r.legs)
            && (SpanIs(t.start, t.end, t.Base()) ==> SpanIs(r.start, r.end, r.Base()))
            && (Ordered(t.legs) ==> Ordered(r.legs))
            && (Timed(t.legs) ==> Timed(r.legs))
            && r.Base() == t.Base() + Max(0, Delta(t.legs[idx], factor))
  {
    hide Delta, Feeds;
  }

  /** One car leg's stretch moves a transit leg exactly when it feeds a later one and leaves an earlier one behind. */
  lemma StretchMoves(t: Trip, idx: nat, factor: real, k: nat)
    requires idx < |t.legs| && k < |t.legs| && t.legs[k].transit && t.legs[k].start.At? && k != idx
    ensures Stretched(t, idx, factor).legs[k].start.At?
    ensures Stretched(t, idx, factor).legs[k] != t.legs[k] <==>
            Delta(t.legs[idx], factor) > 0 && k < idx && Feeds(t.legs, idx)
    ensures Stretched(t, idx, factor).legs[k] != t.legs[k] ==>
              Stretched(t, idx, factor).legs[k].start.t < t.legs[k].start.t
  {
    hide Delta;
    assert k > idx ==> Feeds(t.legs, idx);
  }

  // ---- all car legs of an itinerary ----

  /** Stretching every car leg keeps the itinerary as long as it says, the legs in order and each of its length. */
  lemma {:induction false} StretchAllKeepsTimeline(t: Trip, factor: Time -> real, n: nat)
    requires n <= |t.legs|
    ensures var r := StretchAll(t, factor, n);
            && SameShape(t.legs, r.legs)
            && (SpanIs(t.start, t.end, t.Base()) ==> SpanIs(r.start, r.end, r.Base()))
            && (Ordered(t.legs) ==> Ordered(r.legs))
            && (Timed(t.legs) ==> Timed(r.legs))
  {
    hide Stretched, Ordered, Timed, SpanIs;
    if n > 0 {
      StretchAllKeepsTimeline(t, factor, n - 1);
      var s := StretchAll(t, factor, n - 1);
      StretchKeepsTimeline(s, n - 1, factor(s.legs[n - 1].start));
    }
  }

  /** Car leg `i` of the plan as given is to be lengthened, and feeds a transit leg: whatever is before it moves. */
  predicate PullsForward(t: Trip, factor: Time -> real, i: nat)
    requires i < |t.legs|
  {
    t.legs[i].OnDemand() && Feeds(t.legs, i) && Delta(t.legs[i], factor(t.legs[i].start)) > 0
  }

  /** The seconds the first `n` turns add. */
  function Added(t: Trip, factor: Time -> real, n: nat): nat
    requires n <= |t.legs|
  {
    if n == 0 then 0
    else
      var s := StretchAll(t, factor, n - 1);
      Added(t, factor, n - 1) +
      if s.legs[n - 1].OnDemand() then Max(0, Delta(s.legs[n - 1], factor(s.legs[n - 1].start))) else 0
  }

  lemma {:induction false} DurationGrows(t: Trip, factor: Time -> real, n: nat)
    requires n <= |t.legs|
    ensures StretchAll(t, factor, n).Base() == t.Base() + Added(t, factor, n)
  {
    hide Stretched, Delta;
    if n > 0 {
      DurationGrows(t, factor, n - 1);
      var s := StretchAll(t, factor, n - 1);
      StretchKeepsTimeline(s, n - 1, factor(s.legs[n - 1].start));
    }
  }

  /**
   A leg that feeds transit is as it was in the plan when its turn comes: legs before it only move what is before
   them.
   */
  lemma {:induction false} FeederUntouched(t: Trip, factor: Time -> real, n: nat, i: nat)
    requires n <= i < |t.legs| && Feeds(t.legs, i)
    ensures StretchAll(t, factor, n).legs[i] == t.legs[i]
  {
    hide Stretched, Delta, StretchAll;
    StretchAllNext(t, factor, n);
    if n > 0 {
      FeederUntouched(t, factor, n - 1, i);
      var s := StretchAll(t, factor, n - 1);
      StretchAllKeepsTimeline(t, factor, n - 1);
      FeedsSame(t.legs, s.legs, i);
      if s.legs[n - 1].OnDemand() { StretchLeavesLater(s, n - 1, factor(s.legs[n - 1].start), i); }
    }
  }

  lemma StretchLeavesLater(t: Trip, idx: nat, factor: real, k: nat)
    requires idx < k < |t.legs| && Feeds(t.legs, k)
    ensures Stretched(t, idx, factor).legs[k] == t.legs[k]
  {
    hide Delta;
    assert Feeds(t.legs, idx);
  }

  /**
   A transit leg is moved, and then departs early, exactly when the plan has a car leg after it that is to be
   lengthened and feeds a later transit leg.
   */
  lemma {:induction false} TransitMoves(t: Trip, factor: Time -> real, n: nat, k: nat)
    requires n <= |t.legs| && k < |t.legs| && t.legs[k].transit && t.legs[k].start.At?
    ensures var r := StretchAll(t, factor, n).legs[k];
            && r.start.At? && r.start.t <= t.legs[k].start.t
            && (r != t.legs[k] <==> exists i :: k < i < n && PullsForward(t, factor, i))
            && (r != t.legs[k] ==> r.start.t < t.legs[k].start.t)
  {
    hide Stretched, Delta, StretchAll, Feeds;
    StretchAllNext(t, factor, n);
    if n > 0 {
      TransitMoves(t, factor, n - 1, k);
      var s := StretchAll(t, factor, n - 1);
      StretchAllKeepsTimeline(t, factor, n - 1);
      FeedsSame(t.legs, s.legs, n - 1);
      if Feeds(t.legs, n - 1) {
        FeederUntouched(t, factor, n - 1, n - 1);
      }
      if s.legs[n - 1].OnDemand() {
        StretchMoves(s, n - 1, factor(s.legs[n - 1].start), k);
      }
      assert k < n - 1 ==> (PullsForward(t, factor, n - 1) <==>
        s.legs[n - 1].OnDemand() && Feeds(s.legs, n - 1) && Delta(s.legs[n - 1], factor(s.legs[n - 1].start)) > 0);
    }
  }

  lemma StretchAllNext(t: Trip, factor: Time -> real, n: nat)
    requires n <= |t.legs|
    ensures n == 0 ==> StretchAll(t, factor, n) == t
    ensures n > 0 ==>
              var s := StretchAll(t, factor, n - 1);
              StretchAll(t, factor, n) ==
              if s.legs[n - 1].OnDemand() then Stretched(s, n - 1, factor(s.legs[n - 1].start)) else s
  {
    hide Stretched;
  }

  lemma FeedsSame(a: seq<Leg>, b: seq<Leg>, i: nat)
    requires SameShape(a, b) && i < |a|
    ensures Feeds(a, i) == Feeds(b, i)
  {}

  /** No car leg between transit legs: no transit leg is ever moved. */
  lemma TransitStays(t: Trip, factor: Time -> real, k: nat)
    requires k < |t.legs| && t.legs[k].transit && t.legs[k].start.At?
    requires forall i :: k < i < |t.legs| && t.legs[i].OnDemand() ==> !Feeds(t.legs, i)
    ensures StretchAll(t, factor, |t.legs|).legs[k] == t.legs[k]
  {
    hide StretchAll, Feeds;
    TransitMoves(t, factor, |t.legs|, k);
  }

  /**
   Ten minutes by bus, ten by car and ten by bus again; where the car takes half as long again the first bus leaves
   early.
   */
  lemma BusLeavesEarly()
    ensures var bus, car := Leg(At(0), At(600), Some(600), Other, true, false, false),
                            Leg(At(600), At(1200), Some(600), Car, false, false, false);
            var t := Trip([bus, car, bus.Shift(1200)], At(0), At(1800), Some(1800), None);
            Ordered(t.legs) && Timed(t.legs) && StretchAll(t, _ => 1.5, 3).legs[0].start == At(-300)
  {
    hide StretchAll, Stretched, Ordered, Timed;
    var bus, car := Leg(At(0), At(600), Some(600), Other, true, false, false),
                    Leg(At(600), At(1200), Some(600), Car, false, false, false);
    var legs := [bus, car, bus.Shift(1200)];
    var t := Trip(legs, At(0), At(1800), Some(1800), None);
    assert Ordered(legs) && Timed(legs) by { InOrder(legs); }
    StretchAllNext(t, _ => 1.5, 0);
    StretchAllNext(t, _ => 1.5, 1);
    StretchAllNext(t, _ => 1.5, 2);
    StretchAllNext(t, _ => 1.5, 3);
    assert Delta(car, 1.5) == 300;
    assert legs[2].transit && Feeds(legs, 1);
    StretchedTo(t, 1, 1.5, 0);
    var s := StretchAll(t, _ => 1.5, 2);
    assert !s.legs[2].OnDemand() by { StretchAllKeepsTimeline(t, _ => 1.5, 2); }
  }

  lemma InOrder(legs: seq<Leg>)
    requires |legs| == 3 && forall k :: 0 <= k < 3 ==> legs[k].start == At(600 * k) && legs[k].end == At(600 * (k + 1))
    requires forall k :: 0 <= k < 3 ==> legs[k].Base() == 600
    ensures Ordered(legs) && Timed(legs)
  {}

  lemma StretchedTo(t: Trip, idx: nat, factor: real, k: nat)
    requires k < idx < |t.legs| && Delta(t.legs[idx], factor) > 0 && Feeds(t.legs, idx)
    ensures Stretched(t, idx, factor).legs[k] == t.legs[k].Shift(-Delta(t.legs[idx], factor))
  {}

  // ---- the plan as it is updated ----

  class LegObject {
    var start: Time
    var end: Time
    var duration: Option<int>
    var parkRide: bool
    const mode: Mode
    const transit: bool
    const rental: bool

    constructor (l: Leg)
      ensures View() == l
    {
      start, end, duration, parkRide := l.start, l.end, l.duration, l.parkRide;
      mode, transit, rental := l.mode, l.transit, l.rental;
    }

    function View(): Leg
      reads this
    {
      Leg(start, end, duration, mode, transit, rental, parkRide)
    }
  }

  ghost predicate Distinct(legs: seq<LegObject>) {
    forall i, j :: 0 <= i < j < |legs| ==> legs[i] != legs[j]
  }

  function Views(legs: seq<LegObject>): (v: seq<Leg>)
    reads legs
    ensures |v| == |legs|
  {
    seq(|legs|, i requires 0 <= i < |legs| reads legs => legs[i].View())
  }

  function Shifted(legs: seq<Leg>, lo: nat, hi: nat, seconds: int): (r: seq<Leg>)
    ensures |r| == |legs|
  {
    seq(|legs|, k requires 0 <= k < |legs| => if lo <= k < hi then legs[k].Shift(seconds) else legs[k])
  }

  function OwnStretch(l: Leg, delta: int, feeds: bool): Leg {
    var longer := l.(duration := Some(l.Base() + delta));
    if feeds then longer.(start := l.start.Shift(-delta)) else longer.(end := l.end.Shift(delta))
  }

  /** The leg itself first and then the legs around it: together the stretched timeline. */
  lemma Assembled(was: seq<Leg>, idx: nat, delta: int)
    requires idx < |was|
    ensures var feeds := Feeds(was, idx);
            var own := was[idx := OwnStretch(was[idx], delta, feeds)];
            (if feeds then Shifted(own, 0, idx, -delta) else Shifted(own, idx + 1, |was|, delta)) ==
            seq(|was|, k requires 0 <= k < |was| => StretchedLeg(was, idx, delta, k))
  {
    hide TransitIn;
  }

  class ItineraryObject {
    var legs: seq<LegObject>
    var start: Time
    var end: Time
    var duration: Option<int>

    var walkTime: Option<int>

    constructor (legs: seq<LegObject>, start: Time, end: Time, duration: Option<int>, walkTime: Option<int>)
      ensures this.legs == legs && this.start == start && this.end == end && this.duration == duration
      ensures this.walkTime == walkTime
    {
      this.legs, this.start, this.end, this.duration, this.walkTime := legs, start, end, duration, walkTime;
    }

    function View(): Trip
      reads this, legs
    {
      Trip(Views(legs), start, end, duration, walkTime)
    }

    /** Shifts legs `lo..hi` in place. */
    method ShiftLegs(lo: nat, hi: nat, seconds: int)
      requires lo <= hi <= |legs| && Distinct(legs)
      modifies legs
      ensures Views(legs) == Shifted(old(Views(legs)), lo, hi, seconds)
    {
      ghost var was := Views(legs);
      for k := lo to hi
        invariant Views(legs) == Shifted(was, lo, k, seconds)
      {
        ghost var before := Views(legs);
        assert legs[k].View() == before[k] == was[k];
        legs[k].start, legs[k].end := legs[k].start.Shift(seconds), legs[k].end.Shift(seconds);
        assert forall i :: 0 <= i < |legs| && i != k ==> legs[i].View() == before[i];
      }
    }

    /** The car leg itself, before the legs around it follow. */
    method StretchOwn(idx: nat, delta: int, feeds: bool)
      requires idx < |legs| && Distinct(legs)
      modifies legs[idx]
      ensures Views(legs) == old(Views(legs))[idx := OwnStretch(old(Views(legs))[idx], delta, feeds)]
    {
      ghost var was := Views(legs);
      var leg := legs[idx];
      leg.duration := Some((if leg.duration.Some? then leg.duration.value else 0) + delta);
      if feeds {
        leg.start := leg.start.Shift(-delta);
      } else {
        leg.end := leg.end.Shift(delta);
      }
      assert forall i :: 0 <= i < |legs| && i != idx ==> legs[i].View() == was[i];
    }

    method StretchCarLeg(idx: nat, factor: real)
      requires idx < |legs| && Distinct(legs)
      modifies this`start, this`end, this`duration, legs
      ensures View() == Stretched(old(View()), idx, factor)
    {
      hide Delta, StretchedLeg, Shifted, OwnStretch, TransitIn;
      ghost var was := Views(legs);
      var delta := Delta(legs[idx].View(), factor);
      if delta <= 0 {
        return;
      }
      var feeds := FindTransit(idx + 1);
      StretchOwn(idx, delta, feeds);
      if feeds {
        ShiftLegs(0, idx, -delta);
        start := start.Shift(-delta);
      } else {
        ShiftLegs(idx + 1, |legs|, delta);
        end := end.Shift(delta);
      }
      duration := Some((if duration.Some? then duration.value else 0) + delta);
      Assembled(was, idx, delta);
    }

    method FindTransit(lo: nat) returns (found: bool)
      requires lo <= |legs|
      ensures found == TransitIn(Views(legs), lo, |legs|)
    {
      found := false;
      for k := lo to |legs|
        invariant found == TransitIn(Views(legs), lo, k)
      {
        assert Views(legs)[k].transit == legs[k].transit;
        if legs[k].transit {
          found := true;
        }
      }
    }

    /** The leg loop of `attach_to_plan`; quotes and fares do not touch the times. */
    method StretchCarLegs(factor: Time -> real)
      requires Distinct(legs)
      modifies this`start, this`end, this`duration, legs
      ensures View() == StretchAll(old(View()), factor, |legs|)
    {
      hide Stretched;
      ghost var was := View();
      for idx := 0 to |legs|
        invariant View() == StretchAll(was, factor, idx)
      {
        if legs[idx].View().OnDemand() {
          StretchCarLeg(idx, factor(legs[idx].start));
        }
      }
    }
  }
}
