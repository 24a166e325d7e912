module ParkRide {
  /**
   Park and ride: the nearest zone a car may be left in, and the rewriting of a car drop-off itinerary around it.
   Which zones there are, how far they are and what they allow are answers of other components.
   */
  import opened Util
  import opened Itinerary

  // ---- the zone ----

  /**
   Distance from the drop-off (`None` without a geometry), free spaces if reported, and whether a car may park now.
   */
  datatype Zone = Zone(distance: Option<real>, spaces: Option<int>, allowed: Option<bool>)

  predicate Admissible(z: Zone, maxWalk: real) {
    && z.distance.Some? && z.distance.value <= maxWalk
    && (z.spaces.Some? ==> z.spaces.value > 0)
    && z.allowed == Some(true)
  }

  /** The nearest admissible of the first `n` zones, the first of equally near ones. */
  function Nearest(zones: seq<Zone>, maxWalk: real, n: nat): (best: Option<nat>)
    requires n <= |zones|
    ensures best.None? <==> forall k :: 0 <= k < n ==> !Admissible(zones[k], maxWalk)
    ensures best.Some? ==> best.value < n && Admissible(zones[best.value], maxWalk)
    ensures best.Some? ==> forall k :: 0 <= k < n && Admissible(zones[k], maxWalk) ==>
                             && zones[best.value].distance.value <= zones[k].distance.value
                             && (k < best.value ==> zones[best.value].distance.value < zones[k].distance.value)
  {
    if n == 0 then None
    else
      var best := Nearest(zones, maxWalk, n - 1);
      if Admissible(zones[n - 1], maxWalk)
         && (best.Some? ==> zones[n - 1].distance.value < zones[best.value].distance.value)
      then Some(n - 1) else best
  }

  method FindParking(zones: seq<Zone>, maxWalk: real) returns (best: Option<nat>)
    ensures best == Nearest(zones, maxWalk, |zones|)
    ensures best.None? <==> forall k :: 0 <= k < |zones| ==> !Admissible(zones[k], maxWalk)
    ensures best.Some? ==> best.value < |zones| && Admissible(zones[best.value], maxWalk)
    ensures best.Some? ==> forall k :: 0 <= k < |zones| && Admissible(zones[k], maxWalk) ==>
                             && zones[best.value].distance.value <= zones[k].distance.value
                             && (k < best.value ==> zones[best.value].distance.value < zones[k].distance.value)
  {
    best := None;
    for n := 0 to |zones|
      invariant best == Nearest(zones, maxWalk, n)
    {
      var d := zones[n].distance;
      if d.None? || d.value > maxWalk || (best.Some? && d.value >= zones[best.value].distance.value) {
        continue;
      }
      if zones[n].spaces.Some? && zones[n].spaces.value <= 0 {
        continue;
      }
      if zones[n].allowed != Some(true) {
        continue;
      }
      best := Some(n);
    }
  }

  /** Seconds to walk the given metres at 1.2 metres a second. */
  function WalkSeconds(metres: nat): (s: nat)
    ensures -0.6 <= 1.2 * s as real - metres as real <= 0.6
  {
    RoundHalfEven(metres as real / 1.2)
  }

  /**
   What the other components answer for a trip: whether its drive is short enough and its drop-off known, the zones
   around the drop-off, how far to walk at the most, and the metres from a zone to the stop.
   */
  datatype Area = Area(drivable: Trip -> bool, zones: Trip -> seq<Zone>, maxWalk: real, metres: (Trip, nat) -> nat)

  /** The zone the car is left in. */
  function ZoneFor(t: Trip, area: Area): (zone: Option<nat>)
    ensures zone.Some? ==> zone.value < |area.zones(t)| && Admissible(area.zones(t)[zone.value], area.maxWalk)
  {
    Nearest(area.zones(t), area.maxWalk, |area.zones(t)|)
  }

  // ---- the rewriting ----

  /** The first car leg that is not transit. */
  function CarLeg(legs: seq<Leg>, n: nat): (idx: Option<nat>)
    requires n <= |legs|
    ensures idx.Some? ==> idx.value < n && legs[idx.value].mode.Car? && !legs[idx.value].transit
    ensures forall k :: 0 <= k < (if idx.Some? then idx.value else n) ==> !(legs[k].mode.Car? && !legs[k].transit)
  {
    if n == 0 then None
    else if CarLeg(legs, n - 1).Some? then CarLeg(legs, n - 1)
    else if legs[n - 1].mode.Car? && !legs[n - 1].transit then Some(n - 1)
    else None
  }

  /** The car leg of a trip that drives to transit. */
  function Feeder(t: Trip): (idx: Option<nat>)
    ensures idx.Some? ==> idx.value < |t.legs| && t.legs[idx.value].mode.Car? && !t.legs[idx.value].transit
  {
    var idx := CarLeg(t.legs, |t.legs|);
    if idx.Some? && Feeds(t.legs, idx.value) then idx else None
  }

  /** Whether the planner put a walk right after the car leg, which the new walk replaces. */
  predicate WalkFollows(legs: seq<Leg>, idx: nat)
    requires idx < |legs|
  {
    idx + 1 < |legs| && legs[idx + 1].mode.Walk? && !legs[idx + 1].transit
  }

  function OldWalk(legs: seq<Leg>, idx: nat): int
    requires idx < |legs|
  {
    if WalkFollows(legs, idx) then legs[idx + 1].Base() else 0
  }

  /** By how much the trip has to start earlier. */
  function Earlier(legs: seq<Leg>, idx: nat, walk: int): (e: int)
    requires idx < |legs|
    ensures e >= 0
  {
    Max(0, walk - OldWalk(legs, idx))
  }

  function WalkEnd(legs: seq<Leg>, idx: nat): Time
    requires idx < |legs|
  {
    if WalkFollows(legs, idx) then legs[idx + 1].end else legs[idx].end
  }

  function NewWalk(legs: seq<Leg>, idx: nat, walk: int): Leg
    requires idx < |legs|
  {
    Leg(WalkEnd(legs, idx).Shift(-walk), WalkEnd(legs, idx), Some(walk), Walk, false, false, false)
  }

  function ParkedLeg(legs: seq<Leg>, idx: nat, walk: int): Leg
    requires idx < |legs|
  {
    legs[idx].(parkRide := true, start := legs[idx].start.Shift(-Earlier(legs, idx, walk)),
               end := NewWalk(legs, idx, walk).start)
  }

  /** Where the untouched rest of the trip begins. */
  function Rest(legs: seq<Leg>, idx: nat): (k: nat)
    requires idx < |legs|
    ensures idx < k <= |legs|
  {
    if WalkFollows(legs, idx) then idx + 2 else idx + 1
  }

  function NewLegs(legs: seq<Leg>, idx: nat, walk: int): seq<Leg>
    requires idx < |legs|
  {
    Shifted(legs[..idx], 0, idx, -Earlier(legs, idx, walk)) +
    [ParkedLeg(legs, idx, walk), NewWalk(legs, idx, walk)] + legs[Rest(legs, idx)..]
  }

  function WalkBase(t: Trip): int {
    if t.walkTime.Some? then t.walkTime.value else 0
  }

  function Rewritten(t: Trip, idx: nat, walk: int): Trip
    requires idx < |t.legs|
  {
    var earlier := Earlier(t.legs, idx, walk);
    Trip(NewLegs(t.legs, idx, walk), t.start.Shift(-earlier), t.end,
         if earlier > 0 then Some(t.Base() + earlier) else t.duration,
         Some(WalkBase(t) - OldWalk(t.legs, idx) + walk))
  }

  // ---- what the rewriting keeps ----

  predicate Readable(legs: seq<Leg>) {
    forall k :: 0 <= k < |legs| ==> legs[k].start.At? && legs[k].end.At?
  }

  /** The itinerary still lasts as long as it says, and the parked leg gets no taxi quotes. */
  lemma RewriteKeepsDuration(t: Trip, idx: nat, walk: int)
    requires idx < |t.legs| && SpanIs(t.start, t.end, t.Base())
    ensures var r := Rewritten(t, idx, walk); SpanIs(r.start, r.end, r.Base()) && !r.legs[idx].OnDemand()
  {
    hide OldWalk;
    assert |Shifted(t.legs[..idx], 0, idx, -Earlier(t.legs, idx, walk))| == idx;
  }

  function NewAt(legs: seq<Leg>, idx: nat, walk: int, k: nat): Leg
    requires idx < |legs| && k < idx + 2 + |legs| - Rest(legs, idx)
  {
    if k < idx then legs[k].Shift(-Earlier(legs, idx, walk))
    else if k == idx then ParkedLeg(legs, idx, walk)
    else if k == idx + 1 then NewWalk(legs, idx, walk)
    else legs[k - 2 - idx + Rest(legs, idx)]
  }

  lemma NewLegsAt(legs: seq<Leg>, idx: nat, walk: int, k: nat)
    requires idx < |legs| && k < idx + 2 + |legs| - Rest(legs, idx)
    ensures |NewLegs(legs, idx, walk)| == idx + 2 + |legs| - Rest(legs, idx)
    ensures NewLegs(legs, idx, walk)[k] == NewAt(legs, idx, walk, k)
  {
    hide Earlier, ParkedLeg, NewWalk, WalkFollows;
  }

  /** In a trip that is in order, and whose replaced walk lasts as long as it says, the new legs are in order too. */
  lemma RewriteKeepsOrder(t: Trip, idx: nat, walk: int)
    requires idx < |t.legs| && Ordered(t.legs) && Readable(t.legs) && walk >= 0
    requires WalkFollows(t.legs, idx) ==> SpanIs(t.legs[idx + 1].start, t.legs[idx + 1].end, t.legs[idx + 1].Base())
    ensures Ordered(Rewritten(t, idx, walk).legs)
  {
    hide NewLegs;
    var legs, r := t.legs, NewLegs(t.legs, idx, walk);
    var n := idx + 2 + |legs| - Rest(legs, idx);
    NewLegsAt(legs, idx, walk, idx);
    forall k | 0 <= k < n ensures NotAfter(r[k].start, r[k].end) {
      NewLegsAt(legs, idx, walk, k);
      NewInOrder(legs, idx, walk, k, k);
    }
    forall j, k | 0 <= j < k < n ensures NotAfter(r[j].end, r[k].start) {
      NewLegsAt(legs, idx, walk, j);
      NewLegsAt(legs, idx, walk, k);
      NewInOrder(legs, idx, walk, j, k);
    }
  }

  lemma NewInOrder(legs: seq<Leg>, idx: nat, walk: int, j: nat, k: nat)
    requires idx < |legs| && Ordered(legs) && Readable(legs) && walk >= 0
    requires WalkFollows(legs, idx) ==> SpanIs(legs[idx + 1].start, legs[idx + 1].end, legs[idx + 1].Base())
    requires j <= k < idx + 2 + |legs| - Rest(legs, idx)
    ensures j == k ==> NotAfter(NewAt(legs, idx, walk, k).start, NewAt(legs, idx, walk, k).end)
    ensures j < k ==> NotAfter(NewAt(legs, idx, walk, j).end, NewAt(legs, idx, walk, k).start)
  {
    assert NotAfter(legs[idx].start, legs[idx].end);
    if WalkFollows(legs, idx) {
      assert NotAfter(legs[idx].end, legs[idx + 1].start);
      assert NotAfter(legs[idx + 1].start, legs[idx + 1].end);
    }
    // where the two legs stood before
    var p := if j <= idx then j else if j == idx + 1 then Rest(legs, idx) - 1 else j - 2 - idx + Rest(legs, idx);
    var q := if k <= idx then k else if k == idx + 1 then Rest(legs, idx) - 1 else k - 2 - idx + Rest(legs, idx);
    assert NotAfter(legs[p].start, legs[p].end);
    if p < q {
      assert NotAfter(legs[p].end, legs[q].start);
    }
    if p < idx {
      assert NotAfter(legs[p].end, legs[idx].start);
    }
  }

  /** Transit legs after the car are untouched; one before it is moved exactly when the new walk is longer. */
  lemma RewriteMovesTransit(t: Trip, idx: nat, walk: int, k: nat)
    requires idx < |t.legs| && k < |t.legs| && k != idx && t.legs[k].transit && t.legs[k].start.At?
    ensures k > idx ==> k >= Rest(t.legs, idx) && k - Rest(t.legs, idx) + idx + 2 < |Rewritten(t, idx, walk).legs|
                        && Rewritten(t, idx, walk).legs[k - Rest(t.legs, idx) + idx + 2] == t.legs[k]
    ensures k < idx ==> (Rewritten(t, idx, walk).legs[k] != t.legs[k] <==> walk > OldWalk(t.legs, idx))
  {
    hide NewLegs, ParkedLeg, NewWalk;
    if k > idx {
      NewLegsAt(t.legs, idx, walk, k - Rest(t.legs, idx) + idx + 2);
    } else {
      NewLegsAt(t.legs, idx, walk, k);
    }
  }

  function WalkSum(legs: seq<Leg>, n: nat): int
    requires n <= |legs|
  {
    if n == 0 then 0 else WalkSum(legs, n - 1) + if legs[n - 1].mode.Walk? then legs[n - 1].Base() else 0
  }

  lemma {:induction false} WalkSumShifted(legs: seq<Leg>, idx: nat, walk: int, n: nat)
    requires idx < |legs| && n <= idx
    ensures |NewLegs(legs, idx, walk)| >= n && WalkSum(NewLegs(legs, idx, walk), n) == WalkSum(legs, n)
  {
    hide NewLegs, ParkedLeg, NewWalk, Earlier;
    NewLegsAt(legs, idx, walk, n);
    if n > 0 {
      WalkSumShifted(legs, idx, walk, n - 1);
      NewLegsAt(legs, idx, walk, n - 1);
    }
  }

  lemma {:induction false} WalkSumRest(legs: seq<Leg>, idx: nat, walk: int, n: nat)
    requires idx < |legs| && legs[idx].mode.Car? && Rest(legs, idx) <= n <= |legs|
    requires WalkFollows(legs, idx) || idx + 1 == Rest(legs, idx)
    ensures var m := n - Rest(legs, idx) + idx + 2;
            m <= |NewLegs(legs, idx, walk)| &&
            WalkSum(NewLegs(legs, idx, walk), m) == WalkSum(legs, n) - OldWalk(legs, idx) + walk
    decreases n
  {
    hide NewLegs, Earlier, WalkSum;
    var r := NewLegs(legs, idx, walk);
    var m := n - Rest(legs, idx) + idx + 2;
    NewLegsAt(legs, idx, walk, idx);
    NewLegsAt(legs, idx, walk, idx + 1);
    if n > Rest(legs, idx) {
      WalkSumRest(legs, idx, walk, n - 1);
      NewLegsAt(legs, idx, walk, m - 1);
      WalkSumNext(r, m - 1);
      WalkSumNext(legs, n - 1);
    } else {
      WalkSumShifted(legs, idx, walk, idx);
      WalkSumNext(r, idx);
      WalkSumNext(r, idx + 1);
      WalkSumNext(legs, idx);
      if WalkFollows(legs, idx) { WalkSumNext(legs, idx + 1); }
    }
  }

  lemma WalkSumNext(legs: seq<Leg>, n: nat)
    requires n < |legs|
    ensures WalkSum(legs, n + 1) == WalkSum(legs, n) + if legs[n].mode.Walk? then legs[n].Base() else 0
  {}

  /** The walking time of the itinerary stays the sum of its walking legs. */
  lemma RewriteKeepsWalkTime(t: Trip, idx: nat, walk: int)
    requires idx < |t.legs| && t.legs[idx].mode.Car?
    ensures var r := Rewritten(t, idx, walk);
            WalkBase(r) - WalkSum(r.legs, |r.legs|) == WalkBase(t) - WalkSum(t.legs, |t.legs|)
  {
    hide NewLegs, WalkSum, Earlier, OldWalk;
    WalkSumRest(t.legs, idx, walk, |t.legs|);
    NewLegsAt(t.legs, idx, walk, idx);
  }

  /**
   When the car reaches the old walk's start, the parked leg keeps its length exactly when the new walk is not the
   shorter one: a shorter walk leaves the car leg longer than the duration it states.
   */
  lemma ParkedLegLength(t: Trip, idx: nat, walk: int)
    requires idx < |t.legs| && Readable(t.legs)
    requires WalkFollows(t.legs, idx) ==>
               && SpanIs(t.legs[idx + 1].start, t.legs[idx + 1].end, t.legs[idx + 1].Base())
               && t.legs[idx].end == t.legs[idx + 1].start
    requires SpanIs(t.legs[idx].start, t.legs[idx].end, t.legs[idx].Base())
    ensures var p := Rewritten(t, idx, walk).legs[idx];
            p.Base() == t.legs[idx].Base() && (SpanIs(p.start, p.end, p.Base()) <==> walk >= OldWalk(t.legs, idx))
  {
    hide NewLegs;
    NewLegsAt(t.legs, idx, walk, idx);
  }

  /** A bus, a car and a walk to another bus; the new walk takes five minutes longer, so the first bus leaves early. */
  lemma LongerWalkMovesBus()
    ensures var t := BusCarWalkBus();
            Ordered(t.legs) && Readable(t.legs) && Timed(t.legs) && OldWalk(t.legs, 1) == 600
            && Rewritten(t, 1, 900).legs[0].start == At(-300)
  {
    hide NewLegs, Ordered, Timed, Readable, ParkedLeg, NewWalk;
    InOrder();
    NewLegsAt(BusCarWalkBus().legs, 1, 900, 0);
  }

  /** With a new walk that takes five minutes less the car leg takes fifteen minutes and says ten. */
  lemma ShorterWalkStretchesCar()
    ensures var p := Rewritten(BusCarWalkBus(), 1, 300).legs[1];
            p.start == At(600) && p.end == At(1500) && p.Base() == 600
  {
    hide NewLegs;
    NewLegsAt(BusCarWalkBus().legs, 1, 300, 1);
  }

  function BusCarWalkBus(): Trip {
    Trip([Leg(At(0), At(600), Some(600), Other, true, false, false),
          Leg(At(600), At(1200), Some(600), Car, false, false, false),
          Leg(At(1200), At(1800), Some(600), Walk, false, false, false),
          Leg(At(1800), At(2400), Some(600), Other, true, false, false)],
         At(0), At(2400), Some(2400), Some(600))
  }

  lemma InOrder()
    ensures Ordered(BusCarWalkBus().legs) && Readable(BusCarWalkBus().legs) && Timed(BusCarWalkBus().legs)
  {
    var legs := BusCarWalkBus().legs;
    assert forall k :: 0 <= k < 4 ==>
             legs[k].start == At(600 * k) && legs[k].end == At(600 * (k + 1)) && legs[k].Base() == 600;
  }

  // ---- the plan as it is updated ----

  /** The car leg and the legs before it, once edited. */
  function Edited(legs: seq<Leg>, idx: nat, walk: int): (r: seq<Leg>)
    requires idx < |legs|
    ensures |r| == |legs|
  {
    Shifted(legs, 0, idx, -Earlier(legs, idx, walk))[idx := ParkedLeg(legs, idx, walk)]
  }

  method ParkCar(legs: seq<LegObject>, idx: nat, walk: int)
    requires Distinct(legs) && idx < |legs|
    modifies legs[idx]
    ensures Views(legs) == old(Views(legs))[idx := ParkedLeg(old(Views(legs)), idx, walk)]
  {
    hide Earlier, NewWalk;
    var views := Views(legs);
    var earlier := Earlier(views, idx, walk);
    var car := legs[idx];
    assert car.View() == views[idx];
    car.parkRide, car.end := true, NewWalk(views, idx, walk).start;
    if earlier > 0 {
      car.start := car.start.Shift(-earlier);
    }
    assert car.View() == ParkedLeg(views, idx, walk);
    assert forall i :: 0 <= i < |views| && i != idx ==> legs[i].View() == views[i];
  }

  lemma ShiftedAfterParking(legs: seq<Leg>, idx: nat, walk: int)
    requires idx < |legs|
    ensures var parked := legs[idx := ParkedLeg(legs, idx, walk)];
            var earlier := Earlier(legs, idx, walk);
            (if earlier > 0 then Shifted(parked, 0, idx, -earlier) else parked) == Edited(legs, idx, walk)
  {
    hide ParkedLeg;
  }

  method EditLegs(it: ItineraryObject, idx: nat, walk: int)
    requires Distinct(it.legs) && idx < |it.legs|
    modifies it`start, it`duration, it.legs
    ensures Views(it.legs) == Edited(old(Views(it.legs)), idx, walk)
    ensures it.start == old(it.start).Shift(-old(Earlier(Views(it.legs), idx, walk)))
    ensures it.duration == var earlier := old(Earlier(Views(it.legs), idx, walk));
                           if earlier > 0 then Some(old(it.View()).Base() + earlier) else old(it.duration)
  {
    hide Earlier, ParkedLeg, Edited, Shifted;
    var views := Views(it.legs);
    var earlier := Earlier(views, idx, walk);
    ParkCar(it.legs, idx, walk);
    if earlier > 0 {
      it.ShiftLegs(0, idx, -earlier);
      it.start := it.start.Shift(-earlier);
      it.duration := Some((if it.duration.Some? then it.duration.value else 0) + earlier);
    }
    ShiftedAfterParking(views, idx, walk);
  }

  lemma EditedLegs(legs: seq<Leg>, idx: nat, walk: int)
    requires idx < |legs|
    ensures var edited := Edited(legs, idx, walk);
            edited[..idx + 1] + [NewWalk(legs, idx, walk)] + edited[Rest(legs, idx)..] == NewLegs(legs, idx, walk)
  {
    hide Earlier, ParkedLeg, NewWalk, WalkFollows;
  }

  /** The legs up to the car leg are edited in place; the new list holds the new walk and the old rest. */
  method Rewrite(it: ItineraryObject, idx: nat, walk: int)
    requires Distinct(it.legs) && idx < |it.legs|
    modifies it, it.legs
    ensures it.View() == Rewritten(old(it.View()), idx, walk)
    ensures var was := old(it.legs);
            && |it.legs| > idx + 1 && fresh(it.legs[idx + 1])
            && it.legs == was[..idx + 1] + [it.legs[idx + 1]] + was[old(Rest(Views(it.legs), idx))..]
  {
    hide NewLegs, Edited, Earlier, NewWalk, OldWalk, WalkFollows;
    var legs := it.legs;
    var views := Views(legs);
    var walkLeg := new LegObject(NewWalk(views, idx, walk));
    EditLegs(it, idx, walk);
    var rest := Rest(views, idx);
    it.legs := legs[..idx + 1] + [walkLeg] + legs[rest..];
    it.walkTime := Some((if it.walkTime.Some? then it.walkTime.value else 0) - OldWalk(views, idx) + walk);
    EditedLegs(views, idx, walk);
    ViewsOfParts(legs, walkLeg, idx + 1, rest);
  }

  lemma ViewsOfParts(legs: seq<LegObject>, l: LegObject, a: nat, b: nat)
    requires a <= b <= |legs|
    ensures Views(legs[..a] + [l] + legs[b..]) == Views(legs)[..a] + [l.View()] + Views(legs)[b..]
  {}

  /** Whether the trip becomes a park and ride one. */
  predicate Parks(t: Trip, area: Area) {
    Feeder(t).Some? && area.drivable(t) && ZoneFor(t, area).Some?
  }

  function NewWalkSeconds(t: Trip, area: Area): nat
    requires ZoneFor(t, area).Some?
  {
    WalkSeconds(area.metres(t, ZoneFor(t, area).value))
  }

  function Outcome(t: Trip, area: Area): Trip {
    if Parks(t, area) then Rewritten(t, Feeder(t).value, NewWalkSeconds(t, area)) else t
  }

  /**
   Turns an itinerary that drives to transit into a park and ride one; others, and those that drive too far or to where
   no car may be left, are not kept.
   */
  method AttachParkRide(it: ItineraryObject, area: Area) returns (kept: bool)
    requires Distinct(it.legs)
    modifies it, it.legs
    ensures kept == Parks(old(it.View()), area)
    ensures it.View() == Outcome(old(it.View()), area)
  {
    hide Rewritten, Feeder, Nearest;
    var t := it.View();
    var idx := Feeder(t);
    if idx.None? || !area.drivable(t) {
      return false;
    }
    var zone := FindParking(area.zones(t), area.maxWalk);
    if zone.None? {
      return false;
    }
    Rewrite(it, idx.value, WalkSeconds(area.metres(t, zone.value)));
    return true;
  }

  // ---- both rewritings ----

  /** Where a leg other than the car leg and the replaced walk is found afterwards. */
  function Moved(legs: seq<Leg>, idx: nat, k: nat): nat
    requires idx < |legs| && k < |legs| && (k > idx ==> k >= Rest(legs, idx))
  {
    if k <= idx then k else k - Rest(legs, idx) + idx + 2
  }

  lemma FeedsShifted(a: seq<Leg>, b: seq<Leg>, i: nat, shift: nat)
    requires i < |a| && |b| == |a| + shift && forall j :: i <= j < |a| ==> b[j + shift] == a[j]
    ensures Feeds(a, i) <==> Feeds(b, i + shift)
  {
    if Feeds(a, i) {
      var j :| i + 1 <= j < |a| && a[j].transit;
      assert b[j + shift].transit;
    }
    if Feeds(b, i + shift) {
      var j :| i + shift + 1 <= j < |b| && b[j].transit;
      assert b[(j - shift) + shift] == a[j - shift];
    }
  }

  lemma PullsAfterRewrite(t: Trip, idx: nat, walk: int, factor: Time -> real, i: nat)
    requires Feeder(t) == Some(idx) && i < |t.legs| && i >= Rest(t.legs, idx)
    ensures var u, m := Rewritten(t, idx, walk), Moved(t.legs, idx, i);
            m < |u.legs| && (PullsForward(u, factor, m) <==> PullsForward(t, factor, i))
  {
    hide NewLegs, Delta, ParkedLeg, NewWalk, WalkFollows, Feeder, Feeds;
    var u, shift := Rewritten(t, idx, walk), idx + 2 - Rest(t.legs, idx);
    forall j | i <= j < |t.legs| ensures j + shift < |u.legs| && u.legs[j + shift] == t.legs[j] {
      NewLegsAt(t.legs, idx, walk, j + shift);
    }
    NewLegsAt(t.legs, idx, walk, i + shift);
    assert |u.legs| == |t.legs| + shift;
    FeedsShifted(t.legs, u.legs, i, shift);
  }

  lemma NoPullBefore(t: Trip, idx: nat, walk: int, i: nat)
    requires Feeder(t) == Some(idx) && i < idx + 2
    ensures i < |Rewritten(t, idx, walk).legs| && !Rewritten(t, idx, walk).legs[i].OnDemand()
    ensures i < idx ==> !t.legs[i].OnDemand()
  {
    hide NewLegs, Earlier, WalkFollows;
    NewLegsAt(t.legs, idx, walk, i);
  }

  /** After parking, a leg pulls others forward exactly when one of the plan that is still there does. */
  lemma PullsExactly(t: Trip, idx: nat, walk: int, factor: Time -> real, k: nat)
    requires Feeder(t) == Some(idx) && k < |t.legs| && k != idx && t.legs[k].transit
    ensures var u := Rewritten(t, idx, walk);
            && (k > idx ==> k >= Rest(t.legs, idx))
            && ((exists i :: Moved(t.legs, idx, k) < i < |u.legs| && PullsForward(u, factor, i)) <==>
                exists i :: k < i < |t.legs| && i != idx && PullsForward(t, factor, i))
  {
    hide PullsForward, NewLegs, Feeder, Delta;
    var u, shift := Rewritten(t, idx, walk), idx + 2 - Rest(t.legs, idx);
    NewLegsAt(t.legs, idx, walk, idx);
    if i :| Moved(t.legs, idx, k) < i < |u.legs| && PullsForward(u, factor, i) {
      if i < idx + 2 {
        NoPullBefore(t, idx, walk, i);
        PullsOnDemand(u, factor, i);
      } else {
        PullsAfterRewrite(t, idx, walk, factor, i - shift);
      }
      assert PullsForward(t, factor, i - shift);
    }
    if i :| k < i < |t.legs| && i != idx && PullsForward(t, factor, i) {
      PullsOnDemand(t, factor, i);
      if i < idx { NoPullBefore(t, idx, walk, i); }
      PullsAfterRewrite(t, idx, walk, factor, i);
      assert PullsForward(u, factor, i + shift);
    }
  }

  lemma PullsOnDemand(t: Trip, factor: Time -> real, i: nat)
    requires i < |t.legs| && PullsForward(t, factor, i)
    ensures t.legs[i].OnDemand()
  {}

  /** Park and ride first and then the traffic factor: both keep the itinerary as long as it says and in order. */
  lemma ParkThenStretch(t: Trip, area: Area, factor: Time -> real)
    requires Parks(t, area)
    requires Ordered(t.legs) && Readable(t.legs) && SpanIs(t.start, t.end, t.Base())
    requires var i := Feeder(t).value;
             WalkFollows(t.legs, i) ==> SpanIs(t.legs[i + 1].start, t.legs[i + 1].end, t.legs[i + 1].Base())
    ensures var r := StretchAll(Outcome(t, area), factor, |Outcome(t, area).legs|);
            Ordered(r.legs) && SpanIs(r.start, r.end, r.Base())
  {
    hide Ordered, SpanIs, Rewritten, StretchAll, Feeder, Nearest;
    RewriteKeepsDuration(t, Feeder(t).value, NewWalkSeconds(t, area));
    RewriteKeepsOrder(t, Feeder(t).value, NewWalkSeconds(t, area));
    StretchAllKeepsTimeline(Outcome(t, area), factor, |Outcome(t, area).legs|);
  }

  /**
   A transit leg stays put under both exactly when neither moves it: it is not before a car leg whose new walk is
   longer, nor before another car leg that is lengthened and feeds transit.
   */
  lemma ParkThenStretchMoves(t: Trip, area: Area, factor: Time -> real, k: nat)
    requires Parks(t, area) && k < |t.legs| && t.legs[k].transit && t.legs[k].start.At?
    ensures var idx, u := Feeder(t).value, Outcome(t, area);
            var r := StretchAll(u, factor, |u.legs|);
            && k != idx && (k > idx ==> k >= Rest(t.legs, idx)) && Moved(t.legs, idx, k) < |r.legs|
            && (r.legs[Moved(t.legs, idx, k)] != t.legs[k] <==>
                || (k < idx && NewWalkSeconds(t, area) > OldWalk(t.legs, idx))
                || exists i :: k < i < |t.legs| && i != idx && PullsForward(t, factor, i))
  {
    hide StretchAll, Feeder, Nearest, NewLegs, PullsForward, WalkSeconds, OldWalk;
    var idx, u, walk := Feeder(t).value, Outcome(t, area), NewWalkSeconds(t, area);
    RewriteMovesTransit(t, idx, walk, k);
    PullsExactly(t, idx, walk, factor, k);
    var m := Moved(t.legs, idx, k);
    NewLegsAt(t.legs, idx, walk, m);
    TransitMoves(u, factor, |u.legs|, m);
  }
}
