module TripTimes {
  /**
   What stretching and parking do to each leg of a trip, said in instants and durations; and which trips become park
   and ride ones, around which zone.
   */
  import opened Util
  import opened Itinerary
  import opened ParkRide

  predicate TimeMoved(a: Time, b: Time, seconds: int) {
    if a.At? then b == At(a.t + seconds) else b == a
  }

  /** `b` is `a` that many seconds later, and otherwise the same. */
  predicate LegMoved(a: Leg, b: Leg, seconds: int) {
    b == a.(start := b.start, end := b.end) && TimeMoved(a.start, b.start, seconds) && TimeMoved(a.end, b.end, seconds)
  }

  // ---- one car leg ----

  function Planned(l: Leg): int {
    if l.duration.Some? then l.duration.value else 0
  }

  /** A ride by car that is neither transit nor rented nor your own. */
  predicate HailedRide(l: Leg) {
    l.mode == Car && !l.transit && !l.rental && !l.parkRide
  }

  function Lasts(t: Trip): int {
    if t.duration.Some? then t.duration.value else 0
  }

  /** What the leg takes in traffic, in whole seconds. */
  function InTraffic(l: Leg, factor: real): int {
    Scaled(Planned(l), factor)
  }

  /** That is the whole second nearest to the planned time as often as the factor says. */
  lemma ScaledIs(seconds: int, factor: real)
    ensures -0.5 <= Scaled(seconds, factor) as real - seconds as real * factor <= 0.5
    ensures Scaled(seconds, 1.0) == seconds
  {}

  /** Transit is still to come after the leg. */
  ghost predicate TransitToCome(legs: seq<Leg>, idx: nat) {
    exists j :: idx < j < |legs| && legs[j].transit
  }

  /** Legs, times and duration of a trip whose leg `idx` has to start `d` seconds earlier. */
  ghost predicate StartsEarlier(t: Trip, r: Trip, idx: nat, d: int)
    requires idx < |t.legs| == |r.legs|
  {
    && (forall k :: 0 <= k < idx ==> LegMoved(t.legs[k], r.legs[k], -d))
    && TimeMoved(t.legs[idx].start, r.legs[idx].start, -d) && r.legs[idx].end == t.legs[idx].end
    && (forall k :: idx < k < |t.legs| ==> r.legs[k] == t.legs[k])
    && TimeMoved(t.start, r.start, -d) && r.end == t.end
  }

  /** The same where leg `idx` ends `d` seconds later. */
  ghost predicate EndsLater(t: Trip, r: Trip, idx: nat, d: int)
    requires idx < |t.legs| == |r.legs|
  {
    && (forall k :: 0 <= k < idx ==> r.legs[k] == t.legs[k])
    && r.legs[idx].start == t.legs[idx].start && TimeMoved(t.legs[idx].end, r.legs[idx].end, d)
    && (forall k :: idx < k < |t.legs| ==> LegMoved(t.legs[k], r.legs[k], d))
    && r.start == t.start && TimeMoved(t.end, r.end, d)
  }

  /**
   A car leg that takes longer in traffic takes that long afterwards: with transit to come it and everything before it
   start earlier by the difference, and otherwise it and everything after it end later. One that does not take longer
   changes nothing.
   */
  lemma StretchExactly(t: Trip, idx: nat, factor: real)
    requires idx < |t.legs|
    ensures var (r, l, d) := (Stretched(t, idx, factor), t.legs[idx],
                              InTraffic(t.legs[idx], factor) - Planned(t.legs[idx]));
            if d <= 0 then r == t
            else
              && (if TransitToCome(t.legs, idx) then StartsEarlier(t, r, idx, d) else EndsLater(t, r, idx, d))
              && r.legs[idx] == l.(start := r.legs[idx].start, end := r.legs[idx].end,
                                   duration := Some(InTraffic(l, factor)))
              && r.duration == Some(Lasts(t) + d) && r.walkTime == t.walkTime
  {
    hide LegMoved, TimeMoved, Scaled;
    var r, d := Stretched(t, idx, factor), Delta(t.legs[idx], factor);
    DeltaIs(t.legs[idx], factor);
    if d > 0 {
      forall k | 0 <= k < |t.legs| && k != idx
        ensures TransitToCome(t.legs, idx) && k < idx ==> LegMoved(t.legs[k], r.legs[k], -d)
        ensures TransitToCome(t.legs, idx) && k > idx ==> r.legs[k] == t.legs[k]
        ensures !TransitToCome(t.legs, idx) && k < idx ==> r.legs[k] == t.legs[k]
        ensures !TransitToCome(t.legs, idx) && k > idx ==> LegMoved(t.legs[k], r.legs[k], d)
      {
        ShiftMoves(t.legs[k], d);
      }
      ShiftMoves(t.legs[idx], d);
      TimesMove(t.start, d);
      TimesMove(t.end, d);
    }
  }

  lemma DeltaIs(l: Leg, factor: real)
    ensures Delta(l, factor) == InTraffic(l, factor) - Planned(l)
  {
    hide Scaled;
    assert l.Base() == Planned(l);
  }

  lemma TimesMove(a: Time, d: int)
    ensures TimeMoved(a, a.Shift(d), d) && TimeMoved(a, a.Shift(-d), -d)
  {}

  lemma ShiftMoves(l: Leg, d: int)
    ensures LegMoved(l, l.Shift(d), d) && LegMoved(l, l.Shift(-d), -d)
    ensures TimeMoved(l.start, l.start.Shift(-d), -d) && TimeMoved(l.end, l.end.Shift(d), d)
  {}

  lemma OthersTakeTheSame(t: Trip, idx: nat, factor: real, k: nat)
    requires idx < |t.legs| && k < |t.legs| && k != idx
    ensures Planned(Stretched(t, idx, factor).legs[k]) == Planned(t.legs[k])
  {
    hide Delta;
  }

  /**
   In the end every on-demand leg takes what it takes in traffic at the start it has by its turn, if that is longer
   than planned, and every other leg what was planned; a leg with transit to come still has its planned start then.
   */
  lemma {:induction false} EachLegTakes(t: Trip, factor: Time -> real, n: nat, i: nat)
    requires n <= |t.legs| && i < |t.legs|
    ensures var (was, at) := (t.legs[i], StretchAll(t, factor, i).legs[i].start);
            Planned(StretchAll(t, factor, n).legs[i]) ==
            if i < n && HailedRide(was) then Max(Planned(was), InTraffic(was, factor(at))) else Planned(was)
    ensures TransitToCome(t.legs, i) ==> StretchAll(t, factor, i).legs[i].start == t.legs[i].start
    decreases n
  {
    hide Stretched, StretchAll, InTraffic;
    if TransitToCome(t.legs, i) { FeederUntouched(t, factor, i, i); }
    StretchAllNext(t, factor, n);
    if n > 0 {
      EachLegTakes(t, factor, n - 1, i);
      var s := StretchAll(t, factor, n - 1);
      StretchAllKeepsTimeline(t, factor, n - 1);
      var f := factor(s.legs[n - 1].start);
      if i != n - 1 {
        OthersTakeTheSame(s, n - 1, f, i);
      } else {
        SameTraffic(s.legs[i], t.legs[i], f);
        StretchExactly(s, i, f);
      }
    }
  }

  lemma SameTraffic(a: Leg, b: Leg, factor: real)
    requires Planned(a) == Planned(b)
    ensures InTraffic(a, factor) == InTraffic(b, factor)
  {
    hide Scaled;
  }

  // ---- park and ride ----

  /** The planner's own walk stands right after leg `idx`. */
  predicate WalksOn(legs: seq<Leg>, idx: nat) {
    idx + 1 < |legs| && legs[idx + 1].mode == Walk && !legs[idx + 1].transit
  }

  function WalkOf(t: Trip): int {
    if t.walkTime.Some? then t.walkTime.value else 0
  }

  /**
   The car is parked and a walk of `walk` seconds takes the place of the planner's, ending when that did. If it takes
   longer, the car and everything before it start earlier by the difference; everything after it stays as it is.
   */
  lemma ParkExactly(t: Trip, idx: nat, walk: int)
    requires idx < |t.legs|
    ensures var (legs, r) := (t.legs, Rewritten(t, idx, walk));
            var replaced := WalksOn(legs, idx);
            var before := if replaced then legs[idx + 1].Base() else 0;
            var earlier := if walk > before then walk - before else 0;
            var arrival := if replaced then legs[idx + 1].end else legs[idx].end;
            && |r.legs| == |legs| + (if replaced then 0 else 1) && |r.legs| > idx + 1
            && (forall k :: 0 <= k < idx ==> LegMoved(legs[k], r.legs[k], -earlier))
            && r.legs[idx] == legs[idx].(parkRide := true, start := r.legs[idx].start, end := r.legs[idx].end)
            && TimeMoved(legs[idx].start, r.legs[idx].start, -earlier) && TimeMoved(arrival, r.legs[idx].end, -walk)
            && r.legs[idx + 1] == Leg(r.legs[idx].end, arrival, Some(walk), Walk, false, false, false)
            && r.legs[idx + 2..] == legs[if replaced then idx + 2 else idx + 1..]
            && TimeMoved(t.start, r.start, -earlier) && r.end == t.end
            && r.duration == (if earlier > 0 then Some(Lasts(t) + earlier) else t.duration)
            && r.walkTime == Some(WalkOf(t) - before + walk)
  {}

  /** The zone is the first of the nearest in which a car may be left now: in reach, not full, and allowed. */
  predicate IsBestZone(zones: seq<Zone>, maxWalk: real, z: int) {
    && 0 <= z < |zones| && MayPark(zones[z], maxWalk)
    && (forall k :: 0 <= k < |zones| && MayPark(zones[k], maxWalk) ==>
          zones[z].distance.value <= zones[k].distance.value)
    && (forall k :: 0 <= k < z && MayPark(zones[k], maxWalk) ==>
          zones[z].distance.value < zones[k].distance.value)
  }

  predicate MayPark(z: Zone, maxWalk: real) {
    && z.distance.Some? && z.distance.value <= maxWalk && z.allowed == Some(true)
    && (z.spaces.None? || z.spaces.value > 0)
  }

  /** Leg `idx` is the first car leg that is not transit, and transit comes after it. */
  ghost predicate DrivesToTransit(legs: seq<Leg>, idx: nat) {
    && idx < |legs| && legs[idx].mode == Car && !legs[idx].transit && TransitToCome(legs, idx)
    && forall k :: 0 <= k < idx ==> legs[k].mode != Car || legs[k].transit
  }

  /**
   A trip becomes a park and ride one exactly when its first drive leads to transit, is short enough and ends near a
   zone; then around that drive and the best zone, with the time the walk takes at 1.2 metres a second, to the second.
   */
  lemma ParksExactly(t: Trip, area: Area)
    ensures Parks(t, area) <==>
            && (exists idx: nat :: DrivesToTransit(t.legs, idx)) && area.drivable(t)
            && exists z :: 0 <= z < |area.zones(t)| && MayPark(area.zones(t)[z], area.maxWalk)
    ensures Parks(t, area) ==>
              exists idx: nat, z, walk ::
                && DrivesToTransit(t.legs, idx) && IsBestZone(area.zones(t), area.maxWalk, z)
                && IsWalk(area.metres(t, z), walk) && Outcome(t, area) == Rewritten(t, idx, walk)
    ensures !Parks(t, area) ==> Outcome(t, area) == t
  {
    hide Rewritten, CarLeg, WalkSeconds;
    forall idx: nat ensures DrivesToTransit(t.legs, idx) <==> Feeder(t) == Some(idx) {
      FirstDrive(t, idx);
    }
    forall z: Zone ensures MayPark(z, area.maxWalk) <==> Admissible(z, area.maxWalk) {}
    if Parks(t, area) {
      var idx, z := Feeder(t).value, ZoneFor(t, area).value;
      var walk := NewWalkSeconds(t, area);
      WalkTakes(area.metres(t, z));
      assert IsBestZone(area.zones(t), area.maxWalk, z);
      assert DrivesToTransit(t.legs, idx) && IsWalk(area.metres(t, z), walk);
    }
  }

  predicate IsWalk(metres: nat, walk: int) {
    walk >= 0 && -0.6 <= 1.2 * walk as real - metres as real <= 0.6
  }

  lemma WalkTakes(metres: nat)
    ensures IsWalk(metres, WalkSeconds(metres))
  {}

  lemma FirstDrive(t: Trip, idx: nat)
    ensures DrivesToTransit(t.legs, idx) <==> Feeder(t) == Some(idx)
  {
    hide CarLeg;
    var first := CarLeg(t.legs, |t.legs|);
    if DrivesToTransit(t.legs, idx) {
      assert first == Some(idx);
    }
  }
}
