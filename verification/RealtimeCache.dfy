/**
 The realtime cache as it is kept: vehicle records shared by the frame, the index and the delta, edited in place.
 Bearings are written into the very records the published delta holds, which is what makes the delta right; every
 method is proved to do to the contents what the specification says.
 */
module RealtimeCache {
  import opened Util
  import opened Realtime

  class Vehicle {
    const id: Id
    const routeId: Option<Id>
    const tripId: Option<Id>
    const lat: real
    const lon: real
    const ts: int
    var bearing: Option<real>
    var source: Source

    constructor (e: Entity)
      ensures Now() == e
    {
      id, routeId, tripId, lat, lon, ts := e.id, e.routeId, e.tripId, e.lat, e.lon, e.ts;
      bearing, source := e.bearing, e.source;
    }

    function Now(): Entity
      reads this
    {
      Entity(id, routeId, tripId, lat, lon, ts, bearing, source)
    }
  }

  ghost function Contents(vs: seq<Vehicle>): (r: seq<Entity>)
    reads vs
    ensures |r| == |vs|
  {
    seq(|vs|, i requires 0 <= i < |vs| reads vs => vs[i].Now())
  }

  predicate Separate(vs: seq<Vehicle>) {
    forall i, j :: 0 <= i < j < |vs| ==> vs[i] != vs[j]
  }

  /** The records by id; where an id repeats, the last record wins. */
  function Index(vs: seq<Vehicle>, n: nat): map<Id, Vehicle>
    requires n <= |vs|
  {
    if n == 0 then map[] else Index(vs, n - 1)[vs[n - 1].id := vs[n - 1]]
  }

  ghost function IndexContents(m: map<Id, Vehicle>): map<Id, Entity>
    reads m.Values
  {
    map id | id in m :: m[id].Now()
  }

  /** Whatever is later written into the records, the index describes the frame's own contents. */
  lemma {:induction false} IndexMatches(vs: seq<Vehicle>, n: nat)
    requires n <= |vs|
    ensures IndexContents(Index(vs, n)) == ByIdOf(Contents(vs), n)
  {
    if n > 0 {
      IndexMatches(vs, n - 1);
    }
  }

  lemma PickContents(vs: seq<Vehicle>, idx: seq<nat>)
    requires forall j :: 0 <= j < |idx| ==> idx[j] < |vs|
    ensures Contents(Pick(vs, idx)) == Pick(Contents(vs), idx)
    ensures forall j :: 0 <= j < |idx| ==> Pick(vs, idx)[j] in vs
  {}

  /** The delta as the cache holds it: references to records of the new frame. */
  datatype LiveDelta = LiveDelta(upd: seq<Vehicle>, del: set<Id>)

  ghost function DeltaContents(d: Option<LiveDelta>): Option<Delta>
    reads if d.Some? then d.value.upd else []
  {
    if d.None? then None else Some(Delta(Contents(d.value.upd), d.value.del))
  }

  class RTCache {
    const g: Sphere
    const cap: nat
    var vehicles: seq<Vehicle>
    var byId: map<Id, Vehicle>
    var delta: Option<LiveDelta>
    var version: nat
    var history: Trails
    var lastDerived: map<Id, real>

    constructor (g: Sphere, cap: nat)
      ensures Valid() && State() == EMPTY && this.g == g && this.cap == cap
    {
      this.g, this.cap := g, cap;
      vehicles, byId, delta, version, history, lastDerived := [], map[], None, 0, map[], map[];
    }

    ghost predicate Valid()
      reads this
    {
      && (delta.Some? ==> forall i :: 0 <= i < |delta.value.upd| ==> delta.value.upd[i] in vehicles)
      && byId == Index(vehicles, |vehicles|)
    }

    ghost function State(): Cache
      requires Valid()
      reads this, vehicles
    {
      Cache(Contents(vehicles), DeltaContents(delta), version, history, lastDerived)
    }

    /** Decides on the raw entities which records the delta refers to. */
    method ComputeDelta(prev: map<Id, Vehicle>, ents: seq<Vehicle>) returns (d: LiveDelta)
      ensures d.upd == Pick(ents, ChangedAt(IndexContents(prev), Contents(ents), |ents|))
      ensures d.del == prev.Keys - Ids(Contents(ents))
    {
      var upd, live := [], {};
      ghost var was, raw := IndexContents(prev), Contents(ents);
      for i := 0 to |ents|
        invariant upd == Pick(ents, ChangedAt(was, raw, i))
        invariant live == IdsOf(raw, i)
      {
        PickSnoc(ents, ChangedAt(was, raw, i), i);
        var e := ents[i];
        assert raw[i] == e.Now();
        if e.id !in prev || prev[e.id].lat != e.lat || prev[e.id].lon != e.lon
           || prev[e.id].tripId != e.tripId || prev[e.id].bearing != e.bearing
        {
          upd := upd + [e];
        }
        live := live + {e.id};
      }
      d := LiveDelta(upd, set id | id in prev && id !in live);
    }

    method Observe(e: Vehicle, now: int)
      modifies this`history
      ensures history == old(history)[e.id := Extend(TrailOf(old(history), e.id), e.Now(), now, cap)]
    {
      var h := TrailOf(history, e.id);
      if h == [] || h[|h| - 1].lon != e.lon || h[|h| - 1].lat != e.lat {
        h := Append(h, Fix(e.lon, e.lat, if e.ts != 0 then e.ts else now), cap);
      }
      history := history[e.id := h];
    }

    method RecordHistory(ents: seq<Vehicle>, now: int)
      modifies this`history, this`lastDerived
      ensures var raw := old(Contents(ents));
              var recorded := Record(old(history), raw, |raw|, now, cap);
              && history == Prune(recorded, recorded, raw)
              && lastDerived == Prune(old(lastDerived), recorded, raw)
    {
      hide Extend, Append;
      ghost var raw := Contents(ents);
      var live := {};
      for i := 0 to |ents|
        invariant history == Record(old(history), raw, i, now, cap)
        invariant live == IdsOf(raw, i)
        invariant lastDerived == old(lastDerived)
      {
        assert raw[i] == ents[i].Now();
        Observe(ents[i], now);
        live := live + {ents[i].id};
      }
      if |history| > 3 * Max(|ents|, 1000) {
        var gone := history.Keys - live;
        history, lastDerived := history - gone, lastDerived - gone;
      }
    }

    method ApplyBearings(ents: seq<Vehicle>)
      requires Separate(ents)
      modifies this`lastDerived, ents
      ensures (Contents(ents), lastDerived) == FillAll(g, history, old(lastDerived), old(Contents(ents)), |ents|)
    {
      hide Fill;
      ghost var raw := Contents(ents);
      ghost var done: seq<Entity> := [];
      for i := 0 to |ents|
        invariant FillAll(g, history, old(lastDerived), raw, i) == (done, lastDerived)
        invariant forall j :: 0 <= j < i ==> ents[j].Now() == done[j]
        invariant forall j :: i <= j < |ents| ==> ents[j].Now() == raw[j]
      {
        ApplyBearing(ents[i]);
        done := done + [ents[i].Now()];
      }
      assert Contents(ents) == done;
    }

    /** The published bearing is the mean of the last two derived ones; a bearing of the feed is kept. */
    method ApplyBearing(e: Vehicle)
      modifies this`lastDerived, e
      ensures (e.Now(), lastDerived) == Fill(g, history, old(lastDerived), old(e.Now()))
    {
      if e.bearing.Some? {
        e.source := Feed;
      } else {
        var derived := DeriveBearing(g, TrailOf(history, e.id));
        match derived {
          case None =>
            e.bearing, e.source := None, Unset;
          case Some(raw) =>
            e.bearing := Some(g.round(if e.id in lastDerived then g.mean(lastDerived[e.id], raw) else raw));
            e.source := Derived;
            lastDerived := lastDerived[e.id := raw];
        }
      }
    }

    /** The parsed feed as fresh records, so the previous frame is not disturbed. */
    static method Parse(ents: seq<Entity>) returns (vs: seq<Vehicle>)
      ensures fresh(vs) && Separate(vs) && Contents(vs) == ents
    {
      vs := [];
      for i := 0 to |ents|
        invariant |vs| == i && fresh(vs) && Separate(vs)
        invariant forall j :: 0 <= j < i ==> vs[j].Now() == ents[j]
      {
        var v := new Vehicle(ents[i]);
        vs := vs + [v];
      }
    }

    static method IndexById(vs: seq<Vehicle>) returns (m: map<Id, Vehicle>)
      ensures m == Index(vs, |vs|)
    {
      m := map[];
      for i := 0 to |vs|
        invariant m == Index(vs, i)
      {
        m := m[vs[i].id := vs[i]];
      }
    }

    /** Decides the delta on the raw records, then makes them the current frame. */
    method Replace(vs: seq<Vehicle>)
      requires Valid()
      modifies this`vehicles, this`byId, this`delta, this`version
      ensures vehicles == vs && byId == Index(vs, |vs|) && version == old(version) + 1
      ensures var prev, raw := ById(old(Contents(vehicles))), old(Contents(vs));
              delta == if prev == map[] then None
                       else Some(LiveDelta(Pick(vs, ChangedAt(prev, raw, |raw|)), prev.Keys - Ids(raw)))
    {
      IndexMatches(vehicles, |vehicles|);
      assert IndexContents(byId).Keys == byId.Keys;
      var d := ComputeDelta(byId, vs);
      delta := if byId.Keys == {} then None else Some(d);
      vehicles := vs;
      byId := IndexById(vs);
      version := version + 1;
    }

    /** Trails first, so that each newest position is already there when its bearing is derived. */
    method Enrich(vs: seq<Vehicle>, now: int)
      requires Separate(vs)
      modifies this`history, this`lastDerived, vs
      ensures var raw := old(Contents(vs));
              var recorded := Record(old(history), raw, |raw|, now, cap);
              && history == Prune(recorded, recorded, raw)
              && (Contents(vs), lastDerived) == FillAll(g, history, Prune(old(lastDerived), recorded, raw), raw, |raw|)
    {
      RecordHistory(vs, now);
      ApplyBearings(vs);
    }

    method Apply(ents: seq<Entity>, now: int)
      requires Valid()
      modifies this
      ensures Valid() && fresh(vehicles) && State() == Poll(g, cap, old(State()), ents, now)
    {
      hide Record, FillAll, ChangedAt, Prune, Index, ByIdOf, IdsOf;
      ghost var before := State();
      var vs := Parse(ents);
      Replace(vs);
      Enrich(vs, now);
      PickContents(vs, ChangedAt(ById(before.frame), ents, |ents|));
      assert DeltaContents(delta) == DeltaOf(ById(before.frame), ents, Contents(vs));
      assert State().frame == Contents(vs) && State().delta == DeltaContents(delta);
    }

    method PurgeTrails()
      requires Valid()
      modifies this`history
      ensures Valid() && State() == Purge(old(State()))
    {
      history := map[];
    }
  }
}
