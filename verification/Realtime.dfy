module Realtime {
  /**
   The realtime cache of one city: every poll replaces the frame, publishes a delta against the
   old one, extends the bounded position trails and fills in the bearings the feed left out.

   `Poll` and `Purge` say what a step does to the abstract state `Cache`; class `RTCache` in
   RealtimeCache.dfy does it in place, on shared vehicle records, and computes exactly that.
   Functions that walk a frame take the number `n` of entities walked so far.
   */
  import opened Util

  const MIN_MOVE_M := 10.0
  const MAX_PAIR_GAP_S := 180

  datatype Fix = Fix(lon: real, lat: real, ts: int)

  /** The trigonometry, as deterministic functions about which nothing else is known. */
  datatype Sphere = Sphere(distance: (Fix, Fix) -> real, course: (Fix, Fix) -> real,
                           mean: (real, real) -> real, round: real -> real)

  datatype Source = Unset | Feed | Derived

  datatype Entity = Entity(id: Id, routeId: Option<Id>, tripId: Option<Id>,
                           lat: real, lon: real, ts: int, bearing: Option<real>, source: Source)

  /** What a subscriber keeps per vehicle and the delta compares. */
  datatype View = View(lat: real, lon: real, tripId: Option<Id>, bearing: Option<real>)

  function ViewOf(e: Entity): View {
    View(e.lat, e.lon, e.tripId, e.bearing)
  }

  datatype Delta = Delta(upd: seq<Entity>, del: set<Id>)

  type Trails = map<Id, seq<Fix>>

  datatype Cache = Cache(frame: seq<Entity>, delta: Option<Delta>, version: nat,
                         history: Trails, derived: map<Id, real>)

  const EMPTY := Cache([], None, 0, map[], map[])

  // ---- trails and bearings ----

  function Look(g: Sphere, trail: seq<Fix>, n: nat, last: Fix): Option<real>
    requires n <= |trail|
  {
    if n == 0 then None
    else if g.distance(trail[n - 1], last) < MIN_MOVE_M then Look(g, trail, n - 1, last)
    else if last.ts - trail[n - 1].ts > MAX_PAIR_GAP_S then None
    else Some(g.course(trail[n - 1], last))
  }

  function DeriveBearing(g: Sphere, trail: seq<Fix>): Option<real> {
    if |trail| < 2 then None else Look(g, trail, |trail| - 1, trail[|trail| - 1])
  }

  /** Point `i` is the most recent of the first `n` that is not within the noise radius of the last position. */
  predicate IsDeparture(g: Sphere, trail: seq<Fix>, n: nat, last: Fix, i: int)
    requires n <= |trail|
  {
    0 <= i < n && g.distance(trail[i], last) >= MIN_MOVE_M && forall j :: i < j < n ==>
      g.distance(trail[j], last) < MIN_MOVE_M
  }

  lemma {:induction false} LookFrom(g: Sphere, trail: seq<Fix>, n: nat, last: Fix)
    requires n <= |trail|
    ensures Look(g, trail, n, last).Some? ==> exists i ::
              && 0 <= i < n && IsDeparture(g, trail, n, last, i) && last.ts - trail[i].ts <= MAX_PAIR_GAP_S
              && Look(g, trail, n, last) == Some(g.course(trail[i], last))
    ensures Look(g, trail, n, last).None? ==> forall i :: 0 <= i < n ==>
              IsDeparture(g, trail, n, last, i) ==> last.ts - trail[i].ts > MAX_PAIR_GAP_S
  {
    if n > 0 {
      LookFrom(g, trail, n - 1, last);
      if g.distance(trail[n - 1], last) < MIN_MOVE_M {
        forall i ensures IsDeparture(g, trail, n, last, i) <==> IsDeparture(g, trail, n - 1, last, i) {}
      } else {
        assert IsDeparture(g, trail, n, last, n - 1);
      }
    }
  }

  /**
   A bearing is the course from the most recent position outside the noise radius, if that is recent enough; a
   trail without such a position, or with one too old, yields none.
   */
  lemma BearingIsCourse(g: Sphere, trail: seq<Fix>)
    requires |trail| >= 2
    ensures var n, last := |trail| - 1, trail[|trail| - 1];
            if exists i :: && 0 <= i < n && IsDeparture(g, trail, n, last, i)
                           && last.ts - trail[i].ts <= MAX_PAIR_GAP_S
            then
              exists i :: && 0 <= i < n && IsDeparture(g, trail, n, last, i)
                          && DeriveBearing(g, trail) == Some(g.course(trail[i], last))
            else DeriveBearing(g, trail) == None
  {
    hide Look, IsDeparture;
    LookFrom(g, trail, |trail| - 1, trail[|trail| - 1]);
  }

  function Append(trail: seq<Fix>, p: Fix, cap: nat): (t: seq<Fix>)
    ensures |t| <= cap || |t| <= |trail|
    ensures t != [] ==> t[|t| - 1] == p
  {
    if |trail| < cap then trail + [p] else (trail + [p])[|trail| + 1 - cap..]
  }

  function Extend(trail: seq<Fix>, e: Entity, now: int, cap: nat): seq<Fix> {
    if trail == [] || trail[|trail| - 1].lon != e.lon || trail[|trail| - 1].lat != e.lat
    then Append(trail, Fix(e.lon, e.lat, if e.ts != 0 then e.ts else now), cap)
    else trail
  }

  function TrailOf(history: Trails, id: Id): seq<Fix> {
    if id in history then history[id] else []
  }

  function IdsOf(ents: seq<Entity>, n: nat): set<Id>
    requires n <= |ents|
  {
    set i | 0 <= i < n :: ents[i].id
  }

  function Ids(ents: seq<Entity>): set<Id> {
    IdsOf(ents, |ents|)
  }

  function Record(history: Trails, ents: seq<Entity>, n: nat, now: int, cap: nat): Trails
    requires n <= |ents|
  {
    if n == 0 then history
    else
      var h, e := Record(history, ents, n - 1, now, cap), ents[n - 1];
      h[e.id := Extend(TrailOf(h, e.id), e, now, cap)]
  }

  function Prune<V>(m: map<Id, V>, recorded: Trails, ents: seq<Entity>): map<Id, V> {
    if |recorded| > 3 * Max(|ents|, 1000) then m - (recorded.Keys - Ids(ents)) else m
  }

  function Fill(g: Sphere, history: Trails, derived: map<Id, real>, e: Entity): (Entity, map<Id, real>) {
    if e.bearing.Some? then (e.(source := Feed), derived)
    else
      match DeriveBearing(g, TrailOf(history, e.id))
      case None => (e.(bearing := None, source := Unset), derived)
      case Some(raw) =>
        var b := g.round(if e.id in derived then g.mean(derived[e.id], raw) else raw);
        (e.(bearing := Some(b), source := Derived), derived[e.id := raw])
  }

  function FillAll(g: Sphere, history: Trails, derived: map<Id, real>, ents: seq<Entity>, n: nat)
    : (r: (seq<Entity>, map<Id, real>))
    requires n <= |ents|
    ensures |r.0| == n
  {
    if n == 0 then ([], derived)
    else
      var (done, d) := FillAll(g, history, derived, ents, n - 1);
      var (e, d') := Fill(g, history, d, ents[n - 1]);
      (done + [e], d')
  }

  // ---- frames and deltas ----

  predicate Unique(ents: seq<Entity>) {
    forall i, j :: 0 <= i < j < |ents| ==> ents[i].id != ents[j].id
  }

  /** Where an id repeats, the last entity wins. */
  function ByIdOf(ents: seq<Entity>, n: nat): map<Id, Entity>
    requires n <= |ents|
  {
    if n == 0 then map[] else ByIdOf(ents, n - 1)[ents[n - 1].id := ents[n - 1]]
  }

  function ById(ents: seq<Entity>): map<Id, Entity> {
    ByIdOf(ents, |ents|)
  }

  function ViewMap(m: map<Id, Entity>): map<Id, View> {
    map id | id in m :: ViewOf(m[id])
  }

  function Views(ents: seq<Entity>): map<Id, View> {
    ViewMap(ById(ents))
  }

  predicate Changed(prev: map<Id, Entity>, e: Entity) {
    e.id !in prev || ViewOf(prev[e.id]) != ViewOf(e)
  }

  /** Where in the frame a vehicle comes last, and where it comes last among those that changed. */
  function LastAt(ents: seq<Entity>, n: nat, id: Id): (k: Option<nat>)
    requires n <= |ents|
    ensures k.Some? ==> k.value < n && ents[k.value].id == id
  {
    if n == 0 then None else if ents[n - 1].id == id then Some(n - 1) else LastAt(ents, n - 1, id)
  }

  function LastChanged(prev: map<Id, Entity>, ents: seq<Entity>, n: nat, id: Id): (k: Option<nat>)
    requires n <= |ents|
    ensures k.Some? ==> k.value < n && ents[k.value].id == id
  {
    if n == 0 then None
    else if ents[n - 1].id == id && Changed(prev, ents[n - 1]) then Some(n - 1)
    else LastChanged(prev, ents, n - 1, id)
  }

  /** The last record of a repeated vehicle is unchanged, while an earlier one changed. */
  predicate Overtaken(prev: map<Id, Entity>, ents: seq<Entity>, id: Id) {
    LastChanged(prev, ents, |ents|, id).Some? && LastChanged(prev, ents, |ents|, id) != LastAt(ents, |ents|, id)
  }

  predicate NoneOvertaken(prev: map<Id, Entity>, ents: seq<Entity>) {
    forall id :: id in Ids(ents) ==> !Overtaken(prev, ents, id)
  }

  /** Positions of the entities the delta carries. */
  function ChangedAt(prev: map<Id, Entity>, ents: seq<Entity>, n: nat): (idx: seq<nat>)
    requires n <= |ents|
    ensures forall j :: 0 <= j < |idx| ==> idx[j] < n
  {
    if n == 0 then []
    else ChangedAt(prev, ents, n - 1) + if Changed(prev, ents[n - 1]) then [n - 1] else []
  }

  function Pick<T>(s: seq<T>, idx: seq<nat>): seq<T>
    requires forall j :: 0 <= j < |idx| ==> idx[j] < |s|
  {
    seq(|idx|, j requires 0 <= j < |idx| => s[idx[j]])
  }

  function DeltaOf(prev: map<Id, Entity>, ents: seq<Entity>, frame: seq<Entity>): Option<Delta>
    requires |frame| == |ents|
  {
    if prev == map[] then None
    else Some(Delta(Pick(frame, ChangedAt(prev, ents, |ents|)), prev.Keys - Ids(ents)))
  }

  /** One poll with positions: the delta is decided on the raw entities, but carries the filled ones. */
  function Poll(g: Sphere, cap: nat, c: Cache, ents: seq<Entity>, now: int): Cache {
    var recorded := Record(c.history, ents, |ents|, now, cap);
    var history := Prune(recorded, recorded, ents);
    var (frame, derived) := FillAll(g, history, Prune(c.derived, recorded, ents), ents, |ents|);
    Cache(frame, DeltaOf(ById(c.frame), ents, frame), c.version + 1, history, derived)
  }

  /** The operator's purge of the trails; the smoothing state stays. */
  function Purge(c: Cache): Cache {
    c.(history := map[])
  }

  /** What a subscriber does with a delta: replace the updated vehicles, drop the removed ones. */
  function Patch(client: map<Id, View>, d: Delta): map<Id, View> {
    (client - d.del) + Views(d.upd)
  }

  // ---- facts about the parts ----

  lemma {:induction false} ByIdKeys(ents: seq<Entity>, n: nat)
    requires n <= |ents|
    ensures ByIdOf(ents, n).Keys == IdsOf(ents, n)
  {
    if n > 0 {
      ByIdKeys(ents, n - 1);
      assert IdsOf(ents, n) == IdsOf(ents, n - 1) + {ents[n - 1].id};
    }
  }

  lemma {:induction false} ByIdIn(ents: seq<Entity>, n: nat, id: Id)
    requires n <= |ents| && id in ByIdOf(ents, n)
    ensures ByIdOf(ents, n)[id] in ents && ByIdOf(ents, n)[id].id == id
  {
    if ents[n - 1].id != id {
      ByIdIn(ents, n - 1, id);
    }
  }

  lemma {:induction false} ByIdLast(ents: seq<Entity>, frame: seq<Entity>, n: nat, id: Id)
    requires n <= |ents| && |frame| == |ents| && forall k :: 0 <= k < |ents| ==> frame[k].id == ents[k].id
    ensures Get(ByIdOf(frame, n), id) == if LastAt(ents, n, id).Some? then Some(frame[LastAt(ents, n, id).value])
                                         else None
  {
    if n > 0 {
      ByIdLast(ents, frame, n - 1, id);
    }
  }

  lemma {:induction false} ChangedIsAtMostLast(prev: map<Id, Entity>, ents: seq<Entity>, n: nat, id: Id)
    requires n <= |ents| && LastChanged(prev, ents, n, id).Some?
    ensures LastAt(ents, n, id).Some? && LastChanged(prev, ents, n, id).value <= LastAt(ents, n, id).value
  {
    if ents[n - 1].id != id {
      ChangedIsAtMostLast(prev, ents, n - 1, id);
    }
  }

  lemma {:induction false} LastUnchanged(prev: map<Id, Entity>, ents: seq<Entity>, n: nat, id: Id)
    requires n <= |ents| && LastAt(ents, n, id).Some?
    ensures LastChanged(prev, ents, n, id) != LastAt(ents, n, id) ==> !Changed(prev, ents[LastAt(ents, n, id).value])
    ensures LastChanged(prev, ents, n, id).Some? ==> Changed(prev, ents[LastChanged(prev, ents, n, id).value])
    ensures LastChanged(prev, ents, n, id).None? ==> forall i :: 0 <= i < n && ents[i].id == id ==>
              !Changed(prev, ents[i])
  {
    if LastAt(ents, n - 1, id).Some? {
      LastUnchanged(prev, ents, n - 1, id);
    } else {
      NoneBefore(prev, ents, n - 1, id);
    }
  }

  lemma {:induction false} NoneBefore(prev: map<Id, Entity>, ents: seq<Entity>, n: nat, id: Id)
    requires n <= |ents| && LastAt(ents, n, id).None?
    ensures LastChanged(prev, ents, n, id).None? && forall i :: 0 <= i < n ==> ents[i].id != id
  {
    if n > 0 {
      NoneBefore(prev, ents, n - 1, id);
    }
  }

  lemma {:induction false} FirstOf(prev: map<Id, Entity>, ents: seq<Entity>, n: nat, i: nat)
    requires Unique(ents) && i < n <= |ents|
    ensures LastAt(ents, n, ents[i].id) == Some(i)
    ensures LastChanged(prev, ents, n, ents[i].id).Some? ==> LastChanged(prev, ents, n, ents[i].id) == Some(i)
  {
    if i < n - 1 {
      FirstOf(prev, ents, n - 1, i);
    }
  }

  /** Where no id repeats nothing is overtaken. */
  lemma UniqueNoneOvertaken(prev: map<Id, Entity>, ents: seq<Entity>)
    requires Unique(ents)
    ensures NoneOvertaken(prev, ents)
  {
    forall id | id in Ids(ents) ensures !Overtaken(prev, ents, id) {
      var i :| 0 <= i < |ents| && ents[i].id == id;
      FirstOf(prev, ents, |ents|, i);
    }
  }

  lemma {:induction false} FillEach(g: Sphere, h: Trails, d: map<Id, real>, ents: seq<Entity>, n: nat, i: nat)
    requires i < n <= |ents|
    ensures var f := FillAll(g, h, d, ents, n).0[i];
            && f == ents[i].(bearing := f.bearing, source := f.source)
            && (ents[i].bearing.Some? ==> f.bearing == ents[i].bearing && f.source == Feed)
            && (ents[i].bearing.None? ==>
                (f.bearing.None? <==> DeriveBearing(g, TrailOf(h, ents[i].id)).None?)
                && (f.source == Derived <==> f.bearing.Some?))
  {
    if i < n - 1 {
      FillEach(g, h, d, ents, n - 1, i);
    }
  }

  lemma {:induction false} RecordKeys(h: Trails, ents: seq<Entity>, n: nat, now: int, cap: nat)
    requires n <= |ents|
    ensures Record(h, ents, n, now, cap).Keys == h.Keys + IdsOf(ents, n)
  {
    if n > 0 {
      RecordKeys(h, ents, n - 1, now, cap);
      assert IdsOf(ents, n) == IdsOf(ents, n - 1) + {ents[n - 1].id};
    }
  }

  // ---- the invariant ----

  predicate At(trail: seq<Fix>, e: Entity) {
    trail == [] || (trail[|trail| - 1].lon == e.lon && trail[|trail| - 1].lat == e.lat)
  }

  /** A trail that would not yield a bearing if its vehicle were reported in the same place again. */
  predicate Quiet(g: Sphere, trail: seq<Fix>, e: Entity) {
    At(trail, e) && DeriveBearing(g, trail).None?
  }

  /** Every vehicle shown without a bearing has a quiet trail. */
  predicate Inv(g: Sphere, c: Cache) {
    forall id :: id in ById(c.frame) && ById(c.frame)[id].bearing.None? ==>
             Quiet(g, TrailOf(c.history, id), ById(c.frame)[id])
  }

  lemma ExtendEndsAt(trail: seq<Fix>, e: Entity, now: int, cap: nat)
    ensures At(Extend(trail, e, now, cap), e)
  {}

  lemma {:induction false} RecordEndsAt(h: Trails, ents: seq<Entity>, n: nat, now: int, cap: nat, id: Id)
    requires n <= |ents| && LastAt(ents, n, id).Some?
    ensures At(TrailOf(Record(h, ents, n, now, cap), id), ents[LastAt(ents, n, id).value])
  {
    hide Extend, At;
    ExtendEndsAt(TrailOf(Record(h, ents, n - 1, now, cap), ents[n - 1].id), ents[n - 1], now, cap);
    if ents[n - 1].id != id {
      RecordEndsAt(h, ents, n - 1, now, cap, id);
    }
  }

  lemma ExtendStaysQuiet(g: Sphere, trail: seq<Fix>, e: Entity, still: Entity, now: int, cap: nat)
    requires Quiet(g, trail, e) && still.lon == e.lon && still.lat == e.lat
    ensures Quiet(g, Extend(trail, still, now, cap), e)
  {
    hide Look;
  }

  /** A vehicle that stays where it is keeps a quiet trail quiet, however often the frame repeats it. */
  lemma {:induction false} RecordStaysQuiet(g: Sphere, h: Trails, ents: seq<Entity>, n: nat, now: int, cap: nat,
                                            id: Id, e: Entity)
    requires n <= |ents| && Quiet(g, TrailOf(h, id), e)
    requires forall i :: 0 <= i < n && ents[i].id == id ==> ents[i].lon == e.lon && ents[i].lat == e.lat
    ensures Quiet(g, TrailOf(Record(h, ents, n, now, cap), id), e)
  {
    hide Quiet, Extend;
    if n > 0 {
      RecordStaysQuiet(g, h, ents, n - 1, now, cap, id, e);
      var before := TrailOf(Record(h, ents, n - 1, now, cap), id);
      if ents[n - 1].id == id { ExtendStaysQuiet(g, before, e, ents[n - 1], now, cap); }
    }
  }

  /** The trails the bearings of a poll are derived from. */
  lemma PollFrame(g: Sphere, cap: nat, c: Cache, ents: seq<Entity>, now: int)
    ensures var c' := Poll(g, cap, c, ents, now);
            && |c'.frame| == |ents| && Ids(c'.frame) == Ids(ents)
            && c'.delta == DeltaOf(ById(c.frame), ents, c'.frame)
            && forall i :: 0 <= i < |ents| ==>
                 var e, f := ents[i], c'.frame[i];
                 var trail := TrailOf(Record(c.history, ents, |ents|, now, cap), e.id);
                 && TrailOf(c'.history, e.id) == trail
                 && f == e.(bearing := f.bearing, source := f.source)
                 && if e.bearing.Some? then f.bearing == e.bearing
                    else f.bearing.None? <==> DeriveBearing(g, trail).None?
  {
    hide DeriveBearing, Record, DeltaOf;
    var c' := Poll(g, cap, c, ents, now);
    var recorded := Record(c.history, ents, |ents|, now, cap);
    forall i | 0 <= i < |ents|
      ensures TrailOf(c'.history, ents[i].id) == TrailOf(recorded, ents[i].id)
      ensures var e, f, trail := ents[i], c'.frame[i], TrailOf(recorded, ents[i].id);
              && f == e.(bearing := f.bearing, source := f.source)
              && if e.bearing.Some? then f.bearing == e.bearing else f.bearing.None? <==> DeriveBearing(g, trail).None?
    {
      FillEach(g, c'.history, Prune(c.derived, recorded, ents), ents, |ents|, i);
      assert ents[i].id in Ids(ents);
    }
  }

  lemma PollKeepsInv(g: Sphere, cap: nat, c: Cache, ents: seq<Entity>, now: int)
    ensures Inv(g, Poll(g, cap, c, ents, now))
  {
    hide Poll, Record, DeriveBearing, DeltaOf;
    var c' := Poll(g, cap, c, ents, now);
    PollFrame(g, cap, c, ents, now);
    forall id | id in ById(c'.frame) && ById(c'.frame)[id].bearing.None?
      ensures Quiet(g, TrailOf(c'.history, id), ById(c'.frame)[id])
    {
      ByIdLast(ents, c'.frame, |ents|, id);
      RecordEndsAt(c.history, ents, |ents|, now, cap, id);
    }
  }

  /**
   The heart of it: a vehicle that the raw comparison calls unchanged wherever it occurs is still unchanged once
   bearings are filled in.
   */
  lemma UnchangedStaysUnchanged(g: Sphere, cap: nat, c: Cache, ents: seq<Entity>, now: int, id: Id)
    requires Inv(g, c) && LastAt(ents, |ents|, id).Some? && LastChanged(ById(c.frame), ents, |ents|, id).None?
    ensures id in ById(c.frame)
    ensures ViewOf(Poll(g, cap, c, ents, now).frame[LastAt(ents, |ents|, id).value]) == ViewOf(ById(c.frame)[id])
  {
    hide Poll, Record, DeriveBearing, DeltaOf, ById;
    LastUnchanged(ById(c.frame), ents, |ents|, id);
    PollFrame(g, cap, c, ents, now);
    var e := ById(c.frame)[id];
    if e.bearing.None? {
      RecordStaysQuiet(g, c.history, ents, |ents|, now, cap, id, e);
    }
  }

  // ---- the published delta is exact ----

  lemma {:induction false} ByIdOfPrefix(s: seq<Entity>, t: seq<Entity>, n: nat)
    requires n <= |s| && n <= |t| && forall i :: 0 <= i < n ==> s[i] == t[i]
    ensures ByIdOf(s, n) == ByIdOf(t, n)
  {
    if n > 0 {
      ByIdOfPrefix(s, t, n - 1);
    }
  }

  lemma PickSnoc<T>(s: seq<T>, idx: seq<nat>, k: nat)
    requires k < |s| && forall j :: 0 <= j < |idx| ==> idx[j] < |s|
    ensures Pick(s, idx + [k]) == Pick(s, idx) + [s[k]]
  {}

  lemma PickNone(s: seq<Entity>)
    ensures Pick(s, []) == [] && ById([]) == map[]
  {}

  lemma ByIdSnoc(s: seq<Entity>, e: Entity)
    ensures ById(s + [e]) == ById(s)[e.id := e]
  {
    ByIdOfPrefix(s, s + [e], |s|);
  }

  /** What a delta decided on the raw entities carries of a vehicle, once these have turned into `frame`. */
  lemma {:induction false} Carried(prev: map<Id, Entity>, ents: seq<Entity>, frame: seq<Entity>, n: nat, id: Id)
    requires n <= |ents| && |frame| == |ents| && forall k :: 0 <= k < |ents| ==> frame[k].id == ents[k].id
    ensures Get(ById(Pick(frame, ChangedAt(prev, ents, n))), id)
         == if LastChanged(prev, ents, n, id).Some? then Some(frame[LastChanged(prev, ents, n, id).value]) else None
  {
    hide Changed, Pick, ById;
    if n == 0 {
      PickNone(frame);
    } else {
      Carried(prev, ents, frame, n - 1, id);
      var idx := ChangedAt(prev, ents, n - 1);
      if Changed(prev, ents[n - 1]) {
        PickSnoc(frame, idx, n - 1);
        ByIdSnoc(Pick(frame, idx), frame[n - 1]);
      } else {
        assert ChangedAt(prev, ents, n) == idx;
      }
    }
  }

  lemma PatchMaps(prev: map<Id, Entity>, upd: map<Id, Entity>, next: map<Id, Entity>)
    requires upd.Keys <= next.Keys
    requires forall id :: id in next && id !in upd ==> id in prev && ViewOf(prev[id]) == ViewOf(next[id])
    ensures (ViewMap(prev) - (prev.Keys - next.Keys)) + ViewMap(upd) == ViewMap(next)
       <==> forall id :: id in upd ==> ViewOf(upd[id]) == ViewOf(next[id])
  {
    hide ViewOf;
    var got, want := (ViewMap(prev) - (prev.Keys - next.Keys)) + ViewMap(upd), ViewMap(next);
    assert got.Keys == want.Keys;
    if forall id :: id in upd ==> ViewOf(upd[id]) == ViewOf(next[id]) {
      forall id | id in want ensures got[id] == want[id] {}
    }
    if got == want {
      forall id | id in upd ensures ViewOf(upd[id]) == ViewOf(next[id]) {
        assert got[id] == want[id];
      }
    }
  }

  /** The record the delta sends of a vehicle shows what the frame shows of it. */
  predicate SentAsShown(prev: map<Id, Entity>, ents: seq<Entity>, frame: seq<Entity>, id: Id)
    requires |frame| == |ents|
  {
    LastChanged(prev, ents, |ents|, id).Some? && LastAt(ents, |ents|, id).Some? ==>
      ViewOf(frame[LastChanged(prev, ents, |ents|, id).value]) == ViewOf(frame[LastAt(ents, |ents|, id).value])
  }

  lemma PatchGivesFrame(last: seq<Entity>, ents: seq<Entity>, frame: seq<Entity>)
    requires last != [] && |frame| == |ents| && forall k :: 0 <= k < |ents| ==> frame[k].id == ents[k].id
    requires forall id :: && id in Ids(ents) && LastAt(ents, |ents|, id).Some?
                          && LastChanged(ById(last), ents, |ents|, id).None? ==>
               id in ById(last) && ViewOf(frame[LastAt(ents, |ents|, id).value]) == ViewOf(ById(last)[id])
    ensures var d := DeltaOf(ById(last), ents, frame);
            && d.Some?
            && (Patch(Views(last), d.value) == Views(frame) <==>
                forall id :: id in Ids(ents) ==> SentAsShown(ById(last), ents, frame, id))
  {
    hide ViewOf, Changed, ChangedAt, ViewMap;
    var prev, next, idx := ById(last), ById(frame), ChangedAt(ById(last), ents, |ents|);
    var upd := ById(Pick(frame, idx));
    ByIdKeys(last, |last|);
    assert last[0].id in prev;
    ByIdKeys(frame, |frame|);
    assert next.Keys == Ids(ents);
    forall id
      ensures id in upd ==> id in next && (ViewOf(upd[id]) == ViewOf(next[id]) <==> SentAsShown(prev, ents, frame, id))
      ensures id in next && id !in upd ==>
                id in prev && ViewOf(prev[id]) == ViewOf(next[id]) && SentAsShown(prev, ents, frame, id)
    {
      Carried(prev, ents, frame, |ents|, id);
      ByIdLast(ents, frame, |ents|, id);
      if id in upd { ChangedIsAtMostLast(prev, ents, |ents|, id); }
    }
    PatchMaps(prev, upd, next);
  }

  /**
   Patching the previous frame with the published delta gives the new frame, on position, trip and the bearing that
   was only filled in after the delta had been decided, exactly when every vehicle is sent as it is shown: a frame may
   repeat one, and then the delta ends on the last record that changed and the frame on the last of all.
   */
  lemma DeltaExactness(g: Sphere, cap: nat, c: Cache, ents: seq<Entity>, now: int)
    requires Inv(g, c)
    ensures var c' := Poll(g, cap, c, ents, now);
            && |c'.frame| == |ents|
            && (c'.delta.None? <==> c.frame == [])
            && (c'.delta.Some? ==>
                (Patch(Views(c.frame), c'.delta.value) == Views(c'.frame) <==>
                 forall id :: id in Ids(ents) ==> SentAsShown(ById(c.frame), ents, c'.frame, id)))
  {
    hide Poll, ViewOf, Changed, ChangedAt, Inv, SentAsShown, Patch, Views;
    var c' := Poll(g, cap, c, ents, now);
    PollFrame(g, cap, c, ents, now);
    if c.frame != [] {
      forall id | LastChanged(ById(c.frame), ents, |ents|, id).None? && LastAt(ents, |ents|, id).Some?
        ensures id in ById(c.frame) && ViewOf(c'.frame[LastAt(ents, |ents|, id).value]) == ViewOf(ById(c.frame)[id])
      {
        UnchangedStaysUnchanged(g, cap, c, ents, now, id);
      }
      PatchGivesFrame(c.frame, ents, c'.frame);
    }
  }

  /** So it does whenever no vehicle is overtaken, whoever supplied the bearings; in particular where no id repeats. */
  lemma DeltaIsExact(g: Sphere, cap: nat, c: Cache, ents: seq<Entity>, now: int)
    requires Inv(g, c) && NoneOvertaken(ById(c.frame), ents)
    ensures var c' := Poll(g, cap, c, ents, now);
            && (c'.delta.None? <==> c.frame == [])
            && (c'.delta.Some? ==> Patch(Views(c.frame), c'.delta.value) == Views(c'.frame))
  {
    hide Poll, ViewOf, Inv, Patch, Views;
    DeltaExactness(g, cap, c, ents, now);
  }

  /**
   The last changed and the last record of a vehicle are elsewhere or on different trips, or the feed supplies a bearing
   for both or for neither; so for all vehicles of a feed with bearings, and of one without.
   */
  predicate Comparable(prev: map<Id, Entity>, ents: seq<Entity>, id: Id) {
    var j, k := LastChanged(prev, ents, |ents|, id), LastAt(ents, |ents|, id);
    j.Some? && k.Some? ==>
      var a, b := ents[j.value], ents[k.value];
      (a.lat, a.lon, a.tripId) != (b.lat, b.lon, b.tripId) || a.bearing.Some? == b.bearing.Some?
  }

  /** An overtaken vehicle whose two records can be compared is sent as something else than it is shown as. */
  lemma OvertakenIsSentWrong(g: Sphere, cap: nat, c: Cache, ents: seq<Entity>, now: int, id: Id)
    requires Comparable(ById(c.frame), ents, id)
    ensures |Poll(g, cap, c, ents, now).frame| == |ents|
    ensures SentAsShown(ById(c.frame), ents, Poll(g, cap, c, ents, now).frame, id) <==>
            !Overtaken(ById(c.frame), ents, id)
  {
    hide Poll, ById, Record, DeriveBearing, DeltaOf;
    var prev := ById(c.frame);
    PollFrame(g, cap, c, ents, now);
    if LastChanged(prev, ents, |ents|, id).Some? {
      ChangedIsAtMostLast(prev, ents, |ents|, id);
      LastUnchanged(prev, ents, |ents|, id);
    }
  }

  /** Among comparable vehicles an overtaken one is all that can break the delta, and it always does. */
  lemma DeltaExactOnInput(g: Sphere, cap: nat, c: Cache, ents: seq<Entity>, now: int)
    requires Inv(g, c) && c.frame != [] && forall id :: id in Ids(ents) ==> Comparable(ById(c.frame), ents, id)
    ensures var c' := Poll(g, cap, c, ents, now);
            && c'.delta.Some?
            && (Patch(Views(c.frame), c'.delta.value) == Views(c'.frame) <==> NoneOvertaken(ById(c.frame), ents))
  {
    hide Poll, Inv, Patch, Views, ById, SentAsShown, Overtaken, Comparable;
    DeltaExactness(g, cap, c, ents, now);
    forall id | id in Ids(ents)
      ensures SentAsShown(ById(c.frame), ents, Poll(g, cap, c, ents, now).frame, id) <==>
              !Overtaken(ById(c.frame), ents, id)
    {
      OvertakenIsSentWrong(g, cap, c, ents, now, id);
    }
  }

  /** A feed that supplies every bearing, or none. */
  predicate Uniform(ents: seq<Entity>) {
    forall i, j :: 0 <= i < |ents| && 0 <= j < |ents| ==> ents[i].bearing.Some? == ents[j].bearing.Some?
  }

  lemma UniformIsComparable(prev: map<Id, Entity>, ents: seq<Entity>, id: Id)
    requires Uniform(ents)
    ensures Comparable(prev, ents, id)
  {}

  // ---- whole runs ----

  datatype Event = Polled(ents: seq<Entity>, now: int) | Purged

  function Run(g: Sphere, cap: nat, evs: seq<Event>, n: nat): Cache
    requires n <= |evs|
  {
    if n == 0 then EMPTY
    else
      match evs[n - 1]
      case Polled(ents, now) => Poll(g, cap, Run(g, cap, evs, n - 1), ents, now)
      case Purged => Purge(Run(g, cap, evs, n - 1))
  }

  /** No poll of the run overtakes a vehicle; as long as no frame repeats an id, none does. */
  predicate Orderly(g: Sphere, cap: nat, evs: seq<Event>, n: nat)
    requires n <= |evs|
  {
    n == 0 ||
    (Orderly(g, cap, evs, n - 1)
     && (evs[n - 1].Polled? ==> NoneOvertaken(ById(Run(g, cap, evs, n - 1).frame), evs[n - 1].ents)))
  }

  lemma {:induction false} UniqueIsOrderly(g: Sphere, cap: nat, evs: seq<Event>, n: nat)
    requires n <= |evs| && forall i :: 0 <= i < n && evs[i].Polled? ==> Unique(evs[i].ents)
    ensures Orderly(g, cap, evs, n)
  {
    if n > 0 {
      UniqueIsOrderly(g, cap, evs, n - 1);
      if evs[n - 1].Polled? {
        UniqueNoneOvertaken(ById(Run(g, cap, evs, n - 1).frame), evs[n - 1].ents);
      }
    }
  }

  /** What a subscriber takes from the cache: the delta when there is one, else the full frame. */
  function Read(client: map<Id, View>, c: Cache): map<Id, View> {
    if c.delta.Some? then Patch(client, c.delta.value) else Views(c.frame)
  }

  /** A subscriber that reads every publication. */
  function Subscriber(g: Sphere, cap: nat, evs: seq<Event>, n: nat): map<Id, View>
    requires n <= |evs|
  {
    if n == 0 then map[]
    else if evs[n - 1].Purged? then Subscriber(g, cap, evs, n - 1)
    else Read(Subscriber(g, cap, evs, n - 1), Run(g, cap, evs, n))
  }

  lemma {:induction false} RunKeepsInv(g: Sphere, cap: nat, evs: seq<Event>, n: nat)
    requires n <= |evs|
    ensures Inv(g, Run(g, cap, evs, n))
  {
    hide Poll;
    if n > 0 {
      var c := Run(g, cap, evs, n - 1);
      RunKeepsInv(g, cap, evs, n - 1);
      match evs[n - 1]
      case Polled(ents, now) => PollKeepsInv(g, cap, c, ents, now);
      case Purged => assert Purge(c).frame == c.frame;
    }
  }

  /** In every orderly run of polls and purges, a subscriber living on deltas holds exactly the current frame. */
  lemma {:induction false} SubscriberTracksFrame(g: Sphere, cap: nat, evs: seq<Event>, n: nat)
    requires n <= |evs| && Orderly(g, cap, evs, n)
    ensures Subscriber(g, cap, evs, n) == Views(Run(g, cap, evs, n).frame)
  {
    hide Poll, Patch, Inv, NoneOvertaken;
    if n > 0 {
      SubscriberTracksFrame(g, cap, evs, n - 1);
      RunKeepsInv(g, cap, evs, n - 1);
      match evs[n - 1]
      case Polled(ents, now) => DeltaIsExact(g, cap, Run(g, cap, evs, n - 1), ents, now);
      case Purged =>
    }
  }

  /**
   A frame that repeats a vehicle may break the promise: the delta sends the first record, the frame keeps the last.
   */
  lemma RepeatedIdBreaksDelta(g: Sphere, cap: nat, a: Entity)
    ensures var c, ents := EMPTY.(frame := [a]), [a.(lat := a.lat + 1.0), a];
            var c' := Poll(g, cap, c, ents, 0);
            Inv(g, c) && Overtaken(ById(c.frame), ents, a.id)
            && c'.delta.Some? && Patch(Views(c.frame), c'.delta.value) != Views(c'.frame)
  {
    hide Poll, Patch, Views;
    var c, b := EMPTY.(frame := [a]), a.(lat := a.lat + 1.0);
    var ents := [b, a];
    assert ById([a]) == map[a.id := a] by { assert ByIdOf([a], 0) == map[]; }
    var prev := ById([a]);
    assert LastChanged(prev, ents, 1, a.id) == Some(0);
    assert LastChanged(prev, ents, 2, a.id) == Some(0) && LastAt(ents, 2, a.id) == Some(1);
    assert ents[0].id in Ids(ents);
    UniformIsComparable(prev, ents, a.id);
    DeltaExactOnInput(g, cap, c, ents, 0);
  }

  // ---- subscribers that fall behind ----

  /**
   A subscriber's queue holds two wake-ups at the most, and a wake-up says nothing but that there is something to
   read.
   */
  datatype Stream = Stream(cache: Cache, waiting: nat, client: map<Id, View>)

  datatype StreamEvent = FeedEvent(e: Event) | WokenUp

  function Advance(g: Sphere, cap: nat, c: Cache, e: Event): Cache {
    match e
    case Polled(ents, now) => Poll(g, cap, c, ents, now)
    case Purged => Purge(c)
  }

  function StreamStep(g: Sphere, cap: nat, s: Stream, e: StreamEvent): Stream {
    match e
    case FeedEvent(e) => s.(cache := Advance(g, cap, s.cache, e),
                            waiting := if e.Polled? then Min(2, s.waiting + 1) else s.waiting)
    case WokenUp => if s.waiting == 0 then s else s.(waiting := s.waiting - 1, client := Read(s.client, s.cache))
  }

  /** From the moment of subscribing, when the full frame is sent. */
  function StreamRun(g: Sphere, cap: nat, c: Cache, evs: seq<StreamEvent>, n: nat): (s: Stream)
    requires n <= |evs|
    ensures s.waiting <= 2
  {
    if n == 0 then Stream(c, 0, Views(c.frame)) else StreamStep(g, cap, StreamRun(g, cap, c, evs, n - 1), evs[n - 1])
  }

  /** Every publication is read before the next one, and none overtakes a vehicle. */
  predicate KeepsUp(g: Sphere, cap: nat, c: Cache, evs: seq<StreamEvent>, n: nat)
    requires n <= |evs|
  {
    n == 0 ||
    (KeepsUp(g, cap, c, evs, n - 1)
     && (evs[n - 1].FeedEvent? && evs[n - 1].e.Polled? ==>
           var s := StreamRun(g, cap, c, evs, n - 1);
           s.waiting == 0 && NoneOvertaken(ById(s.cache.frame), evs[n - 1].e.ents)))
  }

  /** A client that keeps up shows the current frame whenever it has nothing left to read. */
  lemma {:induction false} StreamTracksFrame(g: Sphere, cap: nat, c: Cache, evs: seq<StreamEvent>, n: nat)
    requires Inv(g, c) && n <= |evs| && KeepsUp(g, cap, c, evs, n)
    ensures var s := StreamRun(g, cap, c, evs, n);
            && Inv(g, s.cache) && s.waiting <= 1
            && (if s.waiting == 0 then s.client else Read(s.client, s.cache)) == Views(s.cache.frame)
  {
    hide Poll, Patch, Inv, NoneOvertaken, Views;
    if n > 0 {
      StreamTracksFrame(g, cap, c, evs, n - 1);
      var s := StreamRun(g, cap, c, evs, n - 1);
      match evs[n - 1]
      case WokenUp =>
      case FeedEvent(Purged) => PurgeKeepsInv(g, s.cache);
      case FeedEvent(Polled(ents, now)) =>
        PollKeepsInv(g, cap, s.cache, ents, now);
        DeltaIsExact(g, cap, s.cache, ents, now);
    }
  }

  lemma PurgeKeepsInv(g: Sphere, c: Cache)
    requires Inv(g, c)
    ensures Inv(g, Purge(c))
  {
    assert Purge(c).frame == c.frame;
  }

  /** Reading the same delta twice, as the second of two wake-ups makes a slow subscriber do, is harmless. */
  lemma PatchTwice(client: map<Id, View>, d: Delta)
    ensures Patch(Patch(client, d), d) == Patch(client, d)
  {}

  lemma SkippedPatch(f0: map<Id, View>, f1: map<Id, View>, f2: map<Id, View>, d1: Delta, d2: Delta)
    requires Patch(f0, d1) == f1 && Patch(f1, d2) == f2
    requires d1.del == f0.Keys - f1.Keys && d2.del == f1.Keys - f2.Keys
    ensures Patch(f0, d2) == f2 <==>
            && d1.del <= f2.Keys
            && forall id :: id in Views(d1.upd) && id in f2 && id !in Views(d2.upd) ==> Get(f0, id) == Get(f1, id)
  {
    var u1, u2 := Views(d1.upd), Views(d2.upd);
    var got := Patch(f0, d2);
    if d1.del <= f2.Keys && forall id :: id in u1 && id in f2 && id !in u2 ==> Get(f0, id) == Get(f1, id) {
      forall id ensures (id in got <==> id in f2) && (id in f2 ==> got[id] == f2[id]) {
        if id in f2 && id !in u2 {
          assert id in f1 && f2[id] == f1[id];
          if id in u1 { assert Get(f0, id) == Get(f1, id); }
        }
      }
      assert got.Keys == f2.Keys;
    }
    if got == f2 {
      forall id | id in d1.del ensures id in f2 {
        assert id !in d2.del ==> id in got;
      }
      forall id | id in u1 && id in f2 && id !in u2 ensures Get(f0, id) == Get(f1, id) {
        assert Get(got, id) == Get(f0, id);
      }
    }
  }

  lemma DeltaRemoves(g: Sphere, cap: nat, c: Cache, ents: seq<Entity>, now: int)
    ensures var c' := Poll(g, cap, c, ents, now);
            c'.delta.Some? ==> c'.delta.value.del == Views(c.frame).Keys - Views(c'.frame).Keys
  {
    hide Poll, Record, DeriveBearing, Pick, ChangedAt;
    PollFrame(g, cap, c, ents, now);
    ByIdKeys(c.frame, |c.frame|);
    ByIdKeys(Poll(g, cap, c, ents, now).frame, |ents|);
    assert Views(c.frame).Keys == Ids(c.frame);
    assert Views(Poll(g, cap, c, ents, now).frame).Keys == Ids(ents);
  }

  /**
   A client that was up to date and sleeps through a publication finds two wake-ups but only the newer delta, which it
   reads twice. It ends on the current frame exactly when the vehicles the missed delta removed are back, and each of
   those it moved is gone, sent again or was not really changed.
   */
  lemma SkippedDelta(g: Sphere, cap: nat, c0: Cache, e1: Event, e2: Event)
    requires Inv(g, c0) && c0.frame != [] && e1.Polled? && e2.Polled? && e1.ents != []
    requires NoneOvertaken(ById(c0.frame), e1.ents) && NoneOvertaken(ById(Advance(g, cap, c0, e1).frame), e2.ents)
    ensures var c1 := Advance(g, cap, c0, e1);
            var c2 := Advance(g, cap, c1, e2);
            var s := StreamRun(g, cap, c0, [FeedEvent(e1), FeedEvent(e2), WokenUp, WokenUp], 4);
            && c1.delta.Some? && c2.delta.Some?
            && s.cache == c2 && s.waiting == 0 && s.client == Patch(Views(c0.frame), c2.delta.value)
            && (s.client == Views(c2.frame) <==>
                && c1.delta.value.del <= Views(c2.frame).Keys
                && forall id :: && id in Views(c1.delta.value.upd) && id in Views(c2.frame)
                                && id !in Views(c2.delta.value.upd) ==>
                     Get(Views(c0.frame), id) == Get(Views(c1.frame), id))
  {
    hide Poll, Patch, Inv, NoneOvertaken, Views, Record, DeriveBearing, DeltaOf;
    var c1 := Advance(g, cap, c0, e1);
    var c2 := Advance(g, cap, c1, e2);
    var evs := [FeedEvent(e1), FeedEvent(e2), WokenUp, WokenUp];
    PollKeepsInv(g, cap, c0, e1.ents, e1.now);
    PollFrame(g, cap, c0, e1.ents, e1.now);
    DeltaIsExact(g, cap, c0, e1.ents, e1.now);
    DeltaIsExact(g, cap, c1, e2.ents, e2.now);
    DeltaRemoves(g, cap, c0, e1.ents, e1.now);
    DeltaRemoves(g, cap, c1, e2.ents, e2.now);
    SkippedPatch(Views(c0.frame), Views(c1.frame), Views(c2.frame), c1.delta.value, c2.delta.value);
    PatchTwice(Views(c0.frame), c2.delta.value);
    assert StreamRun(g, cap, c0, evs, 1) == Stream(c1, 1, Views(c0.frame));
    assert StreamRun(g, cap, c0, evs, 2) == Stream(c2, 2, Views(c0.frame));
    assert StreamRun(g, cap, c0, evs, 3) == Stream(c2, 1, Patch(Views(c0.frame), c2.delta.value));
  }

  /** A vehicle that leaves in the missed frame and stays away remains on the client's map. */
  lemma MissedRemovalLeavesGhost(g: Sphere, cap: nat, c0: Cache, ents: seq<Entity>, gone: Id)
    requires Inv(g, c0) && ents != [] && gone in Views(c0.frame) && gone !in Ids(ents)
    requires Unique(ents)
    ensures var s := StreamRun(g, cap, c0, [FeedEvent(Polled(ents, 1)), FeedEvent(Polled(ents, 2)), WokenUp, WokenUp],
                               4);
            s.waiting == 0 && gone in s.client && gone !in Views(s.cache.frame)
  {
    hide Poll, Patch, Inv, NoneOvertaken, Views, Record, DeriveBearing, DeltaOf;
    var e1, e2 := Polled(ents, 1), Polled(ents, 2);
    var c1 := Advance(g, cap, c0, e1);
    var c2 := Advance(g, cap, c1, e2);
    UniqueNoneOvertaken(ById(c0.frame), ents);
    UniqueNoneOvertaken(ById(c1.frame), ents);
    ViewsKeys(c0.frame);
    ViewsKeys(c1.frame);
    ViewsKeys(c2.frame);
    PollFrame(g, cap, c0, ents, 1);
    PollFrame(g, cap, c1, ents, 2);
    SkippedDelta(g, cap, c0, e1, e2);
    DeltaRemoves(g, cap, c0, ents, 1);
    DeltaRemoves(g, cap, c1, ents, 2);
    PatchKeeps(Views(c0.frame), c2.delta.value, gone);
  }

  lemma ViewsKeys(ents: seq<Entity>)
    ensures Views(ents).Keys == Ids(ents)
  {
    ByIdKeys(ents, |ents|);
  }

  lemma PatchKeeps(client: map<Id, View>, d: Delta, id: Id)
    ensures id in client && id !in d.del ==> id in Patch(client, d)
  {}

  // ---- bounded memory ----

  predicate AllWithin(history: Trails, cap: nat) {
    forall id :: id in history ==> |history[id]| <= cap
  }

  lemma {:induction false} RecordBounded(h: Trails, ents: seq<Entity>, n: nat, now: int, cap: nat)
    requires AllWithin(h, cap) && n <= |ents|
    ensures AllWithin(Record(h, ents, n, now, cap), cap)
  {
    if n > 0 {
      RecordBounded(h, ents, n - 1, now, cap);
    }
  }

  lemma {:induction false} IdsAtMost(ents: seq<Entity>, n: nat)
    requires n <= |ents|
    ensures |IdsOf(ents, n)| <= n
  {
    if n > 0 {
      IdsAtMost(ents, n - 1);
      assert IdsOf(ents, n) == IdsOf(ents, n - 1) + {ents[n - 1].id};
    }
  }

  lemma PrunedSize(h: Trails, ents: seq<Entity>, now: int, cap: nat)
    ensures var r := Record(h, ents, |ents|, now, cap); |Prune(r, r, ents)| <= 3 * Max(|ents|, 1000)
  {
    var r := Record(h, ents, |ents|, now, cap);
    RecordKeys(h, ents, |ents|, now, cap);
    if |r| > 3 * Max(|ents|, 1000) {
      assert Prune(r, r, ents).Keys == Ids(ents);
      IdsAtMost(ents, |ents|);
    }
  }

  /** No trail outgrows its ring buffer, and after a poll there are at most 3 * max(vehicles, 1000) trails. */
  lemma {:induction false} MemoryIsBounded(g: Sphere, cap: nat, evs: seq<Event>, n: nat)
    requires n <= |evs|
    ensures AllWithin(Run(g, cap, evs, n).history, cap)
    ensures n > 0 && evs[n - 1].Polled? ==> |Run(g, cap, evs, n).history| <= 3 * Max(|evs[n - 1].ents|, 1000)
  {
    if n > 0 {
      MemoryIsBounded(g, cap, evs, n - 1);
      if evs[n - 1].Polled? {
        var c, ents := Run(g, cap, evs, n - 1), evs[n - 1].ents;
        RecordBounded(c.history, ents, |ents|, evs[n - 1].now, cap);
        PrunedSize(c.history, ents, evs[n - 1].now, cap);
      }
    }
  }

  predicate InStep(c: Cache) {
    c.derived.Keys <= c.history.Keys
  }

  lemma {:induction false} FillDerivedKeys(g: Sphere, h: Trails, d: map<Id, real>, ents: seq<Entity>, n: nat)
    requires d.Keys <= h.Keys && n <= |ents|
    ensures FillAll(g, h, d, ents, n).1.Keys <= h.Keys
  {
    if n > 0 {
      FillDerivedKeys(g, h, d, ents, n - 1);
    }
  }

  /**
   The smoothing state is pruned in step with the trails: a poll keeps it inside them, and a purge
   does so exactly when there is none. (After any other purge the state of vehicles that never
   return stays for ever.)
   */
  lemma SmoothingStateInStep(g: Sphere, cap: nat, c: Cache, ents: seq<Entity>, now: int)
    ensures InStep(c) ==> InStep(Poll(g, cap, c, ents, now))
    ensures InStep(Purge(c)) <==> c.derived == map[]
  {
    if InStep(c) {
      var r := Record(c.history, ents, |ents|, now, cap);
      RecordKeys(c.history, ents, |ents|, now, cap);
      FillDerivedKeys(g, Prune(r, r, ents), Prune(c.derived, r, ents), ents, |ents|);
    }
    if c.derived.Keys <= {} { assert c.derived == map[]; }
  }
}
