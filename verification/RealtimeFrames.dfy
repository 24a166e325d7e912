module RealtimeFrames {
  /**
   What a poll shows and remembers, said of distances, courses and the reports themselves: which bearing a vehicle is
   shown with, which course is remembered for smoothing, which positions a trail holds, and what a delta carries.
   */
  import opened Util
  import opened Realtime

  // ---- the bearing a vehicle is shown with ----

  /**
   The last position is at least ten metres from point `m` and within ten of all later ones, three minutes at most on.
   */
  predicate MovedFrom(g: Sphere, trail: seq<Fix>, m: int) {
    && 0 <= m < |trail| - 1
    && var last := trail[|trail| - 1];
       && g.distance(trail[m], last) >= 10.0 && last.ts - trail[m].ts <= 180
       && forall j :: m < j < |trail| - 1 ==> g.distance(trail[j], last) < 10.0
  }

  /** The course a vehicle has moved on, if it has. */
  ghost function CourseOf(g: Sphere, trail: seq<Fix>): (course: Option<real>)
    ensures course.None? <==> forall m :: !MovedFrom(g, trail, m)
    ensures forall m :: MovedFrom(g, trail, m) ==> course == Some(g.course(trail[m], trail[|trail| - 1]))
  {
    if exists m :: MovedFrom(g, trail, m) then
      var m :| MovedFrom(g, trail, m);
      Some(g.course(trail[m], trail[|trail| - 1]))
    else None
  }

  lemma DerivedIsCourse(g: Sphere, trail: seq<Fix>)
    ensures DeriveBearing(g, trail) == CourseOf(g, trail)
  {
    if |trail| >= 2 {
      var n, last := |trail| - 1, trail[|trail| - 1];
      LookFrom(g, trail, n, last);
      forall m | IsDeparture(g, trail, n, last, m) &&
             last.ts - trail[m].ts <= MAX_PAIR_GAP_S ensures MovedFrom(g, trail, m) {}
      forall m | MovedFrom(g, trail, m) ensures IsDeparture(g, trail, n, last, m) {}
      hide Look;
    }
  }

  /** Some of the first `n` records of the vehicle came without a bearing. */
  predicate Bare(ents: seq<Entity>, n: nat, id: Id)
    requires n <= |ents|
  {
    exists j :: 0 <= j < n && ents[j].id == id && ents[j].bearing.None?
  }

  /** The course remembered for the vehicle once the first `n` records were filled in. */
  lemma {:induction false} CourseKept(g: Sphere, h: Trails, d: map<Id, real>, ents: seq<Entity>, n: nat, id: Id)
    requires n <= |ents|
    ensures var course := CourseOf(g, TrailOf(h, id));
            Get(FillAll(g, h, d, ents, n).1, id) == if Bare(ents, n, id) && course.Some? then course else Get(d, id)
  {
    hide DeriveBearing, CourseOf;
    DerivedIsCourse(g, TrailOf(h, id));
    if n > 0 {
      CourseKept(g, h, d, ents, n - 1, id);
      assert Bare(ents, n, id) <==> Bare(ents, n - 1, id) || (ents[n - 1].id == id && ents[n - 1].bearing.None?);
    }
  }

  lemma {:induction false} FilledAt(g: Sphere, h: Trails, d: map<Id, real>, ents: seq<Entity>, n: nat, i: nat)
    requires i < n <= |ents|
    ensures FillAll(g, h, d, ents, n).0[i] == Fill(g, h, FillAll(g, h, d, ents, i).1, ents[i]).0
  {
    hide Fill;
    if i < n - 1 {
      FilledAt(g, h, d, ents, n - 1, i);
    }
  }

  /** What record `i` of a poll is shown as, given the course it moved on and the one remembered before. */
  function Shown(g: Sphere, e: Entity, course: Option<real>, before: Option<real>): Entity {
    if e.bearing.Some? then e.(source := Feed)
    else if course.None? then e.(bearing := None, source := Unset)
    else e.(bearing := Some(g.round(if before.None? then course.value else g.mean(before.value, course.value))),
            source := Derived)
  }

  /**
   A vehicle with a feed bearing is shown with it; one that has moved is shown with the rounded course from where it
   left, averaged with the course remembered for it if there is one; any other is shown without.
   */
  lemma BearingShown(g: Sphere, cap: nat, c: Cache, ents: seq<Entity>, now: int, i: nat)
    requires i < |ents|
    ensures var c' := Poll(g, cap, c, ents, now);
            var id := ents[i].id;
            var course := CourseOf(g, TrailOf(c'.history, id));
            |c'.frame| == |ents| && c'.version == c.version + 1
            && c'.frame[i] == Shown(g, ents[i], course, if Bare(ents, i, id) &&
                                    course.Some? then course else Get(c.derived, id))
  {
    hide DeriveBearing, CourseOf, Record, DeltaOf;
    var c', id := Poll(g, cap, c, ents, now), ents[i].id;
    var d := Prune(c.derived, Record(c.history, ents, |ents|, now, cap), ents);
    assert id in Ids(ents);
    DerivedIsCourse(g, TrailOf(c'.history, id));
    CourseKept(g, c'.history, d, ents, i, id);
    FilledAt(g, c'.history, d, ents, |ents|, i);
  }

  /**
   Trails outnumber the vehicles of the poll, or a thousand, three to one; the vehicle has one and is not among them.
   */
  predicate Dropped(c: Cache, ents: seq<Entity>, id: Id) {
    |c.history.Keys + Ids(ents)| > 3 * Max(|ents|, 1000) && id in c.history && id !in Ids(ents)
  }

  lemma PrunedAt<V>(m: map<Id, V>, c: Cache, ents: seq<Entity>, now: int, cap: nat, id: Id)
    ensures Get(Prune(m, Record(c.history, ents, |ents|, now, cap), ents), id)
         == if Dropped(c, ents, id) then None else Get(m, id)
  {
    hide Record, IdsOf;
    var recorded := Record(c.history, ents, |ents|, now, cap);
    RecordKeys(c.history, ents, |ents|, now, cap);
    KeysCount(recorded);
  }

  /** The course remembered for a vehicle is the last one it moved on without a bearing of the feed. */
  lemma CourseRemembered(g: Sphere, cap: nat, c: Cache, ents: seq<Entity>, now: int, id: Id)
    ensures var c' := Poll(g, cap, c, ents, now);
            var course := CourseOf(g, TrailOf(c'.history, id));
            Get(c'.derived, id) == if Bare(ents, |ents|, id) && course.Some? then course
                                   else if Dropped(c, ents, id) then None else Get(c.derived, id)
  {
    hide DeriveBearing, CourseOf, Record, DeltaOf, Prune, IdsOf;
    var c' := Poll(g, cap, c, ents, now);
    var recorded := Record(c.history, ents, |ents|, now, cap);
    PrunedAt(c.derived, c, ents, now, cap, id);
    CourseKept(g, c'.history, Prune(c.derived, recorded, ents), ents, |ents|, id);
    BareIsIn(ents, id);
  }

  lemma BareIsIn(ents: seq<Entity>, id: Id)
    ensures Bare(ents, |ents|, id) ==> id in Ids(ents)
  {}

  lemma KeysCount(h: Trails)
    ensures |h| == |h.Keys|
  {}

  /** The last course the vehicle moved on without a bearing of the feed, until it was dropped. */
  ghost function LastCourse(g: Sphere, cap: nat, evs: seq<Event>, n: nat, id: Id): Option<real>
    requires n <= |evs|
  {
    if n == 0 then None
    else
      match evs[n - 1]
      case Purged => LastCourse(g, cap, evs, n - 1, id)
      case Polled(ents, _) =>
        var course := CourseOf(g, TrailOf(Run(g, cap, evs, n).history, id));
        if Bare(ents, |ents|, id) && course.Some? then course
        else if Dropped(Run(g, cap, evs, n - 1), ents, id) then None
        else LastCourse(g, cap, evs, n - 1, id)
  }

  lemma {:induction false} CoursesOverRuns(g: Sphere, cap: nat, evs: seq<Event>, n: nat, id: Id)
    requires n <= |evs|
    ensures Get(Run(g, cap, evs, n).derived, id) == LastCourse(g, cap, evs, n, id)
  {
    hide Poll, CourseOf, Bare, Dropped;
    if n > 0 {
      CoursesOverRuns(g, cap, evs, n - 1, id);
      match evs[n - 1]
      case Purged =>
      case Polled(ents, now) => CourseRemembered(g, cap, Run(g, cap, evs, n - 1), ents, now, id);
    }
  }

  /** So in a run a vehicle is smoothed with the last course it moved on before. */
  lemma BearingOverRuns(g: Sphere, cap: nat, evs: seq<Event>, n: nat, i: nat)
    requires n < |evs| && evs[n].Polled? && i < |evs[n].ents| && Unique(evs[n].ents)
    ensures var c, e := Run(g, cap, evs, n + 1), evs[n].ents[i];
            && i < |c.frame|
            && c.frame[i] == Shown(g, e, CourseOf(g, TrailOf(c.history, e.id)), LastCourse(g, cap, evs, n, e.id))
  {
    hide Poll, CourseOf, Shown, LastCourse;
    BearingShown(g, cap, Run(g, cap, evs, n), evs[n].ents, evs[n].now, i);
    CoursesOverRuns(g, cap, evs, n, evs[n].ents[i].id);
    assert !Bare(evs[n].ents, i, evs[n].ents[i].id);
  }

  // ---- the positions a trail holds ----

  function LastFixes(path: seq<Fix>, cap: nat): seq<Fix> {
    if |path| <= cap then path else path[|path| - cap..]
  }

  /** The path a vehicle has come, a point for every report from somewhere else than the one before. */
  function PathOn(path: seq<Fix>, ents: seq<Entity>, n: nat, now: int, id: Id): seq<Fix>
    requires n <= |ents|
  {
    if n == 0 then path
    else
      var p := PathOn(path, ents, n - 1, now, id);
      if ents[n - 1].id == id then Further(p, ents[n - 1], now) else p
  }

  function Further(p: seq<Fix>, e: Entity, now: int): seq<Fix> {
    if p == [] || (p[|p| - 1].lon, p[|p| - 1].lat) != (e.lon, e.lat)
    then p + [Fix(e.lon, e.lat, if e.ts == 0 then now else e.ts)] else p
  }

  function Path(g: Sphere, cap: nat, evs: seq<Event>, n: nat, id: Id): seq<Fix>
    requires n <= |evs|
  {
    if n == 0 then []
    else
      match evs[n - 1]
      case Purged => []
      case Polled(ents, now) =>
        if Dropped(Run(g, cap, evs, n - 1), ents, id) then []
           else PathOn(Path(g, cap, evs, n - 1, id), ents, |ents|, now, id)
  }

  lemma AppendLast(path: seq<Fix>, p: Fix, cap: nat)
    ensures Append(LastFixes(path, cap), p, cap) == LastFixes(path + [p], cap)
  {}

  lemma ExtendFurther(path: seq<Fix>, e: Entity, now: int, cap: nat)
    ensures Extend(LastFixes(path, cap), e, now, cap) == LastFixes(Further(path, e, now), cap)
  {
    hide Append, LastFixes;
    var fix := Fix(e.lon, e.lat, if e.ts != 0 then e.ts else now);
    AppendLast(path, fix, cap);
    LastOfLast(path, fix, cap);
  }

  lemma {:induction false} RecordPath(h: Trails, path: seq<Fix>, ents: seq<Entity>, n: nat, now: int, cap: nat, id: Id)
    requires n <= |ents| && TrailOf(h, id) == LastFixes(path, cap)
    ensures TrailOf(Record(h, ents, n, now, cap), id) == LastFixes(PathOn(path, ents, n, now, id), cap)
  {
    hide Extend, Further, LastFixes;
    if n > 0 {
      RecordPath(h, path, ents, n - 1, now, cap, id);
      ExtendFurther(PathOn(path, ents, n - 1, now, id), ents[n - 1], now, cap);
    }
  }

  lemma LastOfLast(path: seq<Fix>, p: Fix, cap: nat)
    ensures cap > 0 && path != [] ==>
              LastFixes(path, cap) != [] && LastFixes(path, cap)[|LastFixes(path, cap)| - 1] == path[|path| - 1]
    ensures path == [] || cap == 0 ==> LastFixes(path, cap) == []
    ensures cap == 0 ==> LastFixes(path + [p], cap) == []
  {}

  /** In every run a trail is the last stretch of the vehicle's path, as long as the ring is. */
  lemma {:induction false} TrailIsRecentPath(g: Sphere, cap: nat, evs: seq<Event>, n: nat, id: Id)
    requires n <= |evs|
    ensures TrailOf(Run(g, cap, evs, n).history, id) == LastFixes(Path(g, cap, evs, n, id), cap)
  {
    hide Record, FillAll, PathOn, LastFixes, DeltaOf, Prune, IdsOf, Dropped;
    NoFixes(cap);
    if n > 0 {
      TrailIsRecentPath(g, cap, evs, n - 1, id);
      match evs[n - 1]
      case Purged =>
      case Polled(ents, now) =>
        var c := Run(g, cap, evs, n - 1);
        PrunedAt(Record(c.history, ents, |ents|, now, cap), c, ents, now, cap, id);
        RecordPath(c.history, Path(g, cap, evs, n - 1, id), ents, |ents|, now, cap, id);
    }
  }

  lemma NoFixes(cap: nat)
    ensures LastFixes([], cap) == []
  {}

  // ---- what a delta carries ----

  /** No last record of the vehicle in the frame before has the same position, trip and bearing. */
  predicate News(frame: seq<Entity>, e: Entity) {
    forall p :: && 0 <= p < |frame| && frame[p].id == e.id
                && (forall q :: p < q < |frame| ==> frame[q].id != e.id) ==>
      (frame[p].lat, frame[p].lon, frame[p].tripId, frame[p].bearing) != (e.lat, e.lon, e.tripId, e.bearing)
  }

  predicate Ascending(idx: seq<nat>) {
    forall i, j :: 0 <= i < j < |idx| ==> idx[i] < idx[j]
  }

  lemma {:induction false} ChangedAtAre(prev: map<Id, Entity>, ents: seq<Entity>, n: nat)
    requires n <= |ents|
    ensures Ascending(ChangedAt(prev, ents, n))
    ensures forall i: nat :: i in ChangedAt(prev, ents, n) <==> i < n && Changed(prev, ents[i])
  {
    hide Changed;
    if n > 0 {
      ChangedAtAre(prev, ents, n - 1);
    }
  }

  lemma {:induction false} LastRecord(frame: seq<Entity>, n: nat, id: Id, p: nat)
    requires p < n <= |frame| && frame[p].id == id && forall q :: p < q < n ==> frame[q].id != id
    ensures Get(ByIdOf(frame, n), id) == Some(frame[p])
  {
    if p < n - 1 {
      LastRecord(frame, n - 1, id, p);
    }
  }

  lemma {:induction false} HasLastRecord(frame: seq<Entity>, n: nat, id: Id) returns (p: nat)
    requires n <= |frame| && id in ByIdOf(frame, n)
    ensures p < n && frame[p].id == id && forall q :: p < q < n ==> frame[q].id != id
  {
    if frame[n - 1].id == id {
      p := n - 1;
    } else {
      p := HasLastRecord(frame, n - 1, id);
    }
  }

  lemma ChangedIsNews(frame: seq<Entity>, e: Entity)
    ensures Changed(ById(frame), e) <==> News(frame, e)
  {
    if e.id in ById(frame) {
      var p := HasLastRecord(frame, |frame|, e.id);
      LastRecord(frame, |frame|, e.id, p);
    }
    if !News(frame, e) {
      var p :| && 0 <= p < |frame| && frame[p].id == e.id && (forall q :: p < q < |frame| ==> frame[q].id != e.id)
               && (frame[p].lat, frame[p].lon, frame[p].tripId, frame[p].bearing) == (e.lat, e.lon, e.tripId,
                                                                                      e.bearing);
      LastRecord(frame, |frame|, e.id, p);
    }
  }

  /**
   After a frame with vehicles a delta carries exactly the records that are news, in order, and the ids that are gone.
   */
  lemma DeltaCarriesNews(g: Sphere, cap: nat, c: Cache, ents: seq<Entity>, now: int)
    requires c.frame != []
    ensures var c' := Poll(g, cap, c, ents, now);
            && c'.delta.Some? && |c'.frame| == |ents|
            && (forall id :: id in c'.delta.value.del <==>
                  (exists p :: 0 <= p < |c.frame| && c.frame[p].id == id) && forall i :: 0 <= i < |ents| ==>
                    ents[i].id != id)
            && exists idx: seq<nat> ::
                 && Ascending(idx) && (forall i: nat :: i in idx <==> i < |ents| && News(c.frame, ents[i]))
                 && (forall j :: 0 <= j < |idx| ==> idx[j] < |c'.frame|) && c'.delta.value.upd == Pick(c'.frame, idx)
  {
    hide Record, FillAll, News, ChangedAt, Changed;
    var c', prev := Poll(g, cap, c, ents, now), ById(c.frame);
    PollFrame(g, cap, c, ents, now);
    ByIdKeys(c.frame, |c.frame|);
    assert c.frame[0].id in prev;
    var idx := ChangedAt(prev, ents, |ents|);
    ChangedAtAre(prev, ents, |ents|);
    forall i: nat | i < |ents| ensures Changed(prev, ents[i]) <==> News(c.frame, ents[i]) {
      ChangedIsNews(c.frame, ents[i]);
    }
    forall j | 0 <= j < |idx| ensures idx[j] < |ents| { assert idx[j] in idx; }
    assert c'.delta.value.upd == Pick(c'.frame, idx);
  }
}
