/**
 What happens to a board, row by row, when the predictions of its stop are paired with it: exactly which arrival a row
 takes and what it shows then, which arrivals count at all, and how those that are left over appear.
 */
module PredictionRows {
  import opened Util
  import opened Predictions

  // ---- routes ----

  lemma {:induction false} ColonIs(s: string, i: nat)
    requires i <= |s|
    ensures forall k :: i <= k < Colon(s, i) ==> s[k] != ':'
    ensures Colon(s, i) < |s| ==> s[Colon(s, i)] == ':'
    decreases |s| - i
  {
    if i < |s| && s[i] != ':' {
      ColonIs(s, i + 1);
    }
  }

  /** A route is compared without the scope in front of its first colon; what follows may have colons of its own. */
  lemma ScopeIsDropped(scope: string, route: string)
    requires ':' !in scope
    ensures RawRoute(scope + ":" + route) == route && RawRoute(scope) == scope
  {
    var s := scope + ":" + route;
    ColonIs(s, 0);
    ColonIs(scope, 0);
    forall k | 0 <= k < |scope| ensures s[k] == scope[k] && s[k] != ':' { assert scope[k] in scope; }
    assert s[|scope|] == ':';
    assert Colon(s, 0) == |scope|;
    assert s[|scope| + 1..] == route;
  }

  // ---- one turn ----

  /** A row with a scheduled time, due at that instant, that shows no realtime time yet. */
  predicate Waiting(c: Clock, d: Row, due: int) {
    && d.scheduled.Some? && d.scheduled.value.text != "" && c.epoch(d.scheduled.value) == Some(due)
    && (d.realtimeTime.Some? ==> d.realtimeTime.value.text == "")
  }

  /** An arrival of the row's route, as far as both are known, at most the window before or after it is due. */
  predicate Suits(window: int, a: Arrival, d: Row, due: int) {
    && (a.route == "" || RawRoute(d.route) == "" || a.route == RawRoute(d.route))
    && a.eta.Some? && due - window <= a.eta.value <= due + window
  }

  /** `a` is no farther from the instant than `b`. */
  predicate NoFarther(a: Arrival, b: Arrival, due: int) {
    a.eta.Some? && b.eta.Some? &&
    if a.eta.value < due then b.eta.value <= a.eta.value || b.eta.value - due >= due - a.eta.value
    else b.eta.value >= a.eta.value || due - b.eta.value >= a.eta.value - due
  }

  /** The row took `a`: it shows the arrival's time and how far that is from the scheduled one, and `a` is used up. */
  ghost predicate Takes(c: Clock, window: int, left: seq<Arrival>, d: Row, due: int, a: Arrival, after: Row,
                        next: seq<Arrival>) {
    && a in left && Suits(window, a, d, due)
    && (forall b :: b in left && Suits(window, b, d, due) ==> NoFarther(a, b, due))
    && after == Row(d.route, d.tripId, d.scheduled, Some(c.iso(a.eta.value)), true, Some(a.eta.value - due),
                    Some("stop"), d.stopSequence)
    && multiset(next) + multiset{a} == multiset(left)
  }

  predicate AllTimed(s: seq<Arrival>) {
    forall a :: a in s ==> a.eta.Some?
  }

  lemma FitsIsSuits(c: Clock, window: int, a: Arrival, d: Row, due: int)
    requires Waiting(c, d, due) && a.eta.Some?
    ensures Open(c, d) && Due(c, d) == due && Eta(a) == a.eta.value
    ensures Fits(c, window, a, d) <==> Suits(window, a, d, due)
  {
    hide RawRoute;
  }

  lemma GapIsDistance(c: Clock, a: Arrival, b: Arrival, d: Row, due: int)
    requires Waiting(c, d, due) && a.eta.Some? && b.eta.Some? && Open(c, d)
    ensures Gap(c, a, d) <= Gap(c, b, d) <==> NoFarther(a, b, due)
  {}

  lemma OpenIsWaiting(c: Clock, d: Row)
    ensures Open(c, d) <==> exists due :: Waiting(c, d, due)
  {
    if Open(c, d) {
      assert Waiting(c, d, Due(c, d));
    }
  }

  /**
   At its turn a waiting row takes an arrival exactly when one that suits it is left: the nearest, which nobody can
   take after it. A row that is not waiting, or that nothing suits, stays as it is and takes nothing.
   */
  lemma TurnExactly(c: Clock, window: int, pool: seq<Arrival>, rows: seq<Row>, i: nat, due: int)
    requires i < |rows| && AllTimed(pool)
    ensures var (left, next) := (Left(c, window, pool, rows, i), Left(c, window, pool, rows, i + 1));
            var (d, after) := (rows[i], Paired(c, window, pool, rows, i));
            && (Waiting(c, d, due) && (exists a :: a in left && Suits(window, a, d, due)) ==>
                  exists a :: Takes(c, window, left, d, due, a, after, next))
            && ((Waiting(c, d, due) && forall a :: a in left ==> !Suits(window, a, d, due)) ==>
                  after == d && next == left)
            && ((forall t :: !Waiting(c, d, t)) ==> after == d && next == left)
    ensures Left(c, window, pool, rows, 0) == pool
  {
    hide Open, Choice, Left, Paired, RemoveFirst, Fits, Gap, Suits, Waiting, NoFarther;
    var left := Left(c, window, pool, rows, i);
    var d := rows[i];
    NobodyYet(c, window, pool, rows);
    LeftShrinks(c, window, pool, rows, 0, i);
    Turn(c, window, pool, rows, i);
    OpenIsWaiting(c, d);
    ChoiceIsUnused(c, window, left, d);
    if Waiting(c, d, due) {
      forall a | a in left ensures Fits(c, window, a, d) <==> Suits(window, a, d, due) {
        FitsIsSuits(c, window, a, d, due);
      }
      var choice := Choice(c, window, left, d);
      if choice.Some? {
        TakesChoice(c, window, left, d, due, choice.value);
      }
    }
  }

  lemma TakesChoice(c: Clock, window: int, left: seq<Arrival>, d: Row, due: int, a: Arrival)
    requires Waiting(c, d, due) && Open(c, d) && AllTimed(left) && a in left && Suits(window, a, d, due)
    requires forall b :: b in left && Fits(c, window, b, d) ==> Gap(c, a, d) <= Gap(c, b, d)
    ensures Takes(c, window, left, d, due, a, Filled(c, d, a), RemoveFirst(left, a))
  {
    hide Open, Fits, Gap, Suits, Waiting, NoFarther;
    RemovePermutes(left, a);
    FitsIsSuits(c, window, a, d, due);
    forall b | b in left && Suits(window, b, d, due) ensures NoFarther(a, b, due) {
      FitsIsSuits(c, window, b, d, due);
      GapIsDistance(c, a, b, d, due);
    }
  }

  // ---- which arrivals count ----

  lemma {:induction false} RecentIs(arrivals: seq<Arrival>, n: nat, now: int, a: Arrival)
    requires n <= |arrivals| && now > 120
    ensures a in RecentOf(arrivals, n, now) <==>
            (exists i :: 0 <= i < n && arrivals[i] == a) && a.eta.Some? && now - a.eta.value <= 120
  {
    if n > 0 {
      RecentIs(arrivals, n - 1, now, a);
    }
  }

  /** An arrival counts if it has a time that is at most two minutes past; the soonest has its turn first. */
  lemma PoolIs(arrivals: seq<Arrival>, now: int, a: Arrival)
    requires now > 120
    ensures a in Pool(arrivals, now) <==> a in arrivals && a.eta.Some? && now - a.eta.value <= 120
    ensures AllTimed(Pool(arrivals, now))
    ensures forall i, j :: 0 <= i < j < |Pool(arrivals, now)| ==>
              Pool(arrivals, now)[i].eta.value <= Pool(arrivals, now)[j].eta.value
  {
    hide RecentOf, Pool;
    PoolIsRecent(arrivals, now);
    SameElements(Pool(arrivals, now), RecentOf(arrivals, |arrivals|, now));
    RecentIs(arrivals, |arrivals|, now, a);
    forall b | b in Pool(arrivals, now) ensures b.eta.Some? { RecentIs(arrivals, |arrivals|, now, b); }
    forall i, j | 0 <= i < j < |Pool(arrivals, now)|
      ensures Pool(arrivals, now)[i].eta.value <= Pool(arrivals, now)[j].eta.value
    {
      var pool := Pool(arrivals, now);
      assert pool[i] in pool && pool[j] in pool && Eta(pool[i]) <= Eta(pool[j]);
    }
  }

  // ---- what is left over ----

  /**
   An arrival that nobody took is on the merged board as often as it is listed, at its own time, in its own route, and
   claims neither a trip nor a scheduled time.
   */
  lemma LeftoverIsShown(c: Clock, scoped: string -> string, a: Arrival, rows: seq<Row>)
    requires a.eta.Some? && c.iso(a.eta.value).text != ""
    ensures var x := Extra(c, scoped, a);
            && multiset(Merged(c, rows))[x] == multiset(rows)[x]
            && Effective(x) == Some(c.iso(a.eta.value)) && x.realtime && x.source == Some("stop")
            && x.tripId.None? && x.scheduled.None? && x.delay.None? && x.stopSequence == a.position
            && x.route == if a.route == "" then "" else scoped(a.route)
  {
    hide Merged;
    var x := Extra(c, scoped, a);
    MergedKeepsUntracked(c, rows, x);
  }

  /** The board is in order of what each row shows: its realtime time where it has one, its scheduled time elsewhere. */
  lemma ShownInOrder(c: Clock, rows: seq<Row>, j: nat, k: nat)
    requires TotalPreorder(c.le) && Timed(rows) && j < k < |Merged(c, rows)|
    ensures var (a, b) := (Merged(c, rows)[j], Merged(c, rows)[k]);
            var s := if a.realtimeTime.None? || a.realtimeTime.value.text == "" then a.scheduled else a.realtimeTime;
            var t := if b.realtimeTime.None? || b.realtimeTime.value.text == "" then b.scheduled else b.realtimeTime;
            s.Some? && t.Some? && c.le(s.value, t.value)
    ensures var (a, b) := (Merged(c, rows)[j], Merged(c, rows)[k]);
            a.tripId.Some? && a.tripId.value.text != "" ==> a.tripId != b.tripId
  {
    hide Merged;
    MergedIsSorted(c, rows, j, k);
  }
}
