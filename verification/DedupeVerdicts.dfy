/**
 Which shapes of a group are canonical, said of the shapes themselves: by how many of a shape's points lie near the
 canonical ones before it.
 */
module DedupeVerdicts {
  import opened Util
  import Polyline
  import opened Dedupe

  // ---- coverage ----

  /** Point `i` lies near one of the shapes. */
  predicate NearAny(r: Rules, pts: Line, i: int, kept: seq<Shape>)
    requires 0 <= i < |pts|
  {
    exists k :: 0 <= k < |kept| && r.near(pts[i], Points(kept[k]))
  }

  function NearPoints(r: Rules, pts: Line, n: nat, kept: seq<Shape>): set<int>
    requires n <= |pts|
  {
    set i | 0 <= i < n && NearAny(r, pts, i, kept)
  }

  lemma {:induction false} NearSomeIs(r: Rules, p: Polyline.Point, kept: seq<Shape>, n: nat)
    requires n <= |kept|
    ensures NearSome(r, p, kept, n) <==> exists k :: 0 <= k < n && r.near(p, Points(kept[k]))
  {
    hide Points;
    if n > 0 {
      NearSomeIs(r, p, kept, n - 1);
    }
  }

  lemma {:induction false} HitsAre(r: Rules, pts: Line, n: nat, kept: seq<Shape>)
    requires n <= |pts|
    ensures Hits(r, pts, n, kept) == |NearPoints(r, pts, n, kept)|
  {
    hide NearAny, NearSome;
    if n > 0 {
      HitsAre(r, pts, n - 1, kept);
      NearLast(r, pts, n - 1, kept);
      assert NearPoints(r, pts, n, kept) ==
             NearPoints(r, pts, n - 1, kept) + if NearAny(r, pts, n - 1, kept) then {n - 1} else {};
    }
  }

  lemma NearLast(r: Rules, pts: Line, i: nat, kept: seq<Shape>)
    requires i < |pts|
    ensures NearSome(r, pts[i], kept, |kept|) <==> NearAny(r, pts, i, kept)
  {
    NearSomeIs(r, pts[i], kept, |kept|);
  }

  /** The coverage is the share of the points that lie near one of the shapes at least, and none without a point. */
  lemma CoverageIs(r: Rules, pts: Line, kept: seq<Shape>)
    ensures pts == [] ==> Coverage(r, pts, kept) == 0.0
    ensures pts != [] ==> Coverage(r, pts, kept) == |NearPoints(r, pts, |pts|, kept)| as real / |pts| as real
  {
    if pts != [] {
      HitsAre(r, pts, |pts|, kept);
      if kept == [] {
        assert NearPoints(r, pts, |pts|, kept) == {};
      }
    }
  }

  /** The points of a shape are those its text encodes, in order. */
  lemma PointsAre(m: Shape, pts: Line)
    requires m.encoded == Polyline.Encode(pts)
    ensures Points(m) == pts
  {
    Polyline.DecodeEncode(pts);
  }

  // ---- who is canonical ----

  predicate Canonical(r: Rules, ms: seq<Shape>, i: int)
    requires 0 <= i < |ms|
  {
    VerdictOn(r, ms, i).Keep?
  }

  lemma {:induction false} KeptAre(r: Rules, ms: seq<Shape>, n: nat, m: Shape)
    requires n <= |ms|
    ensures m in Kept(r, ms, n) <==> exists j :: 0 <= j < n && Canonical(r, ms, j) && ms[j] == m
  {
    hide Judge;
    if n > 0 {
      KeptAre(r, ms, n - 1, m);
      if m in Kept(r, ms, n) && m !in Kept(r, ms, n - 1) {
        assert Canonical(r, ms, n - 1) && ms[n - 1] == m;
      }
    }
  }

  /** Point `p` of member `i` lies near a canonical member before it. */
  predicate NearCanonical(r: Rules, ms: seq<Shape>, i: int, p: int)
    requires 0 <= i < |ms| && 0 <= p < |Points(ms[i])|
  {
    exists j :: 0 <= j < i && Canonical(r, ms, j) && r.near(Points(ms[i])[p], Points(ms[j]))
  }

  function NearPart(r: Rules, ms: seq<Shape>, i: int): real
    requires 0 <= i < |ms|
  {
    var pts := Points(ms[i]);
    var near := set p | 0 <= p < |pts| && NearCanonical(r, ms, i, p);
    if pts == [] then 0.0 else |near| as real / |pts| as real
  }

  lemma NearPartIs(r: Rules, ms: seq<Shape>, i: nat)
    requires i < |ms|
    ensures Coverage(r, Points(ms[i]), Kept(r, ms, i)) == NearPart(r, ms, i)
  {
    hide Points, Kept, Canonical, Coverage;
    var pts, kept := Points(ms[i]), Kept(r, ms, i);
    CoverageIs(r, pts, kept);
    forall p | 0 <= p < |pts| ensures NearAny(r, pts, p, kept) <==> NearCanonical(r, ms, i, p) {
      if NearAny(r, pts, p, kept) {
        var k :| 0 <= k < |kept| && r.near(pts[p], Points(kept[k]));
        assert kept[k] in kept;
        KeptAre(r, ms, i, kept[k]);
      }
      if NearCanonical(r, ms, i, p) {
        var j :| 0 <= j < i && Canonical(r, ms, j) && r.near(pts[p], Points(ms[j]));
        KeptAre(r, ms, i, ms[j]);
        var k :| 0 <= k < |kept| && kept[k] == ms[j];
        assert r.near(pts[p], Points(kept[k]));
      }
    }
    assert NearPoints(r, pts, |pts|, kept) == set p | 0 <= p < |pts| && NearCanonical(r, ms, i, p);
  }

  /**
   A member is canonical exactly when no canonical member before it has the same text and fewer of its points than the
   threshold asks for lie near canonical members before it; the first always is. Its entry says which part does.
   */
  lemma CanonicalExactly(r: Rules, ms: seq<Shape>, n: nat, i: nat)
    requires i < n <= |ms|
    ensures Canonical(r, ms, i) <==>
            && (forall j :: 0 <= j < i && Canonical(r, ms, j) ==> ms[j].encoded != ms[i].encoded)
            && ((exists j :: 0 <= j < i && Canonical(r, ms, j)) ==> NearPart(r, ms, i) < r.coverage)
    ensures var e := EntryOf(r, ms, n, i);
            && e.id == ms[i].id && e.canonical == Canonical(r, ms, i) && e.standsFor.None? == e.canonical
            && e.length == r.length(Points(ms[i])).Floor && (!e.canonical ==> e.represents == [])
            && e.covered == if exists j :: 0 <= j < i && Canonical(r, ms, j) && ms[j].encoded == ms[i].encoded then 1.0
                            else NearPart(r, ms, i)
  {
    hide Points, Kept, Canonical, Coverage, NearPart;
    var kept := Kept(r, ms, i);
    NearPartIs(r, ms, i);
    SomeKept(r, ms, i);
    CanonicalIs(r, ms, i);
    TwinExactly(r, ms, i);
    assert TwinOf(kept, |kept|, ms[i].encoded).None? <==>
           forall j :: 0 <= j < i && Canonical(r, ms, j) ==> ms[j].encoded != ms[i].encoded;
  }

  lemma SomeKept(r: Rules, ms: seq<Shape>, i: nat)
    requires i <= |ms|
    ensures Kept(r, ms, i) != [] <==> exists j :: 0 <= j < i && Canonical(r, ms, j)
  {
    hide Kept, Canonical;
    var kept := Kept(r, ms, i);
    if kept != [] {
      assert kept[0] in kept;
      KeptAre(r, ms, i, kept[0]);
    }
    if j :| 0 <= j < i && Canonical(r, ms, j) {
      KeptAre(r, ms, i, ms[j]);
    }
  }

  lemma CanonicalIs(r: Rules, ms: seq<Shape>, i: nat)
    requires i < |ms|
    ensures Canonical(r, ms, i) <==> VerdictOn(r, ms, i).Keep?
  {}

  lemma TwinExactly(r: Rules, ms: seq<Shape>, i: nat)
    requires i < |ms|
    ensures (exists j :: 0 <= j < i && Canonical(r, ms, j) && ms[j].encoded == ms[i].encoded) <==>
            TwinOf(Kept(r, ms, i), |Kept(r, ms, i)|, ms[i].encoded).Some?
  {
    hide Kept, Canonical;
    var kept := Kept(r, ms, i);
    TwinFound(kept, |kept|, ms[i].encoded);
    if j :| 0 <= j < i && Canonical(r, ms, j) && ms[j].encoded == ms[i].encoded {
      KeptAre(r, ms, i, ms[j]);
      var k :| 0 <= k < |kept| && kept[k] == ms[j];
      assert kept[k].encoded == ms[i].encoded;
    }
    if TwinOf(kept, |kept|, ms[i].encoded).Some? {
      var k :| 0 <= k < |kept| && kept[k].encoded == ms[i].encoded;
      assert kept[k] in kept;
      KeptAre(r, ms, i, kept[k]);
    }
  }

  /** A group is gone through from the longest shape down, equally long ones in the order of their identifiers. */
  lemma LongestFirst(r: Rules, ms: seq<Shape>, i: nat, j: nat)
    requires TotalPreorder(r.idLe) && i < j < |Sorted(r, ms)|
    ensures var (a, b) := (Sorted(r, ms)[i], Sorted(r, ms)[j]);
            && r.length(Points(a)) >= r.length(Points(b))
            && (r.length(Points(a)) == r.length(Points(b)) ==> r.idLe(a.id, b.id))
    ensures multiset(Sorted(r, ms)) == multiset(ms)
  {
    hide Points;
    LongerFirstOrders(r);
    SortSorts(ms, (a, b) => LongerFirst(r, a, b));
    SortPermutes(ms, (a, b) => LongerFirst(r, a, b));
  }

  lemma {:induction false} RepresentedHas(r: Rules, ms: seq<Shape>, n: nat, i: nat)
    requires i < n <= |ms|
    ensures Label(ms[i]) in Represented(r, ms, n, Rep(r, ms, i))
  {
    hide Rep, Label;
    if i < n - 1 {
      RepresentedHas(r, ms, n - 1, i);
    }
  }

  /** Every member is on the list of a canonical one, by its route or, where it has none, by its own name. */
  lemma EveryRouteListed(r: Rules, ms: seq<Shape>, i: nat)
    requires i < |ms|
    ensures exists c :: 0 <= c <= i && EntryOf(r, ms, |ms|, c).canonical
                     && (if ms[i].route.Some? && ms[i].route.value.text != "" then ms[i].route.value else ms[i].id)
                        in EntryOf(r, ms, |ms|, c).represents
  {
    hide Judge, Kept, Represented;
    var c := StandsForCanonical(r, ms, i);
    RepresentedHas(r, ms, |ms|, i);
    assert EntryOf(r, ms, |ms|, c).canonical;
  }
}
