/**
 Server-side deduplication of network shapes: per group the longest shape is kept, then every shape the kept ones
 do not cover. Projection of a point on a line and lengths are parameters.
 */
module Dedupe {
  import opened Util
  import Polyline

  type Line = seq<Polyline.Point>

  datatype Shape = Shape(id: Id, route: Option<Id>, group: Id, encoded: string)

  /** What the geometry library answers, the order of identifiers and the threshold. */
  datatype Rules = Rules(near: (Polyline.Point, Line) -> bool, length: Line -> real, idLe: (Id, Id) -> bool,
                         coverage: real)

  datatype Entry = Entry(id: Id, canonical: bool, standsFor: Option<Id>, length: int, covered: real,
                         represents: seq<Id>)

  predicate Decodable(ms: seq<Shape>) {
    forall i :: 0 <= i < |ms| ==> Polyline.Decode(ms[i].encoded).Some?
  }

  predicate DistinctIds(ms: seq<Shape>) {
    forall i, j :: 0 <= i < j < |ms| ==> ms[i].id != ms[j].id
  }

  function Points(m: Shape): Line {
    var r := Polyline.Decode(m.encoded);
    if r.Some? then r.value else []
  }

  /** `route_id or shape_id`. */
  function Label(m: Shape): Id {
    if m.route == None || m.route.value.text == "" then m.id else m.route.value
  }

  // ---- coverage ----

  predicate NearSome(r: Rules, p: Polyline.Point, kept: seq<Shape>, n: nat)
    requires n <= |kept|
  {
    n > 0 && (NearSome(r, p, kept, n - 1) || r.near(p, Points(kept[n - 1])))
  }

  function Hits(r: Rules, pts: Line, n: nat, kept: seq<Shape>): (h: nat)
    requires n <= |pts|
    ensures h <= n
  {
    if n == 0 then 0 else Hits(r, pts, n - 1, kept) + if NearSome(r, pts[n - 1], kept, |kept|) then 1 else 0
  }

  /** The fraction of points near at least one kept shape; nothing covers nothing. */
  function Coverage(r: Rules, pts: Line, kept: seq<Shape>): real {
    if pts == [] || kept == [] then 0.0 else Share(Hits(r, pts, |pts|, kept), |pts|)
  }

  function Share(h: nat, n: nat): (f: real)
    requires n > 0
  {
    h as real / n as real
  }

  lemma ShareGrows(h: nat, g: nat, n: nat)
    requires h <= g && n > 0
    ensures Share(h, n) <= Share(g, n)
  {}

  lemma {:induction false} NearPrefix(r: Rules, p: Polyline.Point, a: seq<Shape>, b: seq<Shape>, n: nat)
    requires n <= |a| && a <= b
    ensures NearSome(r, p, a, n) == NearSome(r, p, b, n)
  {
    if n > 0 {
      NearPrefix(r, p, a, b, n - 1);
    }
  }

  lemma {:induction false} NearMore(r: Rules, p: Polyline.Point, b: seq<Shape>, n: nat, m: nat)
    requires n <= m <= |b|
    ensures NearSome(r, p, b, n) ==> NearSome(r, p, b, m)
  {
    if n < m {
      NearMore(r, p, b, n, m - 1);
    }
  }

  lemma {:induction false} HitsGrow(r: Rules, pts: Line, n: nat, a: seq<Shape>, b: seq<Shape>)
    requires n <= |pts| && a <= b
    ensures Hits(r, pts, n, a) <= Hits(r, pts, n, b)
  {
    hide NearSome;
    if n > 0 {
      HitsGrow(r, pts, n - 1, a, b);
      NearPrefix(r, pts[n - 1], a, b, |a|);
      NearMore(r, pts[n - 1], b, |a|, |b|);
    }
  }

  /** Keeping more shapes covers no less. */
  lemma CoverageGrows(r: Rules, pts: Line, a: seq<Shape>, b: seq<Shape>)
    requires a <= b
    ensures Coverage(r, pts, a) <= Coverage(r, pts, b)
  {
    if pts != [] && a != [] {
      HitsGrow(r, pts, |pts|, a, b);
      ShareGrows(Hits(r, pts, |pts|, a), Hits(r, pts, |pts|, b), |pts|);
    }
  }

  // ---- one group, its members longest first ----

  predicate LongerFirst(r: Rules, a: Shape, b: Shape) {
    var la, lb := r.length(Points(a)), r.length(Points(b));
    la > lb || (la == lb && r.idLe(a.id, b.id))
  }

  function Sorted(r: Rules, ms: seq<Shape>): seq<Shape> {
    SortBy(ms, (a, b) => LongerFirst(r, a, b))
  }

  /** The kept shape with the same encoding. */
  function TwinOf(kept: seq<Shape>, n: nat, encoded: string): Option<Id>
    requires n <= |kept|
  {
    if n == 0 then None
    else if TwinOf(kept, n - 1, encoded).Some? then TwinOf(kept, n - 1, encoded)
    else if kept[n - 1].encoded == encoded then Some(kept[n - 1].id)
    else None
  }

  /** The first of the kept shapes that covers the points best. */
  function BestCover(r: Rules, pts: Line, kept: seq<Shape>, n: nat): (b: nat)
    requires 0 < n <= |kept|
    ensures b < n
  {
    if n == 1 then 0
    else
      var b := BestCover(r, pts, kept, n - 1);
      if Coverage(r, pts, [kept[n - 1]]) > Coverage(r, pts, [kept[b]]) then n - 1 else b
  }

  lemma {:induction false} BestCoverIs(r: Rules, pts: Line, kept: seq<Shape>, n: nat)
    requires 0 < n <= |kept|
    ensures var b := BestCover(r, pts, kept, n);
            && (forall k :: 0 <= k < n ==> Coverage(r, pts, [kept[k]]) <= Coverage(r, pts, [kept[b]]))
            && (forall k :: 0 <= k < b ==> Coverage(r, pts, [kept[k]]) < Coverage(r, pts, [kept[b]]))
  {
    hide Coverage;
    if n > 1 {
      BestCoverIs(r, pts, kept, n - 1);
    }
  }

  /** Kept, dropped for a shape with the same encoding, or dropped for the kept shape that covers it best. */
  datatype Verdict = Keep(covered: real) | Twin(of: Id) | Covered(of: Id, covered: real)

  function Judge(r: Rules, kept: seq<Shape>, m: Shape): Verdict {
    var twin := TwinOf(kept, |kept|, m.encoded);
    if twin.Some? then Twin(twin.value)
    else
      var cov := Coverage(r, Points(m), kept);
      if kept != [] && cov >= r.coverage then Covered(kept[BestCover(r, Points(m), kept, |kept|)].id, cov)
      else Keep(cov)
  }

  function Kept(r: Rules, ms: seq<Shape>, n: nat): seq<Shape>
    requires n <= |ms|
  {
    if n == 0 then []
    else
      var kept := Kept(r, ms, n - 1);
      if Judge(r, kept, ms[n - 1]).Keep? then kept + [ms[n - 1]] else kept
  }

  function VerdictOn(r: Rules, ms: seq<Shape>, i: nat): Verdict
    requires i < |ms|
  {
    Judge(r, Kept(r, ms, i), ms[i])
  }

  /** The shape that stands for member `i`. */
  function Rep(r: Rules, ms: seq<Shape>, i: nat): Id
    requires i < |ms|
  {
    match VerdictOn(r, ms, i)
    case Keep(_) => ms[i].id
    case Twin(of) => of
    case Covered(id, _) => id
  }

  /** The labels of the first `n` members that shape `c` stands for. */
  function Represented(r: Rules, ms: seq<Shape>, n: nat, c: Id): seq<Id>
    requires n <= |ms|
  {
    if n == 0 then []
    else Represented(r, ms, n - 1, c) + if Rep(r, ms, n - 1) == c then [Label(ms[n - 1])] else []
  }

  /** What is stored about member `i` once `n` members are done. */
  function EntryOf(r: Rules, ms: seq<Shape>, n: nat, i: nat): Entry
    requires i < n <= |ms|
  {
    var len := r.length(Points(ms[i])).Floor;
    match VerdictOn(r, ms, i)
    case Keep(cov) => Entry(ms[i].id, true, None, len, cov, Represented(r, ms, n, ms[i].id))
    case Twin(of) => Entry(ms[i].id, false, Some(of), len, 1.0, [])
    case Covered(id, cov) => Entry(ms[i].id, false, Some(id), len, cov, [])
  }

  // ---- what the entries say ----

  lemma {:induction false} KeptGrows(r: Rules, ms: seq<Shape>, i: nat, n: nat)
    requires i <= n <= |ms|
    ensures Kept(r, ms, i) <= Kept(r, ms, n)
  {
    hide Judge;
    if i < n {
      KeptGrows(r, ms, i, n - 1);
    }
  }

  /** A kept shape is a member with the verdict `Keep`. */
  lemma {:induction false} KeptIsMember(r: Rules, ms: seq<Shape>, n: nat, k: nat) returns (i: nat)
    requires n <= |ms| && k < |Kept(r, ms, n)|
    ensures i < n && Kept(r, ms, n)[k] == ms[i] && VerdictOn(r, ms, i).Keep?
  {
    hide Judge;
    if k < |Kept(r, ms, n - 1)| {
      i := KeptIsMember(r, ms, n - 1, k);
    } else {
      i := n - 1;
    }
  }

  lemma {:induction false} TwinFound(kept: seq<Shape>, n: nat, encoded: string)
    requires n <= |kept|
    ensures TwinOf(kept, n, encoded).Some? ==>
              exists k :: 0 <= k < n && kept[k].id == TwinOf(kept, n, encoded).value && kept[k].encoded == encoded
    ensures TwinOf(kept, n, encoded).None? ==> forall k :: 0 <= k < n ==> kept[k].encoded != encoded
  {
    if n > 0 {
      TwinFound(kept, n - 1, encoded);
    }
  }

  /** The longest member, and of equally long ones the first by identifier, is always canonical. */
  lemma LongestIsCanonical(r: Rules, ms: seq<Shape>)
    requires ms != [] && TotalPreorder(r.idLe)
    ensures var s := Sorted(r, ms);
            && |s| == |ms| && VerdictOn(r, s, 0).Keep?
            && forall m :: m in ms ==> LongerFirst(r, s[0], m)
  {
    hide Points;
    var le := (a, b) => LongerFirst(r, a, b);
    var s := Sorted(r, ms);
    LongerFirstOrders(r);
    SortSorts(ms, le);
    SortPermutes(ms, le);
    SameElements(s, ms);
    assert le(s[0], s[0]);
    forall m | m in ms ensures le(s[0], m) {
      assert m in s;
    }
  }

  lemma LongerFirstOrders(r: Rules)
    requires TotalPreorder(r.idLe)
    ensures TotalPreorder((a, b) => LongerFirst(r, a, b))
  {
    hide Points;
  }

  /** Where member `i` went: to itself, or straight to a canonical member of the group seen before it. */
  lemma StandsForCanonical(r: Rules, ms: seq<Shape>, i: nat) returns (c: nat)
    requires i < |ms|
    ensures c <= i && ms[c].id == Rep(r, ms, i) && VerdictOn(r, ms, c).Keep?
    ensures VerdictOn(r, ms, i).Keep? ==> c == i
    ensures !VerdictOn(r, ms, i).Keep? ==> c < i && ms[c] in Kept(r, ms, i)
    ensures VerdictOn(r, ms, i).Twin? ==> ms[c].encoded == ms[i].encoded
  {
    hide BestCover, Coverage;
    var kept := Kept(r, ms, i);
    match VerdictOn(r, ms, i)
    case Keep(_) => c := i;
    case Twin(of) =>
      TwinFound(kept, |kept|, ms[i].encoded);
      var k :| 0 <= k < |kept| && kept[k].id == of && kept[k].encoded == ms[i].encoded;
      c := KeptIsMember(r, ms, i, k);
    case Covered(_, _) =>
      c := KeptIsMember(r, ms, i, BestCover(r, Points(ms[i]), kept, |kept|));
  }

  /**
   Every shape the output drops is an exact twin of the shape that stands for it, or at least `coverage` covered by
   the shapes the group keeps in the end.
   */
  lemma DroppedIsCovered(r: Rules, ms: seq<Shape>, i: nat)
    requires i < |ms| && !EntryOf(r, ms, |ms|, i).canonical
    ensures var e := EntryOf(r, ms, |ms|, i);
            && e.standsFor.Some? && e.represents == []
            && exists c :: 0 <= c < i && ms[c].id == e.standsFor.value && EntryOf(r, ms, |ms|, c).canonical
                        && (ms[c].encoded == ms[i].encoded
                            || Coverage(r, Points(ms[i]), Kept(r, ms, |ms|)) >= r.coverage)
  {
    hide Kept, Coverage, Represented, Judge;
    var c := StandsForCanonical(r, ms, i);
    KeptGrows(r, ms, i, |ms|);
    CoverageGrows(r, Points(ms[i]), Kept(r, ms, i), Kept(r, ms, |ms|));
    assert VerdictOn(r, ms, i).Covered? ==> Coverage(r, Points(ms[i]), Kept(r, ms, i)) >= r.coverage by {
      CoveredMeans(r, Kept(r, ms, i), ms[i]);
    }
  }

  lemma CoveredMeans(r: Rules, kept: seq<Shape>, m: Shape)
    ensures Judge(r, kept, m).Covered? ==> Coverage(r, Points(m), kept) >= r.coverage
    ensures Judge(r, kept, m).Keep? ==> kept == [] || Coverage(r, Points(m), kept) < r.coverage
    ensures Judge(r, kept, m).Keep? ==> TwinOf(kept, |kept|, m.encoded).None?
  {
    hide Coverage, BestCover, TwinOf, Points;
  }

  /** A canonical shape is no twin of a canonical one before it, nor covered by those. */
  lemma CanonicalIsNeeded(r: Rules, ms: seq<Shape>, c: nat, i: nat)
    requires c < i < |ms| && EntryOf(r, ms, |ms|, c).canonical && EntryOf(r, ms, |ms|, i).canonical
    ensures ms[c].encoded != ms[i].encoded
    ensures ms[c] in Kept(r, ms, i) && Coverage(r, Points(ms[i]), Kept(r, ms, i)) < r.coverage
  {
    hide Coverage, Judge, Represented, Points;
    var kept := Kept(r, ms, i);
    CoveredMeans(r, kept, ms[i]);
    TwinFound(kept, |kept|, ms[i].encoded);
    KeptGrows(r, ms, c + 1, i);
    assert Kept(r, ms, c + 1)[|Kept(r, ms, c)|] == ms[c];
    assert kept[|Kept(r, ms, c)|] == ms[c];
  }

  /** With encodings as the encoder writes them, no two canonical shapes of a group draw the same line. */
  lemma CanonicalsDiffer(r: Rules, ms: seq<Shape>, c: nat, i: nat)
    requires c < i < |ms| && EntryOf(r, ms, |ms|, c).canonical && EntryOf(r, ms, |ms|, i).canonical
    requires Decodable(ms) && Polyline.Minimal(ms[c].encoded) && Polyline.Minimal(ms[i].encoded)
    ensures Points(ms[c]) != Points(ms[i])
  {
    hide EntryOf, Kept, Coverage, Polyline.Encode, Polyline.Decode, Polyline.Minimal;
    CanonicalIsNeeded(r, ms, c, i);
    Polyline.EncodeDecode(ms[c].encoded);
    Polyline.EncodeDecode(ms[i].encoded);
  }

  function Labels(ms: seq<Shape>, n: nat): seq<Id>
    requires n <= |ms|
  {
    if n == 0 then [] else Labels(ms, n - 1) + [Label(ms[n - 1])]
  }

  function Count(s: seq<Id>, x: Id): nat {
    multiset(s)[x]
  }

  lemma CountAppend(s: seq<Id>, y: Id, x: Id)
    ensures Count(s + [y], x) == Count(s, x) + if x == y then 1 else 0
    ensures Count(s + [], x) == Count(s, x)
  {
    assert s + [] == s;
  }

  /** How often `x` is listed by the `represents` lists of the first `j` members. */
  function TimesListed(r: Rules, ms: seq<Shape>, n: nat, j: nat, x: Id): nat
    requires j <= n <= |ms|
  {
    if j == 0 then 0
    else TimesListed(r, ms, n, j - 1, x) + Count(EntryOf(r, ms, n, j - 1).represents, x)
  }

  lemma EntryLists(r: Rules, ms: seq<Shape>, n: nat, i: nat)
    requires i < n <= |ms|
    ensures EntryOf(r, ms, n, i).represents == if VerdictOn(r, ms, i).Keep? then Represented(r, ms, n, ms[i].id) else []
  {
    hide VerdictOn, Represented, Points;
  }

  lemma ListGrows(r: Rules, ms: seq<Shape>, n: nat, c: Id, x: Id)
    requires n < |ms|
    ensures Count(Represented(r, ms, n + 1, c), x) ==
            Count(Represented(r, ms, n, c), x) + if Rep(r, ms, n) == c && Label(ms[n]) == x then 1 else 0
  {
    hide Rep, Label, Count;
    CountAppend(Represented(r, ms, n, c), Label(ms[n]), x);
  }

  /** One more member adds its label to exactly one list, the one of the shape that stands for it. */
  lemma {:induction false} OneMore(r: Rules, ms: seq<Shape>, n: nat, j: nat, c: nat, x: Id)
    requires n < |ms| && j <= n && DistinctIds(ms)
    requires c <= n && ms[c].id == Rep(r, ms, n) && VerdictOn(r, ms, c).Keep?
    ensures TimesListed(r, ms, n + 1, j, x) == TimesListed(r, ms, n, j, x) + if c < j && Label(ms[n]) == x then 1 else 0
  {
    hide VerdictOn, Rep, Label, Count, EntryOf, Represented;
    if j > 0 {
      OneMore(r, ms, n, j - 1, c, x);
      EntryLists(r, ms, n, j - 1);
      EntryLists(r, ms, n + 1, j - 1);
      ListGrows(r, ms, n, ms[j - 1].id, x);
    }
  }

  lemma {:induction false} NothingBefore(r: Rules, ms: seq<Shape>, n: nat, c: nat)
    requires n <= c < |ms| && DistinctIds(ms)
    ensures Represented(r, ms, n, ms[c].id) == []
  {
    hide VerdictOn, Rep, Label;
    if n > 0 {
      NothingBefore(r, ms, n - 1, c);
      var k := StandsForCanonical(r, ms, n - 1);
    }
  }

  /** The `represents` lists together hold one label for each member, and no more. */
  lemma {:induction false} EachMemberOnce(r: Rules, ms: seq<Shape>, n: nat, x: Id)
    requires n <= |ms| && DistinctIds(ms)
    ensures TimesListed(r, ms, n, n, x) == Count(Labels(ms, n), x)
  {
    hide VerdictOn, Rep, Label, Count, EntryOf, Represented;
    CountNone(x);
    if n > 0 {
      EachMemberOnce(r, ms, n - 1, x);
      var c := StandsForCanonical(r, ms, n - 1);
      OneMore(r, ms, n - 1, n - 1, c, x);
      EntryLists(r, ms, n, n - 1);
      ListGrows(r, ms, n - 1, ms[n - 1].id, x);
      NothingBefore(r, ms, n - 1, n - 1);
      if VerdictOn(r, ms, n - 1).Keep? {
        OwnLabel(r, ms, n - 1);
      }
      CountAppend(Labels(ms, n - 1), Label(ms[n - 1]), x);
    }
  }

  lemma CountNone(x: Id)
    ensures Count([], x) == 0
  {}

  lemma OwnLabel(r: Rules, ms: seq<Shape>, i: nat)
    requires i < |ms| && VerdictOn(r, ms, i).Keep?
    ensures Rep(r, ms, i) == ms[i].id
  {
    hide VerdictOn;
  }

  // ---- the whole input ----

  function Members(shapes: seq<Shape>, n: nat, key: Id): seq<Shape>
    requires n <= |shapes|
  {
    if n == 0 then []
    else Members(shapes, n - 1, key) + if shapes[n - 1].group == key then [shapes[n - 1]] else []
  }

  /** The members of a group, longest first. */
  function GroupOf(r: Rules, shapes: seq<Shape>, key: Id): seq<Shape> {
    Sorted(r, Members(shapes, |shapes|, key))
  }

  lemma {:induction false} MembersAre(shapes: seq<Shape>, n: nat, key: Id)
    requires n <= |shapes|
    ensures forall m :: m in Members(shapes, n, key) <==> m in shapes[..n] && m.group == key
  {
    if n > 0 {
      MembersAre(shapes, n - 1, key);
      assert shapes[..n] == shapes[..n - 1] + [shapes[n - 1]];
    }
  }

  lemma {:induction false} MembersDistinct(shapes: seq<Shape>, n: nat, key: Id)
    requires n <= |shapes| && DistinctIds(shapes)
    ensures DistinctIds(Members(shapes, n, key))
  {
    if n > 0 {
      MembersDistinct(shapes, n - 1, key);
      MembersAre(shapes, n - 1, key);
      var ms := Members(shapes, n - 1, key);
      forall j | 0 <= j < |ms| && shapes[n - 1].group == key ensures ms[j].id != shapes[n - 1].id {
        assert ms[j] in ms;
        assert ms[j] in shapes[..n - 1];
      }
    }
  }

  /** Sorting keeps identifiers distinct. */
  lemma {:induction false} InsertDistinct(m: Shape, ms: seq<Shape>, le: (Shape, Shape) -> bool)
    requires DistinctIds(ms) && forall k :: k in ms ==> k.id != m.id
    ensures DistinctIds(InsertBy(m, ms, le))
    ensures forall k :: k in InsertBy(m, ms, le) <==> k == m || k in ms
  {
    if ms != [] && !le(m, ms[0]) {
      assert DistinctIds(ms[1..]);
      InsertDistinct(m, ms[1..], le);
      var rest := InsertBy(m, ms[1..], le);
      forall j | 0 <= j < |rest| ensures rest[j].id != ms[0].id {
        assert rest[j] == m || rest[j] in ms[1..];
      }
    }
  }

  lemma {:induction false} SortDistinct(ms: seq<Shape>, le: (Shape, Shape) -> bool)
    requires DistinctIds(ms)
    ensures DistinctIds(SortBy(ms, le))
    ensures forall k :: k in SortBy(ms, le) <==> k in ms
  {
    if ms != [] {
      assert DistinctIds(ms[1..]);
      SortDistinct(ms[1..], le);
      forall k | k in SortBy(ms[1..], le) ensures k.id != ms[0].id {
        assert k in ms[1..];
      }
      InsertDistinct(ms[0], SortBy(ms[1..], le), le);
      assert ms == [ms[0]] + ms[1..];
    }
  }

  /** The groups partition the shapes, and identifiers stay distinct in each. */
  lemma GroupsPartition(r: Rules, shapes: seq<Shape>, key: Id)
    requires DistinctIds(shapes)
    ensures DistinctIds(GroupOf(r, shapes, key))
    ensures forall m :: m in GroupOf(r, shapes, key) <==> m in shapes && m.group == key
  {
    hide SortBy;
    MembersAre(shapes, |shapes|, key);
    MembersDistinct(shapes, |shapes|, key);
    SortDistinct(Members(shapes, |shapes|, key), (a, b) => LongerFirst(r, a, b));
    assert shapes[..|shapes|] == shapes;
  }

  // ---- the loop as it is written ----

  /** Dictionary `out` holds the entries of the first `n` members of the group and otherwise what it held before. */
  ghost predicate Recorded(r: Rules, ms: seq<Shape>, n: nat, before: map<Id, Entry>, out: map<Id, Entry>)
    requires n <= |ms|
  {
    && (forall i :: 0 <= i < n ==> ms[i].id in out && out[ms[i].id] == EntryOf(r, ms, n, i))
    && (forall id :: id in before ==> id in out && out[id] == before[id])
    && (forall id :: id in out ==> id in before || exists i :: 0 <= i < n && ms[i].id == id)
  }

  ghost predicate TwinsIndexed(kept: seq<Shape>, byEncoded: map<string, Id>) {
    forall e :: Get(byEncoded, e) == TwinOf(kept, |kept|, e)
  }

  lemma IndexNext(kept: seq<Shape>, byEncoded: map<string, Id>, m: Shape)
    requires TwinsIndexed(kept, byEncoded) && TwinOf(kept, |kept|, m.encoded).None?
    ensures TwinsIndexed(kept + [m], byEncoded[m.encoded := m.id])
  {
    hide TwinOf;
    forall e ensures Get(byEncoded[m.encoded := m.id], e) == TwinOf(kept + [m], |kept + [m]|, e) {
      TwinAppend(kept, m, e);
      assert Get(byEncoded, e) == TwinOf(kept, |kept|, e);
    }
  }

  lemma TwinAppend(kept: seq<Shape>, m: Shape, e: string)
    ensures TwinOf(kept + [m], |kept| + 1, e) ==
            if TwinOf(kept, |kept|, e).Some? || m.encoded != e then TwinOf(kept, |kept|, e) else Some(m.id)
  {
    TwinPrefix(kept, kept + [m], |kept|, e);
  }

  lemma {:induction false} TwinPrefix(a: seq<Shape>, b: seq<Shape>, n: nat, encoded: string)
    requires n <= |a| && a <= b
    ensures TwinOf(a, n, encoded) == TwinOf(b, n, encoded)
  {
    if n > 0 {
      TwinPrefix(a, b, n - 1, encoded);
    }
  }

  /** Filing member `n`: its own entry, and its label on the list of the shape that stands for it. */
  lemma RecordNext(r: Rules, ms: seq<Shape>, n: nat, before: map<Id, Entry>, out: map<Id, Entry>, next: map<Id, Entry>)
    requires n < |ms| && DistinctIds(ms) && Recorded(r, ms, n, before, out)
    requires forall i :: 0 <= i < |ms| ==> ms[i].id !in before
    requires next.Keys == out.Keys + {ms[n].id}
    requires var rep := Rep(r, ms, n);
             && next[ms[n].id] == EntryOf(r, ms, n + 1, n)
             && forall id :: id in out ==>
                  next[id] == if id == rep then out[id].(represents := out[id].represents + [Label(ms[n])]) else out[id]
    ensures Recorded(r, ms, n + 1, before, next)
  {
    hide Rep, Label, VerdictOn, Represented, Points, EntryOf;
    var c := StandsForCanonical(r, ms, n);
    forall i | 0 <= i < n + 1 ensures ms[i].id in next && next[ms[i].id] == EntryOf(r, ms, n + 1, i) {
      if i < n {
        EntryNext(r, ms, n, i, c);
        assert out[ms[i].id] == EntryOf(r, ms, n, i);
      }
    }
    forall id | id in next ensures id in before || exists i :: 0 <= i < n + 1 && ms[i].id == id {
      if id in out && id !in before {
        var i :| 0 <= i < n && ms[i].id == id;
        assert ms[i].id == id;
      } else if id !in out {
        assert ms[n].id == id;
      }
    }
    forall id | id in before ensures id in next && next[id] == before[id] {
      assert ms[c].id !in before;
    }
  }

  lemma EntryNext(r: Rules, ms: seq<Shape>, n: nat, i: nat, c: nat)
    requires i < n < |ms| && c <= n && DistinctIds(ms)
    requires ms[c].id == Rep(r, ms, n) && VerdictOn(r, ms, c).Keep?
    ensures var (a, b) := (EntryOf(r, ms, n, i), EntryOf(r, ms, n + 1, i));
            b == if i == c then a.(represents := a.represents + [Label(ms[n])]) else a
  {
    hide Rep, Label, VerdictOn, Points;
  }

  method BestOf(r: Rules, pts: Line, kept: seq<Shape>) returns (best: nat)
    requires kept != []
    ensures best < |kept| && best == BestCover(r, pts, kept, |kept|)
  {
    hide Coverage;
    best := 0;
    for k := 1 to |kept|
      invariant best < k && best == BestCover(r, pts, kept, k)
    {
      if Coverage(r, pts, [kept[k]]) > Coverage(r, pts, [kept[best]]) {
        best := k;
      }
    }
  }

  method DedupeGroup(r: Rules, ms: seq<Shape>, before: map<Id, Entry>) returns (out: map<Id, Entry>)
    requires DistinctIds(ms) && forall i :: 0 <= i < |ms| ==> ms[i].id !in before
    ensures Recorded(r, ms, |ms|, before, out)
  {
    hide Coverage, BestCover, Points, Label, TwinsIndexed, Recorded, Represented, TwinOf;
    out := before;
    var kept: seq<Shape>, byEncoded: map<string, Id> := [], map[];
    StartGroup(r, ms, before);
    for n := 0 to |ms|
      invariant kept == Kept(r, ms, n)
      invariant TwinsIndexed(kept, byEncoded) && Recorded(r, ms, n, before, out)
    {
      var m := ms[n];
      ghost var was := out;
      ghost var c := StandsForCanonical(r, ms, n);
      RecordedAt(r, ms, n, before, out, c);
      TwinsAt(kept, byEncoded, m.encoded);
      var length := r.length(Points(m)).Floor;
      if m.encoded in byEncoded {
        var twin := byEncoded[m.encoded];
        out := out[m.id := Entry(m.id, false, Some(twin), length, 1.0, [])];
        out := out[twin := out[twin].(represents := out[twin].represents + [Label(m)])];
      } else {
        var cov := if kept != [] then Coverage(r, Points(m), kept) else 0.0;
        NoCover(r, Points(m));
        if kept != [] && cov >= r.coverage {
          var best := BestOf(r, Points(m), kept);
          var id := kept[best].id;
          out := out[m.id := Entry(m.id, false, Some(id), length, cov, [])];
          out := out[id := out[id].(represents := out[id].represents + [Label(m)])];
        } else {
          IndexNext(kept, byEncoded, m);
          kept := kept + [m];
          byEncoded := byEncoded[m.encoded := m.id];
          out := out[m.id := Entry(m.id, true, None, length, cov, [Label(m)])];
          FirstLabel(r, ms, n);
        }
      }
      RecordNext(r, ms, n, before, was, out);
    }
  }

  lemma StartGroup(r: Rules, ms: seq<Shape>, before: map<Id, Entry>)
    ensures Recorded(r, ms, 0, before, before) && TwinsIndexed([], map[])
  {}

  lemma TwinsAt(kept: seq<Shape>, byEncoded: map<string, Id>, e: string)
    requires TwinsIndexed(kept, byEncoded)
    ensures Get(byEncoded, e) == TwinOf(kept, |kept|, e)
  {}

  lemma NoCover(r: Rules, pts: Line)
    ensures Coverage(r, pts, []) == 0.0
  {}

  lemma RecordedAt(r: Rules, ms: seq<Shape>, n: nat, before: map<Id, Entry>, out: map<Id, Entry>, c: nat)
    requires c <= n < |ms| && Recorded(r, ms, n, before, out) && DistinctIds(ms) && ms[n].id !in before
    ensures c < n ==> ms[c].id in out
    ensures ms[n].id !in out
  {
    hide EntryOf;
  }

  /** A newly kept shape starts its list with its own label. */
  lemma FirstLabel(r: Rules, ms: seq<Shape>, n: nat)
    requires n < |ms| && DistinctIds(ms) && VerdictOn(r, ms, n).Keep?
    ensures Represented(r, ms, n + 1, ms[n].id) == [Label(ms[n])]
  {
    hide Rep, Label, VerdictOn;
    NothingBefore(r, ms, n, n);
    OwnLabel(r, ms, n);
  }

  /** The keys of the groups dictionary, in the order they were first met. */
  predicate KeysOf(shapes: seq<Shape>, n: nat, keys: seq<Id>)
    requires n <= |shapes|
  {
    && (forall i, j :: 0 <= i < j < |keys| ==> keys[i] != keys[j])
    && (forall i :: 0 <= i < n ==> shapes[i].group in keys)
  }

  lemma MembersNext(shapes: seq<Shape>, n: nat, k: Id)
    requires n < |shapes|
    ensures Members(shapes, n + 1, k) == if shapes[n].group == k then Members(shapes, n, k) + [shapes[n]]
                                         else Members(shapes, n, k)
    ensures Members(shapes, 0, k) == []
  {}

  lemma KeysNext(shapes: seq<Shape>, n: nat, keys: seq<Id>)
    requires n < |shapes| && KeysOf(shapes, n, keys)
    ensures KeysOf(shapes, n + 1, if shapes[n].group in keys then keys else keys + [shapes[n].group])
  {}

  method GroupShapes(shapes: seq<Shape>) returns (keys: seq<Id>, groups: map<Id, seq<Shape>>)
    ensures KeysOf(shapes, |shapes|, keys) && forall k :: k in keys ==>
              k in groups && groups[k] == Members(shapes, |shapes|, k)
  {
    hide Members, KeysOf;
    keys, groups := [], map[];
    NoKeys(shapes);
    for n := 0 to |shapes|
      invariant KeysOf(shapes, n, keys)
      invariant forall k :: k in groups <==> k in keys
      invariant forall k :: Members(shapes, n, k) == if k in groups then groups[k] else []
    {
      var s := shapes[n];
      KeysNext(shapes, n, keys);
      forall k ensures Members(shapes, n + 1, k) == if s.group == k then Members(shapes, n, k) + [s]
                                                    else Members(shapes, n, k) {
        MembersNext(shapes, n, k);
      }
      if s.group !in groups {
        groups := groups[s.group := []];
        keys := keys + [s.group];
      }
      groups := groups[s.group := groups[s.group] + [s]];
    }
  }

  lemma NoKeys(shapes: seq<Shape>)
    ensures KeysOf(shapes, 0, []) && forall k :: Members(shapes, 0, k) == []
  {}

  /** Entries of the groups `keys[..n]`, and of nothing else. */
  ghost predicate Filed(r: Rules, shapes: seq<Shape>, keys: seq<Id>, n: nat, out: map<Id, Entry>)
    requires n <= |keys|
  {
    && (forall k :: 0 <= k < n ==> GroupFiled(r, GroupOf(r, shapes, keys[k]), out))
    && (forall id :: id in out ==> exists k :: 0 <= k < n && InGroup(GroupOf(r, shapes, keys[k]), id))
  }

  ghost predicate GroupFiled(r: Rules, ms: seq<Shape>, out: map<Id, Entry>) {
    forall i :: 0 <= i < |ms| ==> ms[i].id in out && out[ms[i].id] == EntryOf(r, ms, |ms|, i)
  }

  ghost predicate InGroup(ms: seq<Shape>, id: Id) {
    exists i :: 0 <= i < |ms| && ms[i].id == id
  }

  lemma GroupsApart(r: Rules, shapes: seq<Shape>, a: Id, b: Id, i: nat)
    requires DistinctIds(shapes) && a != b && i < |GroupOf(r, shapes, a)|
    ensures !InGroup(GroupOf(r, shapes, b), GroupOf(r, shapes, a)[i].id)
  {
    hide GroupOf;
    var x, y := GroupOf(r, shapes, a), GroupOf(r, shapes, b);
    GroupsPartition(r, shapes, a);
    GroupsPartition(r, shapes, b);
    assert x[i] in shapes && x[i].group == a;
    forall j | 0 <= j < |y| ensures y[j].id != x[i].id {
      assert y[j] in shapes && y[j].group == b;
    }
  }

  /** Every group's entries are those of the group alone, and there is an entry for every shape and no other. */
  method DedupeShapes(r: Rules, shapes: seq<Shape>) returns (out: map<Id, Entry>)
    requires DistinctIds(shapes) && Decodable(shapes)
    ensures forall s :: s in shapes ==> GroupFiled(r, GroupOf(r, shapes, s.group), out)
    ensures forall id :: id in out <==> InGroup(shapes, id)
  {
    hide SortBy, Recorded, GroupFiled, InGroup;
    var keys, groups := GroupShapes(shapes);
    out := map[];
    for n := 0 to |keys|
      invariant Filed(r, shapes, keys, n, out)
    {
      var ms := Sorted(r, groups[keys[n]]);
      GroupsPartition(r, shapes, keys[n]);
      NotYetFiled(r, shapes, keys, n, out);
      ghost var before := out;
      out := DedupeGroup(r, ms, out);
      FileGroup(r, shapes, keys, n, before, out);
    }
    FiledAll(r, shapes, keys, out);
  }

  lemma NotYetFiled(r: Rules, shapes: seq<Shape>, keys: seq<Id>, n: nat, out: map<Id, Entry>)
    requires DistinctIds(shapes) && KeysOf(shapes, |shapes|, keys) && n < |keys| && Filed(r, shapes, keys, n, out)
    ensures forall i :: 0 <= i < |GroupOf(r, shapes, keys[n])| ==> GroupOf(r, shapes, keys[n])[i].id !in out
  {
    hide GroupOf, InGroup, GroupFiled;
    forall i | 0 <= i < |GroupOf(r, shapes, keys[n])| ensures GroupOf(r, shapes, keys[n])[i].id !in out {
      forall k | 0 <= k < n ensures !InGroup(GroupOf(r, shapes, keys[k]), GroupOf(r, shapes, keys[n])[i].id) {
        GroupsApart(r, shapes, keys[n], keys[k], i);
      }
    }
  }

  lemma FileGroup(r: Rules, shapes: seq<Shape>, keys: seq<Id>, n: nat, before: map<Id, Entry>, out: map<Id, Entry>)
    requires n < |keys| && Filed(r, shapes, keys, n, before)
    requires Recorded(r, GroupOf(r, shapes, keys[n]), |GroupOf(r, shapes, keys[n])|, before, out)
    ensures Filed(r, shapes, keys, n + 1, out)
  {
    hide GroupOf, EntryOf;
    forall k | 0 <= k < n + 1 ensures GroupFiled(r, GroupOf(r, shapes, keys[k]), out) {
      if k < n { assert GroupFiled(r, GroupOf(r, shapes, keys[k]), before); }
    }
    forall id | id in out ensures exists k :: 0 <= k < n + 1 && InGroup(GroupOf(r, shapes, keys[k]), id) {
      if id in before {
        var k :| 0 <= k < n && InGroup(GroupOf(r, shapes, keys[k]), id);
        assert k < n + 1;
      } else {
        assert InGroup(GroupOf(r, shapes, keys[n]), id);
      }
    }
  }

  lemma FiledAll(r: Rules, shapes: seq<Shape>, keys: seq<Id>, out: map<Id, Entry>)
    requires DistinctIds(shapes) && KeysOf(shapes, |shapes|, keys) && Filed(r, shapes, keys, |keys|, out)
    ensures forall s :: s in shapes ==> GroupFiled(r, GroupOf(r, shapes, s.group), out)
    ensures forall id :: id in out <==> InGroup(shapes, id)
  {
    hide GroupOf, EntryOf;
    forall s | s in shapes ensures GroupFiled(r, GroupOf(r, shapes, s.group), out) {
      var k :| 0 <= k < |keys| && keys[k] == s.group;
    }
    forall id | id in out ensures InGroup(shapes, id) {
      var k :| 0 <= k < |keys| && InGroup(GroupOf(r, shapes, keys[k]), id);
      GroupsPartition(r, shapes, keys[k]);
      var ms := GroupOf(r, shapes, keys[k]);
      var i :| 0 <= i < |ms| && ms[i].id == id;
      assert ms[i] in shapes;
    }
    forall id | InGroup(shapes, id) ensures id in out {
      var i :| 0 <= i < |shapes| && shapes[i].id == id;
      var s := shapes[i];
      assert s in shapes;
      GroupsPartition(r, shapes, s.group);
      assert GroupFiled(r, GroupOf(r, shapes, s.group), out);
    }
  }
}
