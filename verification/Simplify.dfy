/**
 Douglas-Peucker simplification of a polyline with an explicit stack, against its recursive form.
 The length of a vector is any non-negative function of its components.
 */
module Simplify {
  type Hypot = h: (real, real) -> real | forall a, b :: h(a, b) >= 0.0 witness (a, b) => 0.0

  datatype Point = Point(x: real, y: real)

  function Abs(a: real): real {
    if a < 0.0 then -a else a
  }

  /** How far `p` is from the line through `a` and `b`, or from `a` where the two coincide. */
  function Distance(hypot: Hypot, a: Point, b: Point, p: Point): (d: real)
    ensures d >= 0.0
  {
    var dx, dy := b.x - a.x, b.y - a.y;
    var den := hypot(dx, dy);
    if den > 0.0 then Ratio(Abs(dy * p.x - dx * p.y + b.x * a.y - b.y * a.x), den)
    else hypot(p.x - a.x, p.y - a.y)
  }

  function Ratio(num: real, den: real): (r: real)
    requires num >= 0.0 && den > 0.0
    ensures r >= 0.0
  {
    num / den
  }

  /** The first of the vertices strictly between `i` and `k` that is farthest from the chord `i`-`j`. */
  function Farthest(hypot: Hypot, ps: seq<Point>, i: nat, j: nat, k: nat): (w: nat)
    requires i + 1 < k <= j < |ps|
    ensures i < w < k
    decreases k
  {
    if k == i + 2 then i + 1
    else
      var w := Farthest(hypot, ps, i, j, k - 1);
      if Distance(hypot, ps[i], ps[j], ps[k - 1]) > Distance(hypot, ps[i], ps[j], ps[w]) then k - 1 else w
  }

  /** Whether vertex `k`, strictly between `i` and `j`, survives the simplification of `i..j`. */
  predicate Kept(hypot: Hypot, eps: real, ps: seq<Point>, i: nat, j: nat, k: nat)
    requires j < |ps|
    decreases j - i
  {
    i < k < j &&
    var w := Farthest(hypot, ps, i, j, j);
    && Distance(hypot, ps[i], ps[j], ps[w]) > eps
    && (k == w || (if k < w then Kept(hypot, eps, ps, i, w, k) else Kept(hypot, eps, ps, w, j, k)))
  }

  /** Whether vertex `k` survives the simplification of the whole line. */
  predicate Survives(hypot: Hypot, eps: real, ps: seq<Point>, k: nat)
    requires k < |ps|
  {
    k == 0 || k == |ps| - 1 || Kept(hypot, eps, ps, 0, |ps| - 1, k)
  }

  /** The points flagged among the first `n`, in order. */
  function Pick(ps: seq<Point>, keep: seq<bool>, n: nat): seq<Point>
    requires n <= |ps| == |keep|
  {
    if n == 0 then [] else Pick(ps, keep, n - 1) + if keep[n - 1] then [ps[n - 1]] else []
  }

  function Flags(hypot: Hypot, eps: real, ps: seq<Point>): (keep: seq<bool>)
    ensures |keep| == |ps|
  {
    seq(|ps|, k requires 0 <= k < |ps| => Survives(hypot, eps, ps, k))
  }

  /** The simplified line. */
  function Simplified(hypot: Hypot, eps: real, ps: seq<Point>): seq<Point> {
    if |ps| < 3 then ps else Pick(ps, Flags(hypot, eps, ps), |ps|)
  }

  // ---- the farthest vertex ----

  predicate IsFarthest(hypot: Hypot, ps: seq<Point>, i: nat, j: nat, k: nat, w: nat)
    requires k <= j < |ps|
  {
    && i < w < k
    && (forall m :: i < m < k ==> Distance(hypot, ps[i], ps[j], ps[m]) <= Distance(hypot, ps[i], ps[j], ps[w]))
    && (forall m :: i < m < w ==> Distance(hypot, ps[i], ps[j], ps[m]) < Distance(hypot, ps[i], ps[j], ps[w]))
  }

  lemma {:induction false} FarthestIs(hypot: Hypot, ps: seq<Point>, i: nat, j: nat, k: nat)
    requires i + 1 < k <= j < |ps|
    ensures IsFarthest(hypot, ps, i, j, k, Farthest(hypot, ps, i, j, k))
    decreases k
  {
    hide Distance;
    if k > i + 2 {
      FarthestIs(hypot, ps, i, j, k - 1);
    }
  }

  lemma NoneFarther(hypot: Hypot, ps: seq<Point>, i: nat, j: nat, k: nat, v: nat, w: nat)
    requires k <= j < |ps| && i < v < k && IsFarthest(hypot, ps, i, j, k, w)
    ensures Distance(hypot, ps[i], ps[j], ps[v]) <= Distance(hypot, ps[i], ps[j], ps[w])
    ensures v < w ==> Distance(hypot, ps[i], ps[j], ps[v]) < Distance(hypot, ps[i], ps[j], ps[w])
  {
    hide Distance;
  }

  lemma FarthestUnique(hypot: Hypot, ps: seq<Point>, i: nat, j: nat, k: nat, v: nat, w: nat)
    requires k <= j < |ps| && IsFarthest(hypot, ps, i, j, k, v) && IsFarthest(hypot, ps, i, j, k, w)
    ensures v == w
  {
    hide Distance;
    NoneFarther(hypot, ps, i, j, k, v, w);
    NoneFarther(hypot, ps, i, j, k, w, v);
  }

  // ---- what is dropped ----

  /** A vertex dropped between two neighbouring survivors is within `eps` of the line through them. */
  lemma {:induction false} DroppedWithin(hypot: Hypot, eps: real, ps: seq<Point>, i: nat, j: nat, a: nat, k: nat,
                                         b: nat)
    requires i <= a < k < b <= j < |ps|
    requires (a == i || Kept(hypot, eps, ps, i, j, a)) && (b == j || Kept(hypot, eps, ps, i, j, b))
    requires forall m :: a < m < b ==> !Kept(hypot, eps, ps, i, j, m)
    ensures Distance(hypot, ps[a], ps[b], ps[k]) <= eps
    decreases j - i
  {
    hide Distance, Farthest;
    var w := Farthest(hypot, ps, i, j, j);
    FarthestIs(hypot, ps, i, j, j);
    if Distance(hypot, ps[i], ps[j], ps[w]) > eps {
      assert Kept(hypot, eps, ps, i, j, w);
      if b <= w {
        assert forall m :: a < m < b ==> Kept(hypot, eps, ps, i, j, m) == Kept(hypot, eps, ps, i, w, m);
        DroppedWithin(hypot, eps, ps, i, w, a, k, b);
      } else {
        assert w <= a;
        assert forall m :: a < m < b ==> Kept(hypot, eps, ps, i, j, m) == Kept(hypot, eps, ps, w, j, m);
        DroppedWithin(hypot, eps, ps, w, j, a, k, b);
      }
    }
  }

  lemma SimplifiedWithin(hypot: Hypot, eps: real, ps: seq<Point>, a: nat, k: nat, b: nat)
    requires a < k < b < |ps|
    requires Survives(hypot, eps, ps, a) && Survives(hypot, eps, ps, b)
    requires forall m: nat :: a < m < b ==> !Survives(hypot, eps, ps, m)
    ensures Distance(hypot, ps[a], ps[b], ps[k]) <= eps
  {
    hide Distance;
    var j := |ps| - 1;
    forall m: nat | a < m < b ensures !Kept(hypot, eps, ps, 0, j, m) {
      assert !Survives(hypot, eps, ps, m);
    }
    DroppedWithin(hypot, eps, ps, 0, j, a, k, b);
  }

  /** Only the ends are left exactly when no vertex is farther than `eps` from the line through them. */
  lemma OnlyEnds(hypot: Hypot, eps: real, ps: seq<Point>)
    requires |ps| >= 3
    ensures (forall k: nat :: 0 < k < |ps| - 1 ==> !Survives(hypot, eps, ps, k))
       <==> (forall k: nat :: 0 < k < |ps| - 1 ==> Distance(hypot, ps[0], ps[|ps| - 1], ps[k]) <= eps)
  {
    hide Distance, Farthest;
    var j := |ps| - 1;
    FarthestIs(hypot, ps, 0, j, j);
    var w := Farthest(hypot, ps, 0, j, j);
    assert Survives(hypot, eps, ps, w) <==> Distance(hypot, ps[0], ps[j], ps[w]) > eps;
  }

  // ---- the surviving points, by rank ----

  lemma {:induction false} PickAppends(ps: seq<Point>, keep: seq<bool>, k: nat, n: nat)
    requires k <= n <= |ps| == |keep|
    ensures |Pick(ps, keep, k)| <= |Pick(ps, keep, n)|
    ensures Pick(ps, keep, n)[..|Pick(ps, keep, k)|] == Pick(ps, keep, k)
  {
    if k < n {
      PickAppends(ps, keep, k, n - 1);
    }
  }

  /** Where survivor `k` stands in the simplified line. */
  function Rank(ps: seq<Point>, keep: seq<bool>, k: nat): nat
    requires k <= |ps| == |keep|
  {
    |Pick(ps, keep, k)|
  }

  lemma RankOf(ps: seq<Point>, keep: seq<bool>, k: nat)
    requires k < |ps| == |keep| && keep[k]
    ensures Rank(ps, keep, k) < |Pick(ps, keep, |ps|)|
    ensures Pick(ps, keep, |ps|)[Rank(ps, keep, k)] == ps[k]
  {
    PickAppends(ps, keep, k + 1, |ps|);
    var whole := Pick(ps, keep, |ps|);
    assert Pick(ps, keep, k + 1)[Rank(ps, keep, k)] == ps[k];
    assert whole[..Rank(ps, keep, k + 1)][Rank(ps, keep, k)] == whole[Rank(ps, keep, k)];
  }

  lemma RankGrows(ps: seq<Point>, keep: seq<bool>, a: nat, b: nat)
    requires a < b <= |ps| == |keep| && keep[a]
    ensures Rank(ps, keep, a) < Rank(ps, keep, b)
  {
    PickAppends(ps, keep, a + 1, b);
  }

  lemma RankOrder(ps: seq<Point>, keep: seq<bool>, a: nat, b: nat)
    requires a < |ps| == |keep| && b < |ps| && keep[a] && keep[b]
    ensures a < b <==> Rank(ps, keep, a) < Rank(ps, keep, b)
  {
    if a < b { RankGrows(ps, keep, a, b); }
    if b < a { RankGrows(ps, keep, b, a); }
  }

  /** Every place of the simplified line is some survivor's. */
  lemma {:induction false} Ranked(ps: seq<Point>, keep: seq<bool>, n: nat, r: nat) returns (k: nat)
    requires n <= |ps| == |keep| && r < |Pick(ps, keep, n)|
    ensures k < n && keep[k] && Rank(ps, keep, k) == r
  {
    if r < |Pick(ps, keep, n - 1)| {
      k := Ranked(ps, keep, n - 1, r);
    } else {
      k := n - 1;
    }
  }

  /** The ends survive in place and the survivors keep their order. */
  lemma SimplifiedIsSubline(hypot: Hypot, eps: real, ps: seq<Point>)
    requires |ps| >= 3
    ensures var keep := Flags(hypot, eps, ps);
            var qs := Simplified(hypot, eps, ps);
            && |qs| >= 2 && qs[0] == ps[0] && qs[|qs| - 1] == ps[|ps| - 1]
            && (forall k: nat :: k < |ps| && keep[k] ==> Rank(ps, keep, k) < |qs| && qs[Rank(ps, keep, k)] == ps[k])
            && (forall a: nat, b: nat :: a < b < |ps| && keep[a] && keep[b] ==> Rank(ps, keep, a) < Rank(ps, keep, b))
            && Rank(ps, keep, 0) == 0 && Rank(ps, keep, |ps| - 1) == |qs| - 1
  {
    hide Survives;
    var keep := Flags(hypot, eps, ps);
    EndsSurvive(hypot, eps, ps);
    forall k: nat | k < |ps| && keep[k]
      ensures Rank(ps, keep, k) < |Pick(ps, keep, |ps|)| && Pick(ps, keep, |ps|)[Rank(ps, keep, k)] == ps[k]
    {
      RankOf(ps, keep, k);
    }
    forall a: nat, b: nat | a < b < |ps| && keep[a] && keep[b] ensures Rank(ps, keep, a) < Rank(ps, keep, b) {
      RankGrows(ps, keep, a, b);
    }
  }

  lemma EndsSurvive(hypot: Hypot, eps: real, ps: seq<Point>)
    requires |ps| >= 1
    ensures Flags(hypot, eps, ps)[0] && Flags(hypot, eps, ps)[|ps| - 1]
  {}

  // ---- applying it twice ----

  /** In the simplified line the farthest vertex of a span that was split is still the one it was split at. */
  lemma FarthestSurvives(hypot: Hypot, ps: seq<Point>, keep: seq<bool>, i: nat, j: nat)
    requires i + 1 < j < |ps| == |keep| && keep[i] && keep[j] && keep[Farthest(hypot, ps, i, j, j)]
    ensures var qs := Pick(ps, keep, |ps|);
            var (ri, rj) := (Rank(ps, keep, i), Rank(ps, keep, j));
            && ri + 1 < rj < |qs|
            && Farthest(hypot, qs, ri, rj, rj) == Rank(ps, keep, Farthest(hypot, ps, i, j, j))
  {
    hide Distance, Farthest, Pick, Rank;
    var qs := Pick(ps, keep, |ps|);
    var w := Farthest(hypot, ps, i, j, j);
    var ri, rj, rw := Rank(ps, keep, i), Rank(ps, keep, j), Rank(ps, keep, w);
    RankGrows(ps, keep, i, w);
    RankGrows(ps, keep, w, j);
    RankOf(ps, keep, i);
    RankOf(ps, keep, j);
    RankOf(ps, keep, w);
    FarthestIs(hypot, ps, i, j, j);
    forall r: nat | ri < r < rj
      ensures Distance(hypot, qs[ri], qs[rj], qs[r]) <= Distance(hypot, qs[ri], qs[rj], qs[rw])
      ensures r < rw ==> Distance(hypot, qs[ri], qs[rj], qs[r]) < Distance(hypot, qs[ri], qs[rj], qs[rw])
    {
      var m := Ranked(ps, keep, |ps|, r);
      RankOf(ps, keep, m);
      RankOrder(ps, keep, i, m);
      RankOrder(ps, keep, m, j);
      RankOrder(ps, keep, m, w);
    }
    FarthestIs(hypot, qs, ri, rj, rj);
    FarthestUnique(hypot, qs, ri, rj, rj, rw, Farthest(hypot, qs, ri, rj, rj));
  }

  /** Whatever survives a span survives the same span of the simplified line. */
  lemma {:induction false} KeptAgain(hypot: Hypot, eps: real, ps: seq<Point>, keep: seq<bool>, i: nat, j: nat, k: nat)
    requires i < k < j < |ps| == |keep| && keep[i] && keep[j]
    requires forall m: nat :: i < m < j ==> keep[m] == Kept(hypot, eps, ps, i, j, m)
    requires keep[k]
    ensures Rank(ps, keep, j) < |Pick(ps, keep, |ps|)|
    ensures Kept(hypot, eps, Pick(ps, keep, |ps|), Rank(ps, keep, i), Rank(ps, keep, j), Rank(ps, keep, k))
    decreases j - i
  {
    hide Distance, Farthest, Pick, Rank;
    var qs := Pick(ps, keep, |ps|);
    var w := Farthest(hypot, ps, i, j, j);
    assert Kept(hypot, eps, ps, i, j, k);
    assert Kept(hypot, eps, ps, i, j, w);
    FarthestSurvives(hypot, ps, keep, i, j);
    RankOf(ps, keep, i);
    RankOf(ps, keep, j);
    RankOf(ps, keep, w);
    RankOrder(ps, keep, i, k);
    RankOrder(ps, keep, k, j);
    RankOrder(ps, keep, k, w);
    if k < w {
      forall m: nat | i < m < w ensures keep[m] == Kept(hypot, eps, ps, i, w, m) {
        assert keep[m] == Kept(hypot, eps, ps, i, j, m);
      }
      KeptAgain(hypot, eps, ps, keep, i, w, k);
    } else if k > w {
      forall m: nat | w < m < j ensures keep[m] == Kept(hypot, eps, ps, w, j, m) {
        assert keep[m] == Kept(hypot, eps, ps, i, j, m);
      }
      RankOrder(ps, keep, w, k);
      KeptAgain(hypot, eps, ps, keep, w, j, k);
    }
  }

  lemma {:induction false} PickAll(ps: seq<Point>, keep: seq<bool>, n: nat)
    requires n <= |ps| == |keep| && forall k :: 0 <= k < n ==> keep[k]
    ensures Pick(ps, keep, n) == ps[..n]
  {
    if n > 0 {
      PickAll(ps, keep, n - 1);
    }
  }

  /** Applying the simplification twice changes nothing more. */
  lemma SimplifyTwice(hypot: Hypot, eps: real, ps: seq<Point>)
    ensures Simplified(hypot, eps, Simplified(hypot, eps, ps)) == Simplified(hypot, eps, ps)
  {
    hide Kept, Rank, Pick;
    var qs := Simplified(hypot, eps, ps);
    if |ps| >= 3 && |qs| >= 3 {
      var keep := Flags(hypot, eps, ps);
      SimplifiedIsSubline(hypot, eps, ps);
      forall r: nat | r < |qs| ensures Survives(hypot, eps, qs, r) {
        var k := Ranked(ps, keep, |ps|, r);
        if 0 < r < |qs| - 1 {
          KeptAgain(hypot, eps, ps, keep, 0, |ps| - 1, k);
        }
      }
      PickAll(qs, Flags(hypot, eps, qs), |qs|);
      assert qs[..|qs|] == qs;
    }
  }

  // ---- the algorithm as it is written ----

  ghost function Work(stack: seq<(nat, nat)>, n: nat): nat
    requires n <= |stack| && forall e :: e in stack ==> e.0 < e.1
  {
    if n == 0 then 0 else Work(stack, n - 1) + 2 * (stack[n - 1].1 - stack[n - 1].0) - 1
  }

  lemma {:induction false} WorkPrefix(a: seq<(nat, nat)>, b: seq<(nat, nat)>, n: nat)
    requires n <= |a| && n <= |b| && a[..n] == b[..n]
    requires (forall e :: e in a ==> e.0 < e.1) && (forall e :: e in b ==> e.0 < e.1)
    ensures Work(a, n) == Work(b, n)
  {
    if n > 0 {
      assert a[..n - 1] == a[..n][..n - 1] && b[..n - 1] == b[..n][..n - 1];
      assert a[n - 1] == a[..n][n - 1] && b[n - 1] == b[..n][n - 1];
      WorkPrefix(a, b, n - 1);
    }
  }

  /** Some span still on the stack will keep vertex `k`. */
  ghost predicate Pending(hypot: Hypot, eps: real, ps: seq<Point>, stack: seq<(nat, nat)>, k: nat)
    requires forall e :: e in stack ==> e.0 < e.1 < |ps|
  {
    exists s :: 0 <= s < |stack| && Kept(hypot, eps, ps, stack[s].0, stack[s].1, k)
  }

  lemma PendingPop(hypot: Hypot, eps: real, ps: seq<Point>, stack: seq<(nat, nat)>, k: nat)
    requires stack != [] && forall e :: e in stack ==> e.0 < e.1 < |ps|
    ensures var (rest, top) := (stack[..|stack| - 1], stack[|stack| - 1]);
            Pending(hypot, eps, ps, stack, k) <==>
            Pending(hypot, eps, ps, rest, k) || Kept(hypot, eps, ps, top.0, top.1, k)
  {
    hide Kept;
    var rest := stack[..|stack| - 1];
    if Pending(hypot, eps, ps, rest, k) {
      var s :| 0 <= s < |rest| && Kept(hypot, eps, ps, rest[s].0, rest[s].1, k);
      assert stack[s] == rest[s];
    }
    if Pending(hypot, eps, ps, stack, k) {
      var s :| 0 <= s < |stack| && Kept(hypot, eps, ps, stack[s].0, stack[s].1, k);
      if s < |rest| { assert stack[s] == rest[s]; }
    }
  }

  lemma PendingPush(hypot: Hypot, eps: real, ps: seq<Point>, stack: seq<(nat, nat)>, top: (nat, nat), k: nat)
    requires top.0 < top.1 < |ps| && forall e :: e in stack ==> e.0 < e.1 < |ps|
    ensures Pending(hypot, eps, ps, stack + [top], k) <==>
            Pending(hypot, eps, ps, stack, k) || Kept(hypot, eps, ps, top.0, top.1, k)
  {
    hide Kept, Pending;
    assert (stack + [top])[..|stack + [top]| - 1] == stack;
    PendingPop(hypot, eps, ps, stack + [top], k);
  }

  lemma WorkPush(stack: seq<(nat, nat)>, top: (nat, nat))
    requires top.0 < top.1 && forall e :: e in stack ==> e.0 < e.1
    ensures Work(stack + [top], |stack| + 1) == Work(stack, |stack|) + 2 * (top.1 - top.0) - 1
  {
    assert (stack + [top])[..|stack|] == stack[..|stack|];
    WorkPrefix(stack + [top], stack, |stack|);
  }

  method FindFarthest(hypot: Hypot, ps: seq<Point>, i: nat, j: nat) returns (best: real, bi: int)
    requires i + 1 < j < |ps|
    ensures bi == Farthest(hypot, ps, i, j, j) && best == Distance(hypot, ps[i], ps[j], ps[bi])
  {
    hide Distance;
    best, bi := -1.0, -1;
    for k := i + 1 to j
      invariant k == i + 1 ==> best == -1.0
      invariant k > i + 1 ==> bi == Farthest(hypot, ps, i, j, k) && best == Distance(hypot, ps[i], ps[j], ps[bi])
    {
      var d := Distance(hypot, ps[i], ps[j], ps[k]);
      if d > best {
        best, bi := d, k;
      }
    }
  }

  lemma PendingStart(hypot: Hypot, eps: real, ps: seq<Point>, k: nat)
    requires k < |ps| && |ps| >= 2
    ensures !Pending(hypot, eps, ps, [], k)
    ensures Survives(hypot, eps, ps, k) <==> k == 0 || k == |ps| - 1 || Pending(hypot, eps, ps, [(0, |ps| - 1)], k)
  {
    PendingPush(hypot, eps, ps, [], (0, |ps| - 1), k);
    assert [] + [(0, |ps| - 1)] == [(0, |ps| - 1)];
  }

  /** What replacing the top span by the two parts it is split into does to the pending vertices. */
  lemma PendingSplit(hypot: Hypot, eps: real, ps: seq<Point>, rest: seq<(nat, nat)>, i: nat, j: nat, k: nat)
    requires i + 1 < j < |ps| && (forall e :: e in rest ==> e.0 < e.1 < |ps|)
    requires Distance(hypot, ps[i], ps[j], ps[Farthest(hypot, ps, i, j, j)]) > eps
    ensures var w := Farthest(hypot, ps, i, j, j);
            Pending(hypot, eps, ps, rest + [(i, j)], k) || k == w <==>
            Pending(hypot, eps, ps, rest + [(i, w)] + [(w, j)], k) || k == w
  {
    hide Distance, Farthest, Kept, Pending;
    var w := Farthest(hypot, ps, i, j, j);
    SplitSpan(hypot, eps, ps, i, j, k);
    PendingPush(hypot, eps, ps, rest, (i, j), k);
    PendingPush(hypot, eps, ps, rest, (i, w), k);
    PendingPush(hypot, eps, ps, rest + [(i, w)], (w, j), k);
  }

  lemma WorkSplit(rest: seq<(nat, nat)>, i: nat, w: nat, j: nat)
    requires i < w < j && forall e :: e in rest ==> e.0 < e.1
    ensures Work(rest + [(i, w)] + [(w, j)], |rest| + 2) < Work(rest + [(i, j)], |rest| + 1)
  {
    WorkPush(rest, (i, j));
    WorkPush(rest, (i, w));
    WorkPush(rest + [(i, w)], (w, j));
  }

  method Rdp(hypot: Hypot, eps: real, ps: seq<Point>) returns (out: seq<Point>)
    ensures out == Simplified(hypot, eps, ps)
  {
    hide Distance, Farthest, Kept, Pending, Work, Survives;
    var n := |ps|;
    if n < 3 {
      return ps;
    }
    var keep := new bool[n](_ => false);
    keep[0], keep[n - 1] := true, true;
    var stack: seq<(nat, nat)> := [(0, n - 1)];
    forall k: nat | k < n
      ensures keep[k] || Pending(hypot, eps, ps, stack, k) <==> Survives(hypot, eps, ps, k)
    {
      PendingStart(hypot, eps, ps, k);
    }
    while stack != []
      invariant forall e :: e in stack ==> e.0 < e.1 < n
      invariant forall k: nat :: k < n ==> (keep[k] || Pending(hypot, eps, ps, stack, k) <==>
                                            Survives(hypot, eps, ps, k))
      decreases Work(stack, |stack|)
    {
      ghost var before := stack;
      var (i, j) := stack[|stack| - 1];
      stack := stack[..|stack| - 1];
      assert before == stack + [(i, j)];
      WorkPop(stack, i, j);
      if j <= i + 1 {
        forall k: nat | k < n ensures Pending(hypot, eps, ps, before, k) == Pending(hypot, eps, ps, stack, k) {
          PendingPush(hypot, eps, ps, stack, (i, j), k);
          ShortSpan(hypot, eps, ps, i, j, k);
        }
        continue;
      }
      var best, bi := FindFarthest(hypot, ps, i, j);
      if best > eps {
        keep[bi] := true;
        forall k: nat | k < n
          ensures Pending(hypot, eps, ps, before, k) || k == bi <==>
                  Pending(hypot, eps, ps, stack + [(i, bi)] + [(bi, j)], k) || k == bi
          ensures Survives(hypot, eps, ps, bi)
        {
          PendingSplit(hypot, eps, ps, stack, i, j, k);
          PendingPush(hypot, eps, ps, stack, (i, j), bi);
          SplitSpan(hypot, eps, ps, i, j, bi);
        }
        WorkSplit(stack, i, bi, j);
        stack := stack + [(i, bi)];
        stack := stack + [(bi, j)];
      } else {
        forall k: nat | k < n ensures Pending(hypot, eps, ps, before, k) == Pending(hypot, eps, ps, stack, k) {
          PendingPush(hypot, eps, ps, stack, (i, j), k);
          WholeSpan(hypot, eps, ps, i, j, k);
        }
      }
    }
    forall k: nat | k < n ensures keep[k] == Survives(hypot, eps, ps, k) {
      PendingStart(hypot, eps, ps, k);
    }
    out := Collect(ps, keep);
    assert keep[..] == Flags(hypot, eps, ps);
  }

  lemma WorkPop(rest: seq<(nat, nat)>, i: nat, j: nat)
    requires i < j && forall e :: e in rest ==> e.0 < e.1
    ensures Work(rest, |rest|) < Work(rest + [(i, j)], |rest| + 1)
  {
    WorkPush(rest, (i, j));
  }

  lemma ShortSpan(hypot: Hypot, eps: real, ps: seq<Point>, i: nat, j: nat, k: nat)
    requires j <= i + 1 && j < |ps|
    ensures !Kept(hypot, eps, ps, i, j, k)
  {}

  lemma WholeSpan(hypot: Hypot, eps: real, ps: seq<Point>, i: nat, j: nat, k: nat)
    requires i + 1 < j < |ps| && Distance(hypot, ps[i], ps[j], ps[Farthest(hypot, ps, i, j, j)]) <= eps
    ensures !Kept(hypot, eps, ps, i, j, k)
  {}

  lemma SplitSpan(hypot: Hypot, eps: real, ps: seq<Point>, i: nat, j: nat, k: nat)
    requires i + 1 < j < |ps| && Distance(hypot, ps[i], ps[j], ps[Farthest(hypot, ps, i, j, j)]) > eps
    ensures var w := Farthest(hypot, ps, i, j, j);
            Kept(hypot, eps, ps, i, j, k) <==> k == w || Kept(hypot, eps, ps, i, w, k) || Kept(hypot, eps, ps, w, j, k)
  {
    hide Distance, Farthest;
  }

  method Collect(ps: seq<Point>, keep: array<bool>) returns (out: seq<Point>)
    requires keep.Length == |ps|
    ensures out == Pick(ps, keep[..], |ps|)
  {
    out := [];
    for k := 0 to |ps|
      invariant out == Pick(ps, keep[..], k)
    {
      if keep[k] {
        out := out + [ps[k]];
      }
    }
  }
}
