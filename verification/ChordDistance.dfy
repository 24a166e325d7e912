/**
 What the distance that decides over a vertex is: with lengths by Pythagoras, the way from the vertex to the nearest
 point of the line through the ends of the chord.
 */
module ChordDistance {
  import opened Simplify

  function Times(a: real, b: real): real {
    a * b
  }

  function Sq(a: real): real {
    Times(a, a)
  }

  predicate Pythagoras(x: real, y: real, length: real) {
    length >= 0.0 && Sq(length) == Sq(x) + Sq(y)
  }

  ghost predicate Euclidean(hypot: Hypot) {
    forall x, y :: Pythagoras(x, y, hypot(x, y))
  }

  /** The points of the line through `a` and `b`. */
  function OnLine(a: Point, b: Point, t: real): Point {
    Point(a.x + t * (b.x - a.x), a.y + t * (b.y - a.y))
  }

  function Apart(hypot: Hypot, p: Point, q: Point): real {
    hypot(p.x - q.x, p.y - q.y)
  }

  // ---- arithmetic ----

  lemma Positive(a: real, b: real)
    requires a > 0.0 && b > 0.0
    ensures Times(a, b) > 0.0
  {}

  lemma SquarePositive(a: real)
    requires a > 0.0
    ensures Sq(a) > 0.0
  {
    hide Times;
    Positive(a, a);
  }

  lemma SquareNegated(a: real)
    ensures Sq(-a) == Sq(a) && Sq(0.0) == 0.0
  {}

  lemma Square(a: real)
    ensures Sq(a) >= 0.0
    ensures a > 0.0 || a < 0.0 ==> Sq(a) > 0.0
  {
    hide Times, Sq;
    SquareNegated(a);
    if a > 0.0 { SquarePositive(a); }
    if a < 0.0 { SquarePositive(-a); }
  }

  lemma DifferenceOfSquares(a: real, b: real)
    ensures Times(a - b, a + b) == Sq(a) - Sq(b)
  {}

  lemma SquaresOrder(a: real, b: real)
    requires a >= 0.0 && b >= 0.0 && Sq(a) <= Sq(b)
    ensures a <= b
  {
    hide Times, Sq;
    if a > b {
      Positive(a - b, a + b);
      DifferenceOfSquares(a, b);
    }
  }

  lemma TimesMinus(a: real, b: real, l: real)
    ensures Times(a - b, l) == Times(a, l) - Times(b, l)
  {}

  lemma ProductOrder(a: real, b: real, l: real)
    requires l > 0.0 && Times(a, l) <= Times(b, l)
    ensures a <= b
  {
    hide Times;
    TimesMinus(a, b, l);
    if a > b {
      Positive(a - b, l);
    }
  }

  lemma SquareOfProduct(a: real, b: real)
    ensures Sq(Times(a, b)) == Times(Sq(a), Sq(b))
  {}

  lemma Ordered(a: real, b: real, l: real)
    requires l > 0.0 && a >= 0.0 && b >= 0.0 && Times(Sq(a), Sq(l)) <= Times(Sq(b), Sq(l))
    ensures a <= b
  {
    hide Times, Sq;
    Square(l);
    ProductOrder(Sq(a), Sq(b), Sq(l));
    SquaresOrder(a, b);
  }

  function Across(dx: real, dy: real, wx: real, wy: real): real {
    dx * wy - dy * wx
  }

  function Along(dx: real, dy: real, wx: real, wy: real): real {
    dx * wx + dy * wy
  }

  lemma Lagrange(x: real, y: real, u: real, v: real)
    ensures Times(Sq(x) + Sq(y), Sq(u) + Sq(v)) == Sq(Along(x, y, u, v)) + Sq(Across(x, y, u, v))
  {}

  /** How far a vector reaches across a direction does not depend on how far it goes along it. */
  lemma AcrossOnly(dx: real, dy: real, vx: real, vy: real, t: real, wx: real, wy: real)
    requires wx == vx - t * dx && wy == vy - t * dy
    ensures Across(dx, dy, wx, wy) == Across(dx, dy, vx, vy)
  {}

  lemma AlongOnly(dx: real, dy: real, vx: real, vy: real, t: real, wx: real, wy: real)
    requires wx == vx - t * dx && wy == vy - t * dy
    ensures Along(dx, dy, wx, wy) == Along(dx, dy, vx, vy) - Times(t, Sq(dx) + Sq(dy))
  {}

  lemma TimesTurned(a: real, b: real)
    ensures Times(a, b) == Times(b, a)
  {}

  lemma SquareOfAbs(a: real)
    ensures Sq(Abs(a)) == Sq(a)
  {
    hide Times, Sq;
    SquareNegated(a);
  }

  lemma Squares(l: real, d: real, q: real, dx: real, dy: real, wx: real, wy: real)
    requires Pythagoras(dx, dy, l) && Pythagoras(wx, wy, q) && Times(d, l) == Abs(Across(dx, dy, wx, wy))
    ensures Times(Sq(q), Sq(l)) == Times(Sq(d), Sq(l)) + Sq(Along(dx, dy, wx, wy))
  {
    hide Times, Sq, Across, Along, Abs;
    Lagrange(dx, dy, wx, wy);
    SquareOfAbs(Across(dx, dy, wx, wy));
    SquareOfProduct(d, l);
    assert Times(Sq(l), Sq(q)) == Times(Sq(q), Sq(l)) by { TimesTurned(Sq(l), Sq(q)); }
  }

  /** A vector of length `q` that reaches `d * l` across one of length `l` is no shorter than `d`. */
  lemma NotShorter(l: real, d: real, q: real, dx: real, dy: real, wx: real, wy: real)
    requires l > 0.0 && d >= 0.0 && Times(d, l) == Abs(Across(dx, dy, wx, wy))
    requires Pythagoras(dx, dy, l) && Pythagoras(wx, wy, q)
    ensures d <= q
    ensures Along(dx, dy, wx, wy) == 0.0 ==> d == q
  {
    hide Times, Sq, Across, Along, Abs;
    Squares(l, d, q, dx, dy, wx, wy);
    Square(Along(dx, dy, wx, wy));
    Ordered(d, q, l);
    if Along(dx, dy, wx, wy) == 0.0 {
      SquareOfZero();
      Ordered(q, d, l);
    }
  }

  lemma SquareOfZero()
    ensures Sq(0.0) == 0.0
  {}

  lemma NoSquares(x: real, y: real)
    requires Pythagoras(x, y, 0.0)
    ensures x == 0.0 && y == 0.0
  {
    hide Times, Sq;
    SquareOfZero();
    Square(x);
    Square(y);
  }

  // ---- the distance ----

  lemma DistanceTimes(hypot: Hypot, a: Point, b: Point, p: Point)
    requires Apart(hypot, b, a) > 0.0
    ensures Distance(hypot, a, b, p) >= 0.0
    ensures Times(Distance(hypot, a, b, p), Apart(hypot, b, a))
         == Abs(Across(b.x - a.x, b.y - a.y, p.x - a.x, p.y - a.y))
  {
    var dx, dy := b.x - a.x, b.y - a.y;
    assert dy * p.x - dx * p.y + b.x * a.y - b.y * a.x == dy * (p.x - a.x) - dx * (p.y - a.y);
  }

  lemma FromLine(a: Point, b: Point, p: Point, t: real)
    ensures p.x - OnLine(a, b, t).x == (p.x - a.x) - t * (b.x - a.x)
    ensures p.y - OnLine(a, b, t).y == (p.y - a.y) - t * (b.y - a.y)
  {}

  lemma NoPointNearer(hypot: Hypot, a: Point, b: Point, p: Point, t: real)
    requires Euclidean(hypot) && Apart(hypot, b, a) > 0.0
    ensures var w := OnLine(a, b, t);
            && Distance(hypot, a, b, p) <= Apart(hypot, p, w)
            && (Along(b.x - a.x, b.y - a.y, p.x - w.x, p.y - w.y) == 0.0 ==>
                  Distance(hypot, a, b, p) == Apart(hypot, p, w))
  {
    hide Distance, Abs, OnLine, Across, Along, Pythagoras, Times;
    var w := OnLine(a, b, t);
    DistanceTimes(hypot, a, b, p);
    FromLine(a, b, p, t);
    AcrossOnly(b.x - a.x, b.y - a.y, p.x - a.x, p.y - a.y, t, p.x - w.x, p.y - w.y);
    NotShorter(Apart(hypot, b, a), Distance(hypot, a, b, p), Apart(hypot, p, w), b.x - a.x, b.y - a.y, p.x - w.x,
               p.y - w.y);
  }

  function Quotient(a: real, b: real): (q: real)
    requires b > 0.0
    ensures Times(q, b) == a
  {
    a / b
  }

  lemma SquaresPositive(x: real, y: real, l: real)
    requires Pythagoras(x, y, l) && l > 0.0
    ensures Sq(x) + Sq(y) > 0.0
  {
    hide Times, Sq;
    Square(l);
  }

  /** Where along the line the perpendicular from `p` meets it. */
  lemma Foot(hypot: Hypot, a: Point, b: Point, p: Point) returns (t: real)
    requires Euclidean(hypot) && Apart(hypot, b, a) > 0.0
    ensures Along(b.x - a.x, b.y - a.y, p.x - OnLine(a, b, t).x, p.y - OnLine(a, b, t).y) == 0.0
  {
    hide OnLine, Along, Pythagoras, Times, Sq;
    var dx, dy := b.x - a.x, b.y - a.y;
    SquaresPositive(dx, dy, hypot(dx, dy));
    t := Quotient(Along(dx, dy, p.x - a.x, p.y - a.y), Sq(dx) + Sq(dy));
    FromLine(a, b, p, t);
    var w := OnLine(a, b, t);
    AlongOnly(dx, dy, p.x - a.x, p.y - a.y, t, p.x - w.x, p.y - w.y);
  }

  lemma PointChord(hypot: Hypot, a: Point, b: Point, p: Point, t: real)
    requires Euclidean(hypot) && Apart(hypot, b, a) <= 0.0
    ensures Distance(hypot, a, b, p) == Apart(hypot, p, OnLine(a, b, t)) == Apart(hypot, p, a)
  {
    hide Pythagoras;
    assert Pythagoras(b.x - a.x, b.y - a.y, hypot(b.x - a.x, b.y - a.y));
    NoSquares(b.x - a.x, b.y - a.y);
    assert OnLine(a, b, t) == a;
  }

  /** The distance is that of the nearest point: no point of the line is nearer, and one is that near. */
  lemma DistanceToLine(hypot: Hypot, a: Point, b: Point, p: Point)
    requires Euclidean(hypot)
    ensures forall t :: Distance(hypot, a, b, p) <= Apart(hypot, p, OnLine(a, b, t))
    ensures exists t :: Distance(hypot, a, b, p) == Apart(hypot, p, OnLine(a, b, t))
  {
    hide Distance, Euclidean, OnLine, Apart, Along;
    if Apart(hypot, b, a) > 0.0 {
      forall t ensures Distance(hypot, a, b, p) <= Apart(hypot, p, OnLine(a, b, t)) {
        NoPointNearer(hypot, a, b, p, t);
      }
      var foot := Foot(hypot, a, b, p);
      NoPointNearer(hypot, a, b, p, foot);
    } else {
      forall t ensures Distance(hypot, a, b, p) == Apart(hypot, p, OnLine(a, b, t)) {
        PointChord(hypot, a, b, p, t);
      }
      assert Distance(hypot, a, b, p) == Apart(hypot, p, OnLine(a, b, 0.0));
    }
  }

  /** Where the chord is one point, as for a closed line, it is the way to that point. */
  lemma DistanceToPoint(hypot: Hypot, a: Point, p: Point)
    requires Euclidean(hypot)
    ensures Distance(hypot, a, a, p) == Apart(hypot, p, a)
  {
    hide Distance, Times, Sq;
    SquareOfZero();
    Square(Apart(hypot, a, a));
    assert Pythagoras(a.x - a.x, a.y - a.y, Apart(hypot, a, a));
    PointChord(hypot, a, a, p, 0.0);
  }
}
