/**
 Geohash cells by bisection of the world, five bits a character. Coordinates are reals: the dyadic midpoints
 of the bisection are exact.
 */
module Geohash {
  import opened Util

  const ALPHABET: string := "0123456789bcdefghjkmnpqrstuvwxyz"

  datatype Span = Span(lo: real, hi: real) {
    function Mid(): real { (lo + hi) / 2.0 }

    function Half(upper: bool): Span {
      if upper then Span(Mid(), hi) else Span(lo, Mid())
    }
  }

  datatype Box = Box(lat: Span, lon: Span) {
    /** Longitude is halved on even bits, latitude on odd ones. */
    function Halve(even: bool, upper: bool): Box {
      if even then Box(lat, lon.Half(upper)) else Box(lat.Half(upper), lon)
    }
  }

  const WORLD := Box(Span(-90.0, 90.0), Span(-180.0, 180.0))

  datatype Place = Place(lat: real, lon: real)

  predicate InUpper(p: Place, b: Box, even: bool) {
    if even then p.lon >= b.lon.Mid() else p.lat >= b.lat.Mid()
  }

  /** The five bits of a character, highest first. */
  function FromBits(b0: bool, b1: bool, b2: bool, b3: bool, b4: bool): (d: nat)
    ensures d < 32
  {
    (if b0 then 16 else 0) + (if b1 then 8 else 0) + (if b2 then 4 else 0) + (if b3 then 2 else 0) + if b4 then 1 else 0
  }

  function Weight(k: nat): nat
    requires k < 5
  {
    if k == 0 then 16 else if k == 1 then 8 else if k == 2 then 4 else if k == 3 then 2 else 1
  }

  predicate BitOf(d: nat, k: nat)
    requires k < 5
  {
    d / Weight(k) % 2 == 1
  }

  lemma BitsOfDigit(b0: bool, b1: bool, b2: bool, b3: bool, b4: bool)
    ensures var d := FromBits(b0, b1, b2, b3, b4);
            BitOf(d, 0) == b0 && BitOf(d, 1) == b1 && BitOf(d, 2) == b2 && BitOf(d, 3) == b3 && BitOf(d, 4) == b4
  {}

  lemma DigitOfBits(d: nat)
    requires d < 32
    ensures FromBits(BitOf(d, 0), BitOf(d, 1), BitOf(d, 2), BitOf(d, 3), BitOf(d, 4)) == d
  {}

  // ---- hashing a place ----

  /** The cell around `p` after `m` halvings. */
  function CellOf(p: Place, m: nat): Box {
    if m == 0 then WORLD
    else
      var b := CellOf(p, m - 1);
      b.Halve((m - 1) % 2 == 0, InUpper(p, b, (m - 1) % 2 == 0))
  }

  predicate PlaceBit(p: Place, m: nat) {
    InUpper(p, CellOf(p, m), m % 2 == 0)
  }

  /** The first `k` bits of the character that starts at bit `base`. */
  function Digit(p: Place, base: nat, k: nat): (d: nat)
    ensures d < 32
  {
    FromBits(k > 0 && PlaceBit(p, base), k > 1 && PlaceBit(p, base + 1), k > 2 && PlaceBit(p, base + 2),
             k > 3 && PlaceBit(p, base + 3), k > 4 && PlaceBit(p, base + 4))
  }

  function Encode(p: Place, n: nat): (gh: string)
    ensures |gh| == n
  {
    if n == 0 then "" else Encode(p, n - 1) + [ALPHABET[Digit(p, 5 * (n - 1), 5)]]
  }

  // ---- the cell of a hash ----

  function IndexFrom(c: char, i: nat): Option<nat>
    requires i <= |ALPHABET|
    ensures IndexFrom(c, i).Some? ==> i <= IndexFrom(c, i).value < 32 && ALPHABET[IndexFrom(c, i).value] == c
    decreases |ALPHABET| - i
  {
    if i == |ALPHABET| then None else if ALPHABET[i] == c then Some(i) else IndexFrom(c, i + 1)
  }

  function Index(c: char): Option<nat> {
    IndexFrom(c, 0)
  }

  predicate IsHash(gh: string) {
    forall i :: 0 <= i < |gh| ==> Index(gh[i]).Some?
  }

  predicate HashBit(gh: string, m: nat)
    requires IsHash(gh) && m < 5 * |gh|
  {
    BitOf(Index(gh[m / 5]).value, m % 5)
  }

  function BoxOf(gh: string, m: nat): Box
    requires IsHash(gh) && m <= 5 * |gh|
  {
    if m == 0 then WORLD else BoxOf(gh, m - 1).Halve((m - 1) % 2 == 0, HashBit(gh, m - 1))
  }

  /** The cell of a hash; `None` where a character is none of the alphabet's. */
  function Bounds(gh: string): Option<Box> {
    if IsHash(gh) then Some(BoxOf(gh, 5 * |gh|)) else None
  }

  // ---- the alphabet is read back ----

  lemma AlphabetAscends(i: nat)
    requires i < 31
    ensures ALPHABET[i] < ALPHABET[i + 1]
  {}

  lemma {:induction false} AlphabetOrder(i: nat, j: nat)
    requires i < j < 32
    ensures ALPHABET[i] < ALPHABET[j]
  {
    AlphabetAscends(j - 1);
    if i < j - 1 {
      AlphabetOrder(i, j - 1);
    }
  }

  lemma {:induction false} IndexFound(d: nat, i: nat)
    requires i <= d < 32
    ensures IndexFrom(ALPHABET[d], i) == Some(d)
    decreases d - i
  {
    if i < d {
      AlphabetOrder(i, d);
      IndexFound(d, i + 1);
    }
  }

  // ---- encoding and its cell ----

  lemma {:induction false} EncodeAt(p: Place, n: nat, i: nat)
    requires i < n
    ensures Encode(p, n)[i] == ALPHABET[Digit(p, 5 * i, 5)]
  {
    hide Digit;
    if i < n - 1 {
      EncodeAt(p, n - 1, i);
    }
  }

  lemma EncodeIsHash(p: Place, n: nat)
    ensures IsHash(Encode(p, n))
    ensures forall i: nat :: i < n ==> Index(Encode(p, n)[i]) == Some(Digit(p, 5 * i, 5))
  {
    hide Digit, IndexFrom;
    forall i: nat | i < n ensures Index(Encode(p, n)[i]) == Some(Digit(p, 5 * i, 5)) {
      EncodeAt(p, n, i);
      IndexFound(Digit(p, 5 * i, 5), 0);
    }
  }

  lemma EncodeBit(p: Place, n: nat, m: nat)
    requires m < 5 * n
    ensures IsHash(Encode(p, n)) && HashBit(Encode(p, n), m) == PlaceBit(p, m)
  {
    hide PlaceBit, FromBits, BitOf, IndexFrom, Index, Encode;
    EncodeIsHash(p, n);
    var i := m / 5;
    var base := 5 * i;
    BitsOfDigit(PlaceBit(p, base), PlaceBit(p, base + 1), PlaceBit(p, base + 2),
                PlaceBit(p, base + 3), PlaceBit(p, base + 4));
    assert m == base + m % 5;
    assert Index(Encode(p, n)[i]) == Some(Digit(p, base, 5));
    var k := m % 5;
    assert k == 0 || k == 1 || k == 2 || k == 3 || k == 4;
  }

  lemma {:induction false} EncodeBox(p: Place, n: nat, m: nat)
    requires m <= 5 * n
    ensures IsHash(Encode(p, n)) && BoxOf(Encode(p, n), m) == CellOf(p, m)
  {
    hide Encode, HashBit, InUpper, IsHash;
    if m > 0 {
      EncodeBox(p, n, m - 1);
      EncodeBit(p, n, m - 1);
      PlaceBitIs(p, m - 1);
    } else {
      EncodeIsHash(p, n);
    }
  }

  lemma PlaceBitIs(p: Place, m: nat)
    ensures PlaceBit(p, m) == InUpper(p, CellOf(p, m), m % 2 == 0)
  {}

  // ---- which places a cell holds ----

  /** Between the bounds, the lower one included; the outermost cells also take what lies beyond the world. */
  predicate Within(v: real, s: Span, world: Span) {
    (v >= s.lo || s.lo == world.lo) && (v < s.hi || s.hi == world.hi)
  }

  predicate Holds(b: Box, p: Place) {
    Within(p.lat, b.lat, WORLD.lat) && Within(p.lon, b.lon, WORLD.lon)
  }

  predicate Inside(s: Span, world: Span) {
    world.lo <= s.lo < s.hi <= world.hi
  }

  predicate Proper(b: Box) {
    Inside(b.lat, WORLD.lat) && Inside(b.lon, WORLD.lon)
  }

  lemma HalfHolds(v: real, s: Span, world: Span, upper: bool)
    requires Inside(s, world)
    ensures Inside(s.Half(upper), world)
    ensures Within(v, s.Half(upper), world) <==> Within(v, s, world) && (v >= s.Mid()) == upper
  {}

  lemma HalveHolds(p: Place, b: Box, even: bool, upper: bool)
    requires Proper(b)
    ensures Proper(b.Halve(even, upper))
    ensures Holds(b.Halve(even, upper), p) <==> Holds(b, p) && InUpper(p, b, even) == upper
  {
    HalfHolds(p.lat, b.lat, WORLD.lat, upper);
    HalfHolds(p.lon, b.lon, WORLD.lon, upper);
  }

  lemma {:induction false} CellProper(p: Place, m: nat)
    ensures Proper(CellOf(p, m)) && Holds(CellOf(p, m), p)
  {
    hide Proper, InUpper, Holds;
    if m > 0 {
      CellProper(p, m - 1);
      var b := CellOf(p, m - 1);
      HalveHolds(p, b, (m - 1) % 2 == 0, InUpper(p, b, (m - 1) % 2 == 0));
    } else {
      WorldHolds(p);
    }
  }

  lemma WorldHolds(p: Place)
    ensures Proper(WORLD) && Holds(WORLD, p)
  {}

  /** The first `m` bits of a hash are those of `p` exactly when `p` is in the cell they lead to. */
  lemma {:induction false} BitsHold(gh: string, p: Place, m: nat)
    requires IsHash(gh) && m <= 5 * |gh|
    ensures Proper(BoxOf(gh, m))
    ensures Holds(BoxOf(gh, m), p) ==> BoxOf(gh, m) == CellOf(p, m)
    ensures Holds(BoxOf(gh, m), p) <==> forall k: nat :: k < m ==> HashBit(gh, k) == PlaceBit(p, k)
  {
    hide Proper, InUpper, Holds, HashBit, IsHash, PlaceBit;
    if m > 0 {
      BitsHold(gh, p, m - 1);
      HalveHolds(p, BoxOf(gh, m - 1), (m - 1) % 2 == 0, HashBit(gh, m - 1));
      PlaceBitIs(p, m - 1);
      if Holds(BoxOf(gh, m), p) {
        assert HashBit(gh, m - 1) == PlaceBit(p, m - 1);
      }
      if forall k: nat :: k < m ==> HashBit(gh, k) == PlaceBit(p, k) {
        assert HashBit(gh, m - 1) == PlaceBit(p, m - 1);
      }
    } else {
      WorldHolds(p);
    }
  }

  lemma SameBitsSameHash(gh: string, p: Place)
    requires IsHash(gh) && forall k: nat :: k < 5 * |gh| ==> HashBit(gh, k) == PlaceBit(p, k)
    ensures Encode(p, |gh|) == gh
  {
    hide PlaceBit, FromBits, BitOf, IndexFrom, Index, Encode;
    forall i | 0 <= i < |gh| ensures Encode(p, |gh|)[i] == gh[i] {
      var d := Index(gh[i]).value;
      IndexInAlphabet(gh[i]);
      DigitOfBits(d);
      assert HashBit(gh, 5 * i + 0) == BitOf(d, 0) && HashBit(gh, 5 * i + 1) == BitOf(d, 1)
          && HashBit(gh, 5 * i + 2) == BitOf(d, 2) && HashBit(gh, 5 * i + 3) == BitOf(d, 3)
          && HashBit(gh, 5 * i + 4) == BitOf(d, 4);
      EncodeAt(p, |gh|, i);
    }
  }

  lemma IndexInAlphabet(c: char)
    requires Index(c).Some?
    ensures Index(c).value < 32 && ALPHABET[Index(c).value] == c
  {}

  /** A place is hashed to `gh` exactly when it is in the cell of `gh`. */
  lemma EncodeExactly(gh: string, p: Place)
    requires IsHash(gh)
    ensures Encode(p, |gh|) == gh <==> Holds(BoxOf(gh, 5 * |gh|), p)
  {
    hide Holds, Encode, HashBit, PlaceBit, IsHash;
    BitsHold(gh, p, 5 * |gh|);
    if Encode(p, |gh|) == gh {
      forall k: nat | k < 5 * |gh| ensures HashBit(gh, k) == PlaceBit(p, k) {
        EncodeBit(p, |gh|, k);
      }
    } else if Holds(BoxOf(gh, 5 * |gh|), p) {
      SameBitsSameHash(gh, p);
    }
  }

  /** A place of the world lies between the bounds of its hash. */
  lemma EncodedWithinBounds(p: Place, n: nat)
    requires -90.0 <= p.lat <= 90.0 && -180.0 <= p.lon <= 180.0
    ensures Bounds(Encode(p, n)).Some?
    ensures var b := Bounds(Encode(p, n)).value; b.lat.lo <= p.lat <= b.lat.hi && b.lon.lo <= p.lon <= b.lon.hi
  {
    hide Encode, CellOf, IsHash, BoxOf;
    EncodeBox(p, n, 5 * n);
    CellProper(p, 5 * n);
  }

  // ---- prefixes and sizes ----

  lemma {:induction false} EncodePrefix(p: Place, n: nat, k: nat)
    requires k <= n
    ensures Encode(p, n)[..k] == Encode(p, k)
  {
    hide Digit;
    if k < n {
      EncodePrefix(p, n - 1, k);
    }
  }

  predicate Covers(a: Span, b: Span) {
    a.lo <= b.lo <= b.hi <= a.hi
  }

  lemma {:induction false} BoxNarrows(gh: string, k: nat, m: nat)
    requires IsHash(gh) && k <= m <= 5 * |gh|
    ensures Covers(BoxOf(gh, k).lat, BoxOf(gh, m).lat) && Covers(BoxOf(gh, k).lon, BoxOf(gh, m).lon)
    decreases m
  {
    hide HashBit, IsHash;
    BoxProper(gh, k);
    if k < m {
      BoxNarrows(gh, k, m - 1);
    }
  }

  lemma BoxProper(gh: string, m: nat)
    requires IsHash(gh) && m <= 5 * |gh|
    ensures Proper(BoxOf(gh, m))
  {
    BitsHold(gh, Place(0.0, 0.0), m);
  }

  lemma {:induction false} BoxOfPrefix(a: string, b: string, m: nat)
    requires IsHash(a) && IsHash(a + b) && m <= 5 * |a|
    ensures BoxOf(a + b, m) == BoxOf(a, m)
  {
    if m > 0 {
      BoxOfPrefix(a, b, m - 1);
      assert (a + b)[(m - 1) / 5] == a[(m - 1) / 5];
    }
  }

  /** A longer hash names a cell inside the cell of each of its prefixes. */
  lemma PrefixesNest(a: string, b: string)
    requires Bounds(a + b).Some?
    ensures Bounds(a).Some?
    ensures Covers(Bounds(a).value.lat, Bounds(a + b).value.lat) && Covers(Bounds(a).value.lon, Bounds(a + b).value.lon)
  {
    forall i | 0 <= i < |a| ensures Index(a[i]).Some? { assert (a + b)[i] == a[i]; }
    BoxOfPrefix(a, b, 5 * |a|);
    BoxNarrows(a + b, 5 * |a|, 5 * |a + b|);
  }

  function Pow2(n: nat): (r: real)
    ensures r >= 1.0
  {
    if n == 0 then 1.0 else 2.0 * Pow2(n - 1)
  }

  function Width(s: Span): real {
    s.hi - s.lo
  }

  /** A width doubled `k` times. */
  function Doubled(width: real, k: nat): real {
    width * Pow2(k)
  }

  lemma HalfDoubled(width: real, k: nat)
    ensures Doubled(width / 2.0, k + 1) == Doubled(width, k)
  {
    assert Pow2(k + 1) == 2.0 * Pow2(k);
    assert width / 2.0 * (2.0 * Pow2(k)) == width * Pow2(k);
  }

  lemma HalvedWidths(b: Box, even: bool, upper: bool)
    ensures var c := b.Halve(even, upper);
            && (if even then Width(c.lon) == Width(b.lon) / 2.0 && c.lat == b.lat
                else Width(c.lat) == Width(b.lat) / 2.0 && c.lon == b.lon)
  {}

  lemma {:induction false} BoxSize(gh: string, m: nat)
    requires IsHash(gh) && m <= 5 * |gh|
    ensures var b := BoxOf(gh, m);
            Doubled(Width(b.lat), m / 2) == 180.0 && Doubled(Width(b.lon), (m + 1) / 2) == 360.0
  {
    hide HashBit, IsHash, Doubled, BoxOf, Box.Halve, Width;
    if m > 0 {
      BoxSize(gh, m - 1);
      BoxNext(gh, m - 1);
      var b := BoxOf(gh, m - 1);
      HalvedSoFar(m);
      HalvedWidths(b, (m - 1) % 2 == 0, HashBit(gh, m - 1));
      if m % 2 == 1 {
        HalfDoubled(Width(b.lon), m / 2);
      } else {
        HalfDoubled(Width(b.lat), m / 2 - 1);
      }
    } else {
      FirstBox(gh);
      WorldWidths();
    }
  }

  lemma WorldWidths()
    ensures Doubled(Width(WORLD.lat), 0) == 180.0 && Doubled(Width(WORLD.lon), 0) == 360.0
  {}

  /** How often latitude and longitude have been halved one halving before. */
  lemma HalvedSoFar(m: nat)
    requires m > 0
    ensures m % 2 == 1 ==> (m - 1) / 2 == m / 2 && (m + 1) / 2 == m / 2 + 1
    ensures m % 2 == 0 ==> (m - 1) / 2 == m / 2 - 1 && (m + 1) / 2 == m / 2
    ensures m - 1 + 1 == m
  {}

  lemma FirstBox(gh: string)
    requires IsHash(gh)
    ensures BoxOf(gh, 0) == WORLD
  {}

  /** An `n`-character cell is 180/2^floor(5n/2) degrees high and 360/2^ceil(5n/2) wide. */
  lemma CellSize(gh: string)
    requires Bounds(gh).Some?
    ensures var (b, n) := (Bounds(gh).value, |gh|);
            b.lat.hi - b.lat.lo == 180.0 / Pow2(5 * n / 2) && b.lon.hi - b.lon.lo == 360.0 / Pow2((5 * n + 1) / 2)
  {
    hide Pow2, BoxOf, IsHash;
    BoxSize(gh, 5 * |gh|);
    var b := BoxOf(gh, 5 * |gh|);
    Divided(b.lat.hi - b.lat.lo, Pow2(5 * |gh| / 2), 180.0);
    Divided(b.lon.hi - b.lon.lo, Pow2((5 * |gh| + 1) / 2), 360.0);
  }

  lemma Divided(width: real, factor: real, whole: real)
    requires factor >= 1.0 && width * factor == whole
    ensures width == whole / factor
  {}

  // ---- the centre, rounded to six decimals ----

  function Round6(x: real): real {
    RoundHalfEven(x * 1000000.0) as real / 1000000.0
  }

  function Center(b: Box): Place {
    Place(Round6(b.lat.Mid()), Round6(b.lon.Mid()))
  }

  lemma Round6Near(x: real)
    ensures -0.0000005 <= Round6(x) - x <= 0.0000005
  {}

  lemma {:induction false} PowGrows(k: nat, n: nat)
    requires k <= n
    ensures Pow2(k) <= Pow2(n)
  {
    if k < n {
      PowGrows(k, n - 1);
    }
  }

  lemma Powers()
    ensures Pow2(27) == 134217728.0 && Pow2(28) == 268435456.0 && Pow2(30) == 1073741824.0
  {
    assert Pow2(10) == 1024.0;
    assert Pow2(20) == 1048576.0;
    assert Pow2(27) == 134217728.0;
  }

  lemma Multiplied(a: real, b: real, c: real, d: real)
    requires 0.0 < c <= d && 0.0 < a
    ensures a <= b ==> a * c <= b * d
  {
    if a <= b {
      assert a * c <= b * c;
      assert b * c <= b * d;
    }
  }

  lemma WiderThan(width: real, factor: real, high: real, whole: real, low: real)
    requires 0.0 < factor <= high && 0.0 < width && width * factor == whole && low * high < whole
    ensures width > low
  {
    Multiplied(width, low, factor, high);
  }

  lemma NarrowerThan(width: real, factor: real, low: real, whole: real, high: real)
    requires 0.0 < low <= factor && 0.0 < high && width * factor == whole && whole < high * low
    ensures width < high
  {
    Multiplied(high, width, low, factor);
  }

  /** Up to eleven characters the cell is wide enough for its centre to survive the rounding. */
  lemma CenterEncodesBack(gh: string)
    requires Bounds(gh).Some? && |gh| <= 11
    ensures Encode(Center(Bounds(gh).value), |gh|) == gh
  {
    hide BoxOf, Encode, Pow2, Round6, IsHash;
    var b := BoxOf(gh, 5 * |gh|);
    BoxSize(gh, 5 * |gh|);
    BoxProper(gh, 5 * |gh|);
    Powers();
    PowGrows(5 * |gh| / 2, 27);
    PowGrows((5 * |gh| + 1) / 2, 28);
    WiderThan(b.lat.hi - b.lat.lo, Pow2(5 * |gh| / 2), Pow2(27), 180.0, 0.000001);
    WiderThan(b.lon.hi - b.lon.lo, Pow2((5 * |gh| + 1) / 2), Pow2(28), 360.0, 0.000001);
    Round6Near(b.lat.Mid());
    Round6Near(b.lon.Mid());
    EncodeExactly(gh, Center(b));
  }

  /** A latitude between zero and one cell above the equator, whose cell's centre is rounded to the equator. */
  lemma CenterLost(n: nat) returns (gh: string)
    requires n >= 12
    ensures |gh| == n && Bounds(gh).Some? && Encode(Center(Bounds(gh).value), n) != gh
  {
    hide BoxOf, CellOf, Encode, Pow2, IsHash, Round6;
    var w := 180.0 / Pow2(5 * n / 2);
    assert w > 0.0;
    var p := Place(1.5 * w, 0.0);
    gh := Encode(p, n);
    EncodeBox(p, n, 5 * n);
    CellProper(p, 5 * n);
    CellSize(gh);
    var b := BoxOf(gh, 5 * n);
    Powers();
    PowGrows(30, 5 * n / 2);
    NarrowerThan(w, Pow2(5 * n / 2), Pow2(30), 180.0, 0.0000002);
    assert 0.0 < b.lat.lo && 0.0 < b.lat.Mid() < 0.0000005;
    RoundedAway(b.lat.Mid());
    EncodeExactly(gh, Center(b));
  }

  lemma RoundedAway(x: real)
    requires 0.0 < x < 0.0000005
    ensures Round6(x) == 0.0
  {
    assert 0.0 < x * 1000000.0 < 0.5;
    assert (x * 1000000.0).Floor == 0;
  }

  /** Every cell's rounded centre is hashed back to the cell exactly for lengths up to eleven. */
  lemma CentersEncodeBack(n: nat)
    ensures (forall gh :: |gh| == n && Bounds(gh).Some? ==> Encode(Center(Bounds(gh).value), n) == gh) <==> n <= 11
  {
    hide Bounds, Encode, Center;
    if n <= 11 {
      forall gh | |gh| == n && Bounds(gh).Some? ensures Encode(Center(Bounds(gh).value), n) == gh {
        CenterEncodesBack(gh);
      }
    } else {
      var gh := CenterLost(n);
    }
  }

  // ---- the loops as they are written ----

  method EncodeHash(lat: real, lon: real, length: nat) returns (out: string)
    ensures out == Encode(Place(lat, lon), length)
  {
    hide InUpper, CellOf, PlaceBit, Digit, Weight, Encode;
    ghost var p := Place(lat, lon);
    var box := WORLD;
    out := "";
    var bit, ch, even := 0, 0, true;
    CellOfZero(p);
    DigitZero(p, 0);
    while |out| < length
      invariant |out| <= length && bit < 5 && (|out| == length ==> bit == 0)
      invariant box == CellOf(p, 5 * |out| + bit) && even == ((5 * |out| + bit) % 2 == 0)
      invariant ch == Digit(p, 5 * |out|, bit) && out == Encode(p, |out|)
      decreases length - |out|, 5 - bit
    {
      CellOfNext(p, 5 * |out| + bit);
      DigitNext(p, 5 * |out|, bit);
      if even {
        var mid := (box.lon.lo + box.lon.hi) / 2.0;
        if lon >= mid {
          ch := ch + Weight(bit);
          box := Box(box.lat, Span(mid, box.lon.hi));
        } else {
          box := Box(box.lat, Span(box.lon.lo, mid));
        }
      } else {
        var mid := (box.lat.lo + box.lat.hi) / 2.0;
        if lat >= mid {
          ch := ch + Weight(bit);
          box := Box(Span(mid, box.lat.hi), box.lon);
        } else {
          box := Box(Span(box.lat.lo, mid), box.lon);
        }
      }
      even := !even;
      if bit < 4 {
        bit := bit + 1;
      } else {
        EncodeNext(p, |out|);
        out := out + [ALPHABET[ch]];
        DigitZero(p, 5 * |out|);
        bit, ch := 0, 0;
      }
    }
  }

  lemma CellOfZero(p: Place)
    ensures CellOf(p, 0) == WORLD && Encode(p, 0) == ""
  {}

  lemma DigitZero(p: Place, base: nat)
    ensures Digit(p, base, 0) == 0
  {}

  lemma DigitNext(p: Place, base: nat, k: nat)
    requires k < 5
    ensures Digit(p, base, k + 1) == Digit(p, base, k) + if PlaceBit(p, base + k) then Weight(k) else 0
  {
    hide PlaceBit;
  }

  lemma EncodeNext(p: Place, n: nat)
    ensures Encode(p, n + 1) == Encode(p, n) + [ALPHABET[Digit(p, 5 * n, 5)]]
  {
    hide Digit;
  }

  lemma CellOfNext(p: Place, m: nat)
    ensures CellOf(p, m + 1) == CellOf(p, m).Halve(m % 2 == 0, PlaceBit(p, m))
    ensures PlaceBit(p, m) == if m % 2 == 0 then p.lon >= CellOf(p, m).lon.Mid() else p.lat >= CellOf(p, m).lat.Mid()
  {}

  /** The halvings of the first `k` bits of one character. */
  function HalveBits(b: Box, even: bool, d: nat, k: nat): Box
    requires k <= 5
  {
    if k == 0 then b else HalveBits(b, even, d, k - 1).Halve(even == ((k - 1) % 2 == 0), BitOf(d, k - 1))
  }

  lemma BoxNext(gh: string, m: nat)
    requires IsHash(gh) && m < 5 * |gh|
    ensures BoxOf(gh, m + 1) == BoxOf(gh, m).Halve(m % 2 == 0, HashBit(gh, m))
  {
    hide HashBit, IsHash;
  }

  lemma BitAt(gh: string, n: nat, k: nat)
    requires IsHash(gh) && n < |gh| && k < 5
    ensures 5 * n + k < 5 * |gh| && HashBit(gh, 5 * n + k) == BitOf(Index(gh[n]).value, k)
  {
    hide BitOf, Index;
    assert (5 * n + k) / 5 == n && (5 * n + k) % 5 == k;
  }

  lemma Parity(n: nat, k: nat)
    ensures ((5 * n + k) % 2 == 0) == ((5 * n % 2 == 0) == (k % 2 == 0))
  {
    ParitySum(5 * n, k);
  }

  lemma ParitySum(a: nat, b: nat)
    ensures ((a + b) % 2 == 0) == ((a % 2 == 0) == (b % 2 == 0))
  {
    assert a + b == 2 * (a / 2 + b / 2) + a % 2 + b % 2;
  }

  lemma {:induction false} HalveChar(gh: string, n: nat, k: nat)
    requires IsHash(gh) && n < |gh| && k <= 5
    ensures BoxOf(gh, 5 * n + k) == HalveBits(BoxOf(gh, 5 * n), IsEven(5 * n), Index(gh[n]).value, k)
  {
    hide BitOf, Index, BoxOf, HashBit, IsHash;
    if k > 0 {
      HalveChar(gh, n, k - 1);
      BoxNext(gh, 5 * n + (k - 1));
      BitAt(gh, n, k - 1);
      Parity(n, k - 1);
    }
  }

  method ReadChar(box: Box, even: bool, cd: nat) returns (b: Box, e: bool)
    ensures b == HalveBits(box, even, cd, 5) && e == !even
  {
    hide BitOf;
    b, e := box, even;
    for k := 0 to 5
      invariant e == (even == (k % 2 == 0)) && b == HalveBits(box, even, cd, k)
    {
      if e {
        b := Box(b.lat, b.lon.Half(BitOf(cd, k)));
      } else {
        b := Box(b.lat.Half(BitOf(cd, k)), b.lon);
      }
      e := !e;
    }
  }

  predicate IsEven(m: nat) {
    m % 2 == 0
  }

  lemma EvenAtStart()
    ensures IsEven(0)
  {}

  lemma EvenAfterChar(n: nat)
    ensures IsEven(5 * (n + 1)) == !IsEven(5 * n)
  {
    ParitySum(5 * n, 5);
    assert 5 * (n + 1) == 5 * n + 5;
  }

  method BoundsOf(gh: string) returns (r: Option<Box>)
    ensures r == Bounds(gh)
  {
    hide IndexFrom, Index, HalveBits, HashBit, BoxOf, IsEven;
    EvenAtStart();
    var box, even := WORLD, true;
    if IsHash(gh) {
      FirstBox(gh);
    }
    for n := 0 to |gh|
      invariant forall i :: 0 <= i < n ==> Index(gh[i]).Some?
      invariant even == IsEven(5 * n)
      invariant IsHash(gh) ==> box == BoxOf(gh, 5 * n)
    {
      EvenAfterChar(n);
      var cd := Index(gh[n]);
      if cd.None? {
        return None;
      }
      if IsHash(gh) {
        HalveChar(gh, n, 5);
      }
      box, even := ReadChar(box, even, cd.value);
    }
    return Some(box);
  }
}
