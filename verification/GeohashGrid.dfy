/**
 The geohash as a grid: which characters there are, and which part of the cell so far each of them picks. A known hash
 as an example.
 */
module GeohashGrid {
  import opened Util
  import opened Geohash

  /** The ten digits, then the small letters without a, i, l and o, in ascending order. */
  lemma AlphabetIs()
    ensures |ALPHABET| == 32
    ensures forall d :: 0 <= d < 10 ==> ALPHABET[d] as int == '0' as int + d
    ensures forall d :: 10 <= d < 32 ==> 'a' <= ALPHABET[d] <= 'z' && ALPHABET[d] !in "ailo"
    ensures forall d, e :: 0 <= d < e < 32 ==> ALPHABET[d] < ALPHABET[e]
  {
    forall d, e | 0 <= d < e < 32 ensures ALPHABET[d] < ALPHABET[e] { AlphabetOrder(d, e); }
    forall d | 10 <= d < 32 ensures 'a' <= ALPHABET[d] <= 'z' && ALPHABET[d] !in "ailo" { LettersAre(d); }
  }

  lemma LettersAre(d: nat)
    requires 10 <= d < 32
    ensures 'a' <= ALPHABET[d] <= 'z' && ALPHABET[d] !in "ailo"
  {}

  /** A character is read as its place in the alphabet, and no other character is read. */
  lemma ReadAsPlace(c: char)
    ensures Index(c).Some? <==> c in ALPHABET
    ensures Index(c).Some? ==> ALPHABET[Index(c).value] == c
  {
    if c in ALPHABET {
      var d :| 0 <= d < |ALPHABET| && ALPHABET[d] == c;
      IndexFound(d, 0);
    }
  }

  /** Part `k` of `n` equal parts of a span. */
  function Part(s: Span, k: int, n: int): Span
    requires n > 0
  {
    Span(s.lo + k as real * ((s.hi - s.lo) / n as real), s.lo + (k + 1) as real * ((s.hi - s.lo) / n as real))
  }

  /** The first, third and fifth of the five binary digits of a number, read as one number. */
  function OddDigits(d: nat): nat {
    4 * (d / 16 % 2) + 2 * (d / 4 % 2) + d % 2
  }

  /** The second and the fourth. */
  function EvenDigits(d: nat): nat {
    2 * (d / 8 % 2) + d / 2 % 2
  }

  lemma TwoHalves(s: Span, a: bool, b: bool)
    ensures s.Half(a).Half(b) == Part(s, (if a then 2 else 0) + (if b then 1 else 0), 4)
  {}

  lemma ThreeHalves(s: Span, a: bool, b: bool, c: bool)
    ensures s.Half(a).Half(b).Half(c) ==
            Part(s, (if a then 4 else 0) + (if b then 2 else 0) + (if c then 1 else 0), 8)
  {}

  lemma DigitsAreBits(d: nat)
    requires d < 32
    ensures OddDigits(d) == (if BitOf(d, 0) then 4 else 0) + (if BitOf(d, 2) then 2 else 0) + if BitOf(d, 4) then 1
                                                                                              else 0
    ensures EvenDigits(d) == (if BitOf(d, 1) then 2 else 0) + if BitOf(d, 3) then 1 else 0
  {}

  lemma FiveHalves(b: Box, even: bool, d: nat)
    requires d < 32
    ensures HalveBits(b, even, d, 5) ==
            if even then Box(Part(b.lat, EvenDigits(d), 4), Part(b.lon, OddDigits(d), 8))
            else Box(Part(b.lat, OddDigits(d), 8), Part(b.lon, EvenDigits(d), 4))
  {
    hide BitOf, Part, OddDigits, EvenDigits, Span.Half;
    DigitsAreBits(d);
    var (first, second) := if even then (b.lon, b.lat) else (b.lat, b.lon);
    ThreeHalves(first, BitOf(d, 0), BitOf(d, 2), BitOf(d, 4));
    TwoHalves(second, BitOf(d, 1), BitOf(d, 3));
    StepByStep(b, even, d);
  }

  lemma StepByStep(b: Box, even: bool, d: nat)
    ensures var (first, second) := if even then (b.lon, b.lat) else (b.lat, b.lon);
            var x := first.Half(BitOf(d, 0)).Half(BitOf(d, 2)).Half(BitOf(d, 4));
            var y := second.Half(BitOf(d, 1)).Half(BitOf(d, 3));
            HalveBits(b, even, d, 5) == if even then Box(y, x) else Box(x, y)
  {
    hide BitOf, Span.Half;
    HalveNext(b, even, d, 0);
    HalveNext(b, even, d, 1);
    HalveNext(b, even, d, 2);
    HalveNext(b, even, d, 3);
    HalveNext(b, even, d, 4);
  }

  lemma HalveNext(b: Box, even: bool, d: nat, k: nat)
    requires k < 5
    ensures HalveBits(b, even, d, 0) == b
    ensures HalveBits(b, even, d, k + 1) == HalveBits(b, even, d, k).Halve(even == (k % 2 == 0), BitOf(d, k))
  {
    hide BitOf, Span.Half;
  }

  /**
   A character in an odd place picks one of eight columns and four rows of the cell before
   it, one in an even place one of four columns and eight rows: the column from the character's odd binary digits and
   the row from its even ones, or the other way round.
   */
  lemma CharPicksCell(gh: string, d: nat)
    requires Bounds(gh).Some? && d < 32
    ensures var b := Bounds(gh).value;
            Bounds(gh + [ALPHABET[d]]) ==
            Some(if |gh| % 2 == 0 then Box(Part(b.lat, EvenDigits(d), 4), Part(b.lon, OddDigits(d), 8))
                 else Box(Part(b.lat, OddDigits(d), 8), Part(b.lon, EvenDigits(d), 4)))
  {
    hide IndexFrom, HalveBits, BoxOf, Part, OddDigits, EvenDigits, BitOf;
    var longer := gh + [ALPHABET[d]];
    IndexFound(d, 0);
    forall i | 0 <= i < |longer| ensures Index(longer[i]).Some? {
      if i < |gh| { assert longer[i] == gh[i]; } else { assert longer[i] == ALPHABET[d]; }
    }
    BoxOfPrefix(gh, [ALPHABET[d]], 5 * |gh|);
    HalveChar(longer, |gh|, 5);
    assert Index(longer[|gh|]).value == d;
    FiveHalves(BoxOf(gh, 5 * |gh|), IsEven(5 * |gh|), d);
    Parity(|gh|, 0);
    OddLength(|gh|);
  }

  /** The empty hash is the world. */
  lemma EmptyIsWorld()
    ensures Bounds("") == Some(Box(Span(-90.0, 90.0), Span(-180.0, 180.0)))
  {}

  lemma {:induction false} OddLength(n: nat)
    ensures IsEven(5 * n) <==> n % 2 == 0
  {
    if n == 0 {
      EvenAtStart();
    } else {
      hide IsEven;
      OddLength(n - 1);
      EvenAfterChar(n - 1);
    }
  }

  lemma KnownStart()
    ensures Bounds("ez") == Some(Box(Span(39.375, 45.0), Span(-11.25, 0.0)))
  {
    hide Bounds;
    EmptyIsWorld();
    Letters();
    NextCell("", Box(Span(-90.0, 90.0), Span(-180.0, 180.0)), 13, Box(Span(0.0, 45.0), Span(-45.0, 0.0)));
    NextCell("e", Box(Span(0.0, 45.0), Span(-45.0, 0.0)), 31, Box(Span(39.375, 45.0), Span(-11.25, 0.0)));
  }

  lemma KnownCell()
    ensures Bounds("ezs4") == Some(Box(Span(42.5390625, 42.71484375), Span(-5.625, -5.2734375)))
  {
    hide Bounds;
    KnownStart();
    Letters();
    NextCell("ez", Box(Span(39.375, 45.0), Span(-11.25, 0.0)), 24,
             Box(Span(42.1875, 43.59375), Span(-5.625, -4.21875)));
    NextCell("ezs", Box(Span(42.1875, 43.59375), Span(-5.625, -4.21875)), 4,
             Box(Span(42.5390625, 42.71484375), Span(-5.625, -5.2734375)));
  }

  /** The usual example. */
  lemma KnownHash()
    ensures Encode(Place(42.6, -5.6), 5) == "ezs42"
  {
    hide Bounds, Encode;
    KnownCell();
    Letters();
    var b := Box(Span(42.5830078125, 42.626953125), Span(-5.625, -5.5810546875));
    NextCell("ezs4", Box(Span(42.5390625, 42.71484375), Span(-5.625, -5.2734375)), 2, b);
    Hashed("ezs42", Place(42.6, -5.6), b);
  }

  lemma Letters()
    ensures "" + [ALPHABET[13]] == "e" && "e" + [ALPHABET[31]] == "ez" && "ez" + [ALPHABET[24]] == "ezs"
    ensures "ezs" + [ALPHABET[4]] == "ezs4" && "ezs4" + [ALPHABET[2]] == "ezs42"
  {}

  lemma NextCell(gh: string, b: Box, d: nat, next: Box)
    requires Bounds(gh) == Some(b) && d < 32
    requires next == if |gh| % 2 == 0 then Box(Part(b.lat, EvenDigits(d), 4), Part(b.lon, OddDigits(d), 8))
                     else Box(Part(b.lat, OddDigits(d), 8), Part(b.lon, EvenDigits(d), 4))
    ensures Bounds(gh + [ALPHABET[d]]) == Some(next)
  {
    CharPicksCell(gh, d);
  }

  /** A place well inside the cell of a hash has that hash. */
  lemma Hashed(gh: string, p: Place, b: Box)
    requires Bounds(gh) == Some(b) && b.lat.lo <= p.lat < b.lat.hi && b.lon.lo <= p.lon < b.lon.hi
    ensures Encode(p, |gh|) == gh
  {
    hide IndexFrom, BoxOf, Encode, IsHash;
    EncodeExactly(gh, p);
    BoxProper(gh, 5 * |gh|);
  }
}
