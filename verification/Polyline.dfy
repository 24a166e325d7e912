/**
 The encoded polyline (Google's Encoded Polyline Algorithm Format) over points on the 1e-5 degree
 grid: zigzag, five bits a character, differences from the point before.
 */
module Polyline {
  import opened Util

  datatype Point = Point(lon: int, lat: int)

  // ---- one number ----

  /** `~(v << 1)` for a negative number, `v << 1` otherwise. */
  function Zigzag(v: int): nat {
    if v < 0 then -2 * v - 1 else 2 * v
  }

  function Unzigzag(r: nat): int {
    if r % 2 == 1 then -(r / 2) - 1 else r / 2
  }

  function CharOf(chunk: nat): char
    requires chunk < 64
  {
    (chunk + 63) as char
  }

  function ChunkOf(c: char): int {
    c as int - 63
  }

  /** Five bits at a time, lowest first, all but the last with the continuation bit. */
  function Chars(z: nat): (s: string)
    ensures s != ""
  {
    if z < 32 then [CharOf(z)] else [CharOf(32 + z % 32)] + Chars(z / 32)
  }

  function Enc(v: int): string {
    Chars(Zigzag(v))
  }

  /** The number that starts at `i`, and where the next one starts. `None` past the end. */
  function ReadBits(s: string, i: nat): Option<(nat, nat)>
    requires i <= |s|
    decreases |s| - i
  {
    if i == |s| then None
    else
      var b := ChunkOf(s[i]);
      if b < 32 then Some((b % 32, i + 1))
      else
        var rest := ReadBits(s, i + 1);
        if rest.None? then None else Some((b % 32 + 32 * rest.value.0, rest.value.1))
  }

  // ---- a line ----

  function EncodeFrom(ps: seq<Point>, i: nat, last: Point): string
    requires i <= |ps|
    decreases |ps| - i
  {
    if i == |ps| then ""
    else Enc(ps[i].lat - last.lat) + Enc(ps[i].lon - last.lon) + EncodeFrom(ps, i + 1, ps[i])
  }

  function Encode(ps: seq<Point>): string {
    EncodeFrom(ps, 0, Point(0, 0))
  }

  function ReadPoint(s: string, i: nat, last: Point): Option<(Point, nat)>
    requires i <= |s|
  {
    var lat := ReadBits(s, i);
    if lat.None? || lat.value.1 > |s| then None
    else
      var lon := ReadBits(s, lat.value.1);
      if lon.None? then None
      else Some((Point(last.lon + Unzigzag(lon.value.0), last.lat + Unzigzag(lat.value.0)), lon.value.1))
  }

  lemma {:induction false} ReadBitsMoves(s: string, i: nat)
    requires i <= |s|
    ensures ReadBits(s, i).Some? ==> i < ReadBits(s, i).value.1 <= |s|
    decreases |s| - i
  {
    if i < |s| {
      ReadBitsMoves(s, i + 1);
    }
  }

  function DecodeFrom(s: string, i: nat, last: Point): Option<seq<Point>>
    requires i <= |s|
    decreases |s| - i
  {
    if i == |s| then Some([])
    else
      var r := ReadPoint(s, i, last);
      if r.None? || !(i < r.value.1 <= |s|) then None
      else
        var rest := DecodeFrom(s, r.value.1, r.value.0);
        if rest.None? then None else Some([r.value.0] + rest.value)
  }

  /** `None` where the program runs past the end of a truncated text. */
  function Decode(s: string): Option<seq<Point>> {
    DecodeFrom(s, 0, Point(0, 0))
  }

  // ---- round trip ----

  predicate At(s: string, i: nat, t: string) {
    i + |t| <= |s| && forall k :: 0 <= k < |t| ==> s[i + k] == t[k]
  }

  lemma AtSplit(s: string, i: nat, a: string, b: string)
    requires At(s, i, a + b)
    ensures At(s, i, a) && At(s, i + |a|, b)
  {
    forall k | 0 <= k < |a| ensures s[i + k] == a[k] { assert (a + b)[k] == a[k]; }
    forall k | 0 <= k < |b| ensures s[i + |a| + k] == b[k] { assert (a + b)[|a| + k] == b[k]; }
  }

  lemma ZigzagUndone(v: int)
    ensures Unzigzag(Zigzag(v)) == v
  {}

  lemma UnzigzagUndone(r: nat)
    ensures Zigzag(Unzigzag(r)) == r
  {}

  lemma CharRead(chunk: nat)
    requires chunk < 64
    ensures ChunkOf(CharOf(chunk)) == chunk
  {}

  lemma HighChunk(z: nat)
    ensures (32 + z % 32) % 32 == z % 32 && z == z % 32 + 32 * (z / 32)
  {}

  lemma {:induction false} ReadsBack(s: string, i: nat, z: nat)
    requires At(s, i, Chars(z))
    ensures ReadBits(s, i) == Some((z, i + |Chars(z)|))
    decreases z
  {
    hide CharOf, ChunkOf;
    if z < 32 {
      assert Chars(z)[0] == CharOf(z);
      CharRead(z);
    } else {
      var head := [CharOf(32 + z % 32)];
      AtSplit(s, i, head, Chars(z / 32));
      assert head[0] == s[i];
      CharRead(32 + z % 32);
      HighChunk(z);
      ReadsBack(s, i + 1, z / 32);
    }
  }

  lemma {:induction false} DecodesBack(s: string, i: nat, ps: seq<Point>, j: nat, last: Point)
    requires j <= |ps| && At(s, i, EncodeFrom(ps, j, last)) && i + |EncodeFrom(ps, j, last)| == |s|
    ensures DecodeFrom(s, i, last) == Some(ps[j..])
    decreases |ps| - j
  {
    hide Enc, ReadPoint;
    if j < |ps| {
      var lat, lon := Enc(ps[j].lat - last.lat), Enc(ps[j].lon - last.lon);
      var rest := EncodeFrom(ps, j + 1, ps[j]);
      AtSplit(s, i, lat + lon, rest);
      AtSplit(s, i, lat, lon);
      PointReadsBack(s, i, ps[j], last);
      DecodesBack(s, i + |lat| + |lon|, ps, j + 1, ps[j]);
      assert [ps[j]] + ps[j + 1..] == ps[j..];
    }
  }

  lemma PointReadsBack(s: string, i: nat, p: Point, last: Point)
    requires At(s, i, Enc(p.lat - last.lat)) && At(s, i + |Enc(p.lat - last.lat)|, Enc(p.lon - last.lon))
    ensures ReadPoint(s, i, last) == Some((p, i + |Enc(p.lat - last.lat)| + |Enc(p.lon - last.lon)|))
    ensures |Enc(p.lat - last.lat)| > 0
  {
    hide ReadBits, Chars;
    var dlat, dlon := p.lat - last.lat, p.lon - last.lon;
    ReadsBack(s, i, Zigzag(dlat));
    ReadsBack(s, i + |Enc(dlat)|, Zigzag(dlon));
    ZigzagUndone(dlat);
    ZigzagUndone(dlon);
  }

  /** Every list of grid points, of any size and sign, is decoded back from its encoding. */
  lemma DecodeEncode(ps: seq<Point>)
    ensures Decode(Encode(ps)) == Some(ps)
  {
    DecodesBack(Encode(ps), 0, ps, 0, Point(0, 0));
    assert ps[0..] == ps;
  }

  /** So equal encodings mean equal lines. */
  lemma EncodeInjective(ps: seq<Point>, qs: seq<Point>)
    requires Encode(ps) == Encode(qs)
    ensures ps == qs
  {
    DecodeEncode(ps);
    DecodeEncode(qs);
  }

  // ---- the format ----

  /** The number whose digits to base 32 the characters hold, lowest first. */
  function DigitSum(s: string): int {
    if s == "" then 0 else (s[0] as int - 63) % 32 + 32 * DigitSum(s[1..])
  }

  /**
   A number is written in printable characters from `?` on, each holding one digit to base 32 and all but the last a
   continuation mark; the digits make twice the number, less one from the other side of zero for a negative one.
   */
  lemma {:induction false} NumberFormat(v: int)
    ensures var s := Enc(v);
            && s != "" && DigitSum(s) == (if v >= 0 then 2 * v else -2 * v - 1)
            && forall k :: 0 <= k < |s| ==> 63 <= s[k] as int < 127 && (s[k] as int - 63 >= 32 <==> k < |s| - 1)
  {
    CharsFormat(Zigzag(v));
  }

  lemma {:induction false} CharsFormat(z: nat)
    ensures DigitSum(Chars(z)) == z
    ensures var s := Chars(z);
            forall k :: 0 <= k < |s| ==> 63 <= s[k] as int < 127 && (s[k] as int - 63 >= 32 <==> k < |s| - 1)
  {
    var s := Chars(z);
    if z < 32 {
      assert s[1..] == "" && DigitSum("") == 0;
    } else {
      CharsFormat(z / 32);
      HighChunk(z);
      assert s[1..] == Chars(z / 32);
      forall k | 1 <= k < |s| ensures s[k] == Chars(z / 32)[k - 1] {}
    }
  }

  lemma {:induction false} EncodeAppends(ps: seq<Point>, p: Point, i: nat, last: Point)
    requires i <= |ps|
    ensures var from := if i == |ps| then last else ps[|ps| - 1];
            EncodeFrom(ps + [p], i, last) ==
            EncodeFrom(ps, i, last) + (Enc(p.lat - from.lat) + Enc(p.lon - from.lon))
    decreases |ps| - i
  {
    hide Enc;
    if i == |ps| {
      assert EncodeFrom(ps + [p], i + 1, p) == "";
    } else {
      EncodeAppends(ps, p, i + 1, ps[i]);
      assert (ps + [p])[i] == ps[i];
    }
  }

  /** A further point adds its latitude and then its longitude, each counted from the point before or from zero. */
  lemma NextPoint(ps: seq<Point>, p: Point)
    ensures var from := if ps == [] then Point(0, 0) else ps[|ps| - 1];
            Encode(ps + [p]) == Encode(ps) + (Enc(p.lat - from.lat) + Enc(p.lon - from.lon))
    ensures Encode([]) == ""
  {
    hide Enc;
    EncodeAppends(ps, p, 0, Point(0, 0));
  }

  lemma ManyChars(z: nat)
    ensures z >= 32 ==> Chars(z) == [CharOf(32 + z % 32)] + Chars(z / 32)
    ensures z < 32 ==> Chars(z) == [CharOf(z)]
  {}

  /** Google's own example: the points (38.5, -120.2), (40.7, -120.95) and (43.252, -126.453). */
  lemma DocumentedExample()
    ensures Encode([Point(-12020000, 3850000), Point(-12095000, 4070000), Point(-12645300, 4325200)]) ==
            "_p~iF~ps|U" + "_ulLnnqC" + "_mqNvxq`@"
  {
    hide Enc;
    var a, b, c := Point(-12020000, 3850000), Point(-12095000, 4070000), Point(-12645300, 4325200);
    NextPoint([], a);
    NextPoint([a], b);
    NextPoint([a, b], c);
    assert [] + [a] == [a] && [a] + [b] == [a, b] && [a, b] + [c] == [a, b, c];
    ExampleNumbers();
  }

  lemma ExampleNumbers()
    ensures Enc(3850000) == "_p~iF" && Enc(-12020000) == "~ps|U"
    ensures Enc(220000) == "_ulL" && Enc(-75000) == "nnqC"
    ensures Enc(255200) == "_mqN" && Enc(-550300) == "vxq`@"
  {
    hide Chars;
    FiveChars(0, 17, 31, 10, 7);
    FiveChars(31, 17, 20, 29, 22);
    FourChars(0, 22, 13, 13);
    FourChars(15, 15, 18, 4);
    FourChars(0, 14, 18, 15);
    FiveChars(23, 25, 18, 1, 1);
  }

  lemma FourChars(a: nat, b: nat, c: nat, d: nat)
    requires a < 32 && b < 32 && c < 32 && 0 < d < 32
    ensures Chars(a + 32 * b + 1024 * c + 32768 * d) == [CharOf(32 + a), CharOf(32 + b), CharOf(32 + c), CharOf(d)]
  {
    hide Chars, CharOf;
    ManyChars(d);
    ManyChars(c + 32 * d);
    ManyChars(b + 32 * (c + 32 * d));
    ManyChars(a + 32 * (b + 32 * (c + 32 * d)));
  }

  lemma FiveChars(a: nat, b: nat, c: nat, d: nat, e: nat)
    requires a < 32 && b < 32 && c < 32 && d < 32 && 0 < e < 32
    ensures Chars(a + 32 * b + 1024 * c + 32768 * d + 1048576 * e) ==
            [CharOf(32 + a), CharOf(32 + b), CharOf(32 + c), CharOf(32 + d), CharOf(e)]
  {
    hide Chars, CharOf;
    FourChars(b, c, d, e);
    var rest := b + 32 * c + 1024 * d + 32768 * e;
    ManyChars(a + 32 * rest);
  }

  // ---- which texts are encodings ----

  /** Only characters the encoder writes, and no number padded with a zero group. */
  predicate Minimal(s: string) {
    && (forall i :: 0 <= i < |s| ==> 63 <= s[i] as int <= 126)
    && (forall i :: 0 < i < |s| && s[i] as int == 63 ==> s[i - 1] as int < 95)
  }

  /** The part of `Minimal` about positions `i..j`. */
  predicate MinimalIn(s: string, i: int, j: int) {
    0 <= i <= j <= |s|
    && (forall k :: i <= k < j ==> 63 <= s[k] as int <= 126)
    && (forall k :: i < k < j && s[k] as int == 63 ==> s[k - 1] as int < 95)
  }

  /** A minimal number is written in the characters it was read from. */
  lemma {:induction false} MinimalNumber(s: string, i: nat)
    requires i <= |s| && ReadBits(s, i).Some?
    ensures var (z, j) := ReadBits(s, i).value;
            && i < j <= |s| && s[j - 1] as int < 95
            && (MinimalIn(s, i, j) ==> s[i..j] == Chars(z))
            && (MinimalIn(s, i, j) && z == 0 ==> s[i] as int == 63)
    decreases |s| - i
  {
    ReadBitsMoves(s, i);
    var (z, j) := ReadBits(s, i).value;
    if ChunkOf(s[i]) < 32 {
      assert s[i..j] == [s[i]];
    } else {
      var b := ChunkOf(s[i]) % 32;
      MinimalNumber(s, i + 1);
      if MinimalIn(s, i, j) {
        MinimalTail(s, i, j, b, ReadBits(s, i + 1).value.0);
      }
    }
  }

  lemma MinimalTail(s: string, i: nat, j: nat, b: nat, rest: nat)
    requires i + 1 < j <= |s| && MinimalIn(s, i, j) && ChunkOf(s[i]) >= 32 && b == ChunkOf(s[i]) % 32
    requires MinimalIn(s, i + 1, j) ==> s[i + 1..j] == Chars(rest)
    requires MinimalIn(s, i + 1, j) && rest == 0 ==> s[i + 1] as int == 63
    ensures rest > 0 && s[i..j] == Chars(b + 32 * rest)
  {
    assert MinimalIn(s, i + 1, j);
    assert (b + 32 * rest) % 32 == b && (b + 32 * rest) / 32 == rest;
    assert s[i..j] == [s[i]] + s[i + 1..j];
  }

  lemma {:induction false} CharsMinimal(z: nat)
    ensures MinimalIn(Chars(z), 0, |Chars(z)|) && Chars(z)[|Chars(z)| - 1] as int < 95
    ensures z > 0 ==> Chars(z)[|Chars(z)| - 1] as int != 63
  {
    if z >= 32 {
      CharsMinimal(z / 32);
      var t := Chars(z / 32);
      var s := [CharOf(32 + z % 32)] + t;
      forall k | 0 < k < |s| && s[k] as int == 63 ensures s[k - 1] as int < 95 {
        if k == 1 { HeadNotZero(z / 32); } else { assert t[k - 1] == s[k] && t[k - 2] == s[k - 1]; }
      }
    }
  }

  lemma HeadNotZero(z: nat)
    requires z > 0
    ensures Chars(z)[0] as int != 63
  {}

  lemma MinimalAppend(a: string, b: string)
    requires Minimal(a) && Minimal(b) && (a == "" || a[|a| - 1] as int < 95)
    ensures Minimal(a + b)
  {
    var s := a + b;
    forall k | 0 < k < |s| && s[k] as int == 63 ensures s[k - 1] as int < 95 {
      if k > |a| { assert b[k - |a|] == s[k] && b[k - |a| - 1] == s[k - 1]; }
    }
  }

  lemma EncMinimal(v: int)
    ensures Minimal(Enc(v)) && Enc(v)[|Enc(v)| - 1] as int < 95
  {
    CharsMinimal(Zigzag(v));
  }

  lemma {:induction false} EncodeMinimal(ps: seq<Point>, i: nat, last: Point)
    requires i <= |ps|
    ensures Minimal(EncodeFrom(ps, i, last))
    decreases |ps| - i
  {
    hide Enc, Minimal;
    if i == |ps| {
      EmptyMinimal();
    } else {
      EncodeMinimal(ps, i + 1, ps[i]);
      var lat, lon := Enc(ps[i].lat - last.lat), Enc(ps[i].lon - last.lon);
      EncMinimal(ps[i].lat - last.lat);
      EncMinimal(ps[i].lon - last.lon);
      MinimalAppend(lat, lon);
      MinimalAppend(lat + lon, EncodeFrom(ps, i + 1, ps[i]));
    }
  }

  lemma EmptyMinimal()
    ensures Minimal("")
  {}

  lemma {:induction false} MinimalReencodes(s: string, i: nat, last: Point)
    requires i <= |s| && Minimal(s) && DecodeFrom(s, i, last).Some?
    ensures EncodeFrom(DecodeFrom(s, i, last).value, 0, last) == s[i..]
    decreases |s| - i
  {
    hide Enc, ReadPoint, Minimal;
    if i < |s| {
      var (p, k) := ReadPoint(s, i, last).value;
      PointReencodes(s, i, last);
      MinimalReencodes(s, k, p);
      var rest := DecodeFrom(s, k, p).value;
      EncodeShift([p] + rest, rest, 1, 0, p);
      assert s[i..] == s[i..k] + s[k..];
    }
  }

  lemma PointReencodes(s: string, i: nat, last: Point)
    requires i <= |s| && Minimal(s) && ReadPoint(s, i, last).Some?
    ensures var (p, k) := ReadPoint(s, i, last).value;
            i < k <= |s| && s[i..k] == Enc(p.lat - last.lat) + Enc(p.lon - last.lon)
  {
    hide ReadBits, Chars;
    var (zlat, j) := ReadBits(s, i).value;
    MinimalNumber(s, i);
    var (zlon, k) := ReadBits(s, j).value;
    MinimalNumber(s, j);
    PartsMinimal(s, i, j);
    PartsMinimal(s, j, k);
    UnzigzagUndone(zlat);
    UnzigzagUndone(zlon);
    assert s[i..k] == s[i..j] + s[j..k];
  }

  lemma PartsMinimal(s: string, i: nat, j: nat)
    requires Minimal(s) && i <= j <= |s|
    ensures MinimalIn(s, i, j)
  {}

  lemma {:induction false} EncodeShift(a: seq<Point>, b: seq<Point>, i: nat, j: nat, last: Point)
    requires i <= |a| && j <= |b| && a[i..] == b[j..]
    ensures EncodeFrom(a, i, last) == EncodeFrom(b, j, last)
    decreases |a| - i
  {
    hide Enc;
    if i < |a| {
      assert a[i] == a[i..][0] && b[j] == b[j..][0];
      assert a[i + 1..] == a[i..][1..] && b[j + 1..] == b[j..][1..];
      EncodeShift(a, b, i + 1, j + 1, a[i]);
    }
  }

  /** A decodable text is the encoding of what it decodes to exactly when it is minimal. */
  lemma EncodeDecode(s: string)
    requires Decode(s).Some?
    ensures Encode(Decode(s).value) == s <==> Minimal(s)
  {
    EncodeMinimal(Decode(s).value, 0, Point(0, 0));
    if Minimal(s) {
      MinimalReencodes(s, 0, Point(0, 0));
      assert s[0..] == s;
    }
  }

  // ---- the codec as it is written ----

  method EncNumber(v: int) returns (out: string)
    ensures out == Enc(v)
  {
    var z: nat := if v < 0 then -2 * v - 1 else 2 * v;
    out := "";
    ghost var whole := Chars(z);
    while z >= 32
      invariant out + Chars(z) == whole
      decreases z
    {
      out := out + [CharOf(32 + z % 32)];
      z := z / 32;
    }
    out := out + [CharOf(z)];
  }

  method EncodePolyline(points: seq<Point>) returns (out: string)
    ensures out == Encode(points)
  {
    hide Enc;
    out := "";
    var last := Point(0, 0);
    for i := 0 to |points|
      invariant out + EncodeFrom(points, i, last) == Encode(points)
    {
      var lat := EncNumber(points[i].lat - last.lat);
      var lon := EncNumber(points[i].lon - last.lon);
      assert out + EncodeFrom(points, i, last) == out + lat + lon + EncodeFrom(points, i + 1, points[i]);
      out := out + lat + lon;
      last := points[i];
    }
    assert out + "" == out;
  }

  /** What is still to be read, on top of the bits already read. */
  function Over(result: nat, scale: nat, rest: Option<(nat, nat)>): Option<(nat, nat)> {
    if rest.None? then None else Some((result + scale * rest.value.0, rest.value.1))
  }

  lemma OverNext(s: string, i: nat, result: nat, scale: nat)
    requires i < |s|
    ensures Over(result, scale, ReadBits(s, i)) ==
            var b := ChunkOf(s[i]);
            if b < 32 then Some((result + scale * (b % 32), i + 1))
            else Over(result + scale * (b % 32), 32 * scale, ReadBits(s, i + 1))
  {
    var b, rest := ChunkOf(s[i]), ReadBits(s, i + 1);
    if b >= 32 && rest.Some? {
      assert scale * (b % 32 + 32 * rest.value.0) == scale * (b % 32) + 32 * scale * rest.value.0;
    }
  }

  method ReadNumber(s: string, start: nat) returns (r: Option<(nat, nat)>)
    requires start <= |s|
    ensures r == ReadBits(s, start)
  {
    hide ReadBits;
    var i := start;
    var result: nat, scale: nat := 0, 1;
    while i < |s|
      invariant start <= i <= |s| && ReadBits(s, start) == Over(result, scale, ReadBits(s, i))
      decreases |s| - i
    {
      OverNext(s, i, result, scale);
      var b := ChunkOf(s[i]);
      i := i + 1;
      result := result + scale * (b % 32);
      scale := 32 * scale;
      if b < 32 {
        return Some((result, i));
      }
    }
    NothingLeft(s);
    return None;
  }

  lemma NothingLeft(s: string)
    ensures ReadBits(s, |s|) == None
  {}

  function Prepend(out: seq<Point>, rest: Option<seq<Point>>): Option<seq<Point>> {
    if rest.None? then None else Some(out + rest.value)
  }

  lemma PrependNext(out: seq<Point>, p: Point, rest: Option<seq<Point>>)
    ensures Prepend(out + [p], rest) == Prepend(out, Prepend([p], rest))
    ensures Prepend([], rest) == rest
  {
    if rest.Some? {
      assert out + [p] + rest.value == out + ([p] + rest.value);
      assert [] + rest.value == rest.value;
    }
  }

  method DecodePolyline(s: string) returns (r: Option<seq<Point>>)
    ensures r == Decode(s)
  {
    hide ReadBits;
    var out: seq<Point> := [];
    var i, last := 0, Point(0, 0);
    PrependNext([], last, Decode(s));
    while i < |s|
      invariant i <= |s|
      invariant Decode(s) == Prepend(out, DecodeFrom(s, i, last))
      decreases |s| - i
    {
      ReadBitsMoves(s, i);
      var lat := ReadNumber(s, i);
      if lat.None? {
        return None;
      }
      ReadBitsMoves(s, lat.value.1);
      var lon := ReadNumber(s, lat.value.1);
      if lon.None? {
        return None;
      }
      i, last := lon.value.1, Point(last.lon + Unzigzag(lon.value.0), last.lat + Unzigzag(lat.value.0));
      PrependNext(out, last, DecodeFrom(s, i, last));
      out := out + [last];
    }
    assert out + [] == out;
    return Some(out);
  }
}
