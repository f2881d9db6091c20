/** Code points of JavaScript strings and their UTF-8 bytes, as `TextEncoder` writes them. */
module CodePoints {
  import opened Utf16
  import opened Sha256

  type Point = n: int | 0 <= n <= 0x10FFFF

  predicate IsSurrogate(p: Point) { 0xD800 <= p <= 0xDFFF }

  function Pair(high: Unit, low: Unit): Point
    requires IsHighSurrogate(high) && IsLowSurrogate(low)
  {
    0x1_0000 + (high - 0xD800) * 0x400 + (low - 0xDC00)
  }

  /** `Array.from(text)`: surrogate pairs join, lone surrogates stand for themselves. */
  function Points(t: Text): seq<Point>
  {
    if t == [] then []
    else if IsHighSurrogate(t[0]) && |t| >= 2 && IsLowSurrogate(t[1]) then [Pair(t[0], t[1])] + Points(t[2..])
    else [t[0]] + Points(t[1..])
  }

  function PointUnits(p: Point): Text
  {
    if p < 0x1_0000 then [p] else [0xD800 + (p - 0x1_0000) / 0x400, 0xDC00 + (p - 0x1_0000) % 0x400]
  }

  function UnitsOf(ps: seq<Point>): Text
  {
    if ps == [] then [] else PointUnits(ps[0]) + UnitsOf(ps[1..])
  }

  lemma {:induction false} PointsRoundTrip(t: Text)
    ensures UnitsOf(Points(t)) == t
  {
    if t == [] {
    } else if IsHighSurrogate(t[0]) && |t| >= 2 && IsLowSurrogate(t[1]) {
      PointsRoundTrip(t[2..]);
      PairUnits(t[0], t[1]);
      assert t == [t[0], t[1]] + t[2..];
    } else {
      PointsRoundTrip(t[1..]);
      assert t == [t[0]] + t[1..];
    }
  }

  lemma PairUnits(high: Unit, low: Unit)
    requires IsHighSurrogate(high) && IsLowSurrogate(low)
    ensures PointUnits(Pair(high, low)) == [high, low]
  {
  }

  predicate AllScalars(ps: seq<Point>) { forall i :: 0 <= i < |ps| ==> !IsSurrogate(ps[i]) }

  /** A text is well-formed exactly when splitting it leaves no surrogate. */
  lemma {:induction false} WellFormedExactly(t: Text)
    ensures WellFormed(t) <==> AllScalars(Points(t))
  {
    if t == [] {
    } else if IsHighSurrogate(t[0]) && |t| >= 2 && IsLowSurrogate(t[1]) {
      WellFormedExactly(t[2..]);
      var ps := Points(t[2..]);
      assert Points(t) == [Pair(t[0], t[1])] + ps;
      assert forall i :: 0 <= i < |ps| ==> ([Pair(t[0], t[1])] + ps)[i + 1] == ps[i];
    } else {
      WellFormedExactly(t[1..]);
      var ps := Points(t[1..]);
      assert Points(t) == [t[0]] + ps;
      if IsSurrogate(t[0]) {
        assert Points(t)[0] == t[0];
      } else {
        assert forall i :: 0 <= i < |ps| ==> ([t[0]] + ps)[i + 1] == ps[i];
      }
    }
  }

  /** Splitting a text made of scalar values gives them back. */
  lemma {:induction false} ScalarsRoundTrip(ps: seq<Point>)
    requires AllScalars(ps)
    ensures Points(UnitsOf(ps)) == ps
  {
    if ps != [] {
      var t, rest := UnitsOf(ps), UnitsOf(ps[1..]);
      ScalarsRoundTrip(ps[1..]);
      if ps[0] < 0x1_0000 {
        assert t == [ps[0]] + rest && t[1..] == rest;
      } else {
        var high, low := PointUnits(ps[0])[0], PointUnits(ps[0])[1];
        assert t == [high, low] + rest && t[2..] == rest;
        assert Pair(high, low) == ps[0];
      }
    }
  }

  /** The bytes of one code point; a lone surrogate is written as U+FFFD. */
  function Utf8Point(p: Point): (b: seq<Byte>)
    ensures 1 <= |b| <= 4
  {
    if p < 0x80 then [p]
    else if p < 0x800 then [0xC0 + p / 0x40, 0x80 + p % 0x40]
    else if IsSurrogate(p) then [0xEF, 0xBF, 0xBD]
    else if p < 0x1_0000 then [0xE0 + p / 0x1000, 0x80 + p / 0x40 % 0x40, 0x80 + p % 0x40]
    else [0xF0 + p / 0x4_0000, 0x80 + p / 0x1000 % 0x40, 0x80 + p / 0x40 % 0x40, 0x80 + p % 0x40]
  }

  function Utf8(ps: seq<Point>): seq<Byte>
  {
    if ps == [] then [] else Utf8Point(ps[0]) + Utf8(ps[1..])
  }

  /** The length that the first byte announces. */
  function Announced(b: Byte): nat { if b < 0x80 then 1 else if b < 0xE0 then 2 else if b < 0xF0 then 3 else 4 }

  lemma FirstByteAnnounces(p: Point)
    ensures |Utf8Point(p)| == Announced(Utf8Point(p)[0])
  {
  }

  lemma SixBits(p: Point)
    ensures p == p / 0x40 * 0x40 + p % 0x40
    ensures p / 0x40 == p / 0x1000 * 0x40 + p / 0x40 % 0x40
    ensures p / 0x1000 == p / 0x4_0000 * 0x40 + p / 0x1000 % 0x40
  {
  }

  predicate Continues(b: Byte) { 0x80 <= b <= 0xBF }

  /** The shortest form of section 3 of RFC 3629: the bytes carry the bits of the scalar value, six in each that continues. */
  lemma Utf8OfScalar(p: Point)
    requires !IsSurrogate(p)
    ensures
      var b := Utf8Point(p);
      && (p <= 0x7F ==> |b| == 1 && b[0] == p)
      && (0x80 <= p <= 0x7FF ==>
            |b| == 2 && 0xC0 <= b[0] <= 0xDF && Continues(b[1]) && p == (b[0] as int - 0xC0) * 64 + (b[1] as int - 0x80))
      && (0x800 <= p <= 0xFFFF ==>
            && |b| == 3 && 0xE0 <= b[0] <= 0xEF && Continues(b[1]) && Continues(b[2])
            && p == (b[0] as int - 0xE0) * 4096 + (b[1] as int - 0x80) * 64 + (b[2] as int - 0x80))
      && (0x1_0000 <= p ==>
            && |b| == 4 && 0xF0 <= b[0] <= 0xF7 && Continues(b[1]) && Continues(b[2]) && Continues(b[3])
            && p == (b[0] as int - 0xF0) * 262144 + (b[1] as int - 0x80) * 4096 + (b[2] as int - 0x80) * 64
                + (b[3] as int - 0x80))
  {
    SixBits(p);
  }

  /** A lone surrogate is written as the replacement character. */
  lemma LoneSurrogates(p: Point)
    ensures IsSurrogate(p) ==> Utf8Point(p) == Utf8Point(0xFFFD)
  {
    assert 0xE0 + 0xFFFD / 0x1000 == 0xEF && 0x80 + 0xFFFD / 0x40 % 0x40 == 0xBF && 0x80 + 0xFFFD % 0x40 == 0xBD;
  }

  lemma Utf8PointInjective(a: Point, b: Point)
    requires !IsSurrogate(a) && !IsSurrogate(b) && Utf8Point(a) == Utf8Point(b)
    ensures a == b
  {
    SixBits(a);
    SixBits(b);
    var x, y := Utf8Point(a), Utf8Point(b);
    assert x[0] == y[0];
    assert |x| > 1 ==> x[1] == y[1];
    assert |x| > 2 ==> x[2] == y[2];
    assert |x| > 3 ==> x[3] == y[3];
  }

  /** The code is prefix-free. */
  lemma Utf8First(a: Point, x: seq<Byte>, b: Point, y: seq<Byte>)
    requires !IsSurrogate(a) && !IsSurrogate(b) && Utf8Point(a) + x == Utf8Point(b) + y
    ensures a == b && x == y
  {
    hide Utf8Point;
    var s, t := Utf8Point(a) + x, Utf8Point(b) + y;
    FirstByteAnnounces(a);
    FirstByteAnnounces(b);
    assert s[0] == Utf8Point(a)[0] && t[0] == Utf8Point(b)[0];
    assert s[..|Utf8Point(a)|] == Utf8Point(a) && t[..|Utf8Point(b)|] == Utf8Point(b);
    assert s[|Utf8Point(a)|..] == x && t[|Utf8Point(b)|..] == y;
    Utf8PointInjective(a, b);
  }

  lemma {:induction false} Utf8Injective(a: seq<Point>, b: seq<Point>)
    requires AllScalars(a) && AllScalars(b) && Utf8(a) == Utf8(b)
    ensures a == b
  {
    hide Utf8Point;
    if a != [] && b != [] {
      Utf8First(a[0], Utf8(a[1..]), b[0], Utf8(b[1..]));
      Utf8Injective(a[1..], b[1..]);
      assert a == [a[0]] + a[1..] && b == [b[0]] + b[1..];
    }
  }

  /** Encoding loses nothing of a well-formed text. */
  lemma EncodingInjective(s: Text, t: Text)
    requires WellFormed(s) && WellFormed(t) && Utf8(Points(s)) == Utf8(Points(t))
    ensures s == t
  {
    WellFormedExactly(s);
    WellFormedExactly(t);
    Utf8Injective(Points(s), Points(t));
    PointsRoundTrip(s);
    PointsRoundTrip(t);
  }
}
