/** Bounded terminal text: `visibleText` and `safeMultiline` over code points. */
module SafeMultiline {
  import opened Utf16
  import opened CodePoints
  import opened SafeText

  const MAX_TEXT_CODE_POINTS: nat := 512
  const MAX_MULTILINE_BYTES: nat := 32 * 1024
  const MAX_MULTILINE_LINES: nat := 200
  const NEWLINE: Point := 0x0A

  /** The text `…[truncated]`. */
  const SUFFIX: seq<Point> := [ELLIPSIS] + TRUNCATED

  const ELLIPSIS: Point := 0x2026
  const TRUNCATED: seq<Point> := [0x5B, 0x74, 0x72, 0x75, 0x6E, 0x63, 0x61, 0x74, 0x65, 0x64, 0x5D]

  function Take(ps: seq<Point>, n: nat): seq<Point> { if |ps| <= n then ps else ps[..n] }

  /** A text of BMP units as code points. */
  function AsPoints(t: Text): seq<Point> { seq(|t|, i requires 0 <= i < |t| => t[i]) }

  function EscapeAll(unsafe: Class, ps: seq<Point>): seq<Point>
  {
    if ps == [] then [] else (if unsafe(ps[0]) then AsPoints(Escape(ps[0])) else [ps[0]]) + EscapeAll(unsafe, ps[1..])
  }

  function VisibleText(unsafe: Class, ps: seq<Point>): seq<Point>
  {
    EscapeAll(unsafe, Take(ps, MAX_TEXT_CODE_POINTS)) + if |ps| > MAX_TEXT_CODE_POINTS then SUFFIX else []
  }

  /** `split("\n")` */
  function Lines(ps: seq<Point>): (lines: seq<seq<Point>>)
    ensures lines != []
  {
    if ps == [] then [[]]
    else
      var rest := Lines(ps[1..]);
      if ps[0] == NEWLINE then [[]] + rest else [[ps[0]] + rest[0]] + rest[1..]
  }

  /** The visible lines joined by newlines. */
  function JoinVisible(unsafe: Class, lines: seq<seq<Point>>): seq<Point>
  {
    if lines == [] then []
    else if |lines| == 1 then VisibleText(unsafe, lines[0])
    else VisibleText(unsafe, lines[0]) + [NEWLINE] + JoinVisible(unsafe, lines[1..])
  }

  function Rendered(unsafe: Class, ps: seq<Point>): seq<Point>
  {
    var lines := Lines(ps);
    JoinVisible(unsafe, if |lines| <= MAX_MULTILINE_LINES then lines else lines[..MAX_MULTILINE_LINES])
  }

  function Bytes(ps: seq<Point>): nat { |Utf8(ps)| }

  lemma {:induction false} BytesAppend(x: seq<Point>, y: seq<Point>)
    ensures Bytes(x + y) == Bytes(x) + Bytes(y)
  {
    hide Utf8Point;
    if x == [] {
      assert x + y == y;
    } else {
      BytesAppend(x[1..], y);
      assert (x + y)[1..] == x[1..] + y;
    }
  }

  lemma SuffixBytes()
    ensures Bytes(SUFFIX) == 14
  {
    hide Utf8;
    BytesAppend([ELLIPSIS], TRUNCATED);
    EllipsisBytes();
    AsciiBytes(TRUNCATED);
  }

  lemma EllipsisBytes()
    ensures Bytes([ELLIPSIS]) == 3
  {
    var dots: seq<Point> := [ELLIPSIS];
    assert Utf8(dots[1..]) == [];
    assert |Utf8Point(ELLIPSIS)| == 3;
  }

  lemma {:induction false} AsciiBytes(ps: seq<Point>)
    requires forall i :: 0 <= i < |ps| ==> ps[i] < 0x80
    ensures Bytes(ps) == |ps|
  {
    if ps != [] { AsciiBytes(ps[1..]); }
  }

  /** Nothing unsafe but newlines. */
  predicate Inert(unsafe: Class, ps: seq<Point>)
  {
    forall i :: 0 <= i < |ps| ==> unsafe(ps[i]) ==> ps[i] == NEWLINE
  }

  lemma {:induction false} HexDigitsAscii(n: nat)
    ensures forall i :: 0 <= i < |HexDigits(n)| ==> 0x20 <= HexDigits(n)[i] <= 0x7E
  {
    if n >= 16 { HexDigitsAscii(n / 16); }
  }

  lemma EscapeInert(unsafe: Class, p: Point)
    requires Sane(unsafe)
    ensures Inert(unsafe, AsPoints(Escape(p)))
  {
    HexDigitsAscii(p);
  }

  lemma {:induction false} EscapeAllInert(unsafe: Class, ps: seq<Point>)
    requires Sane(unsafe)
    ensures Inert(unsafe, EscapeAll(unsafe, ps))
  {
    hide Escape, AsPoints;
    if ps != [] {
      EscapeInert(unsafe, ps[0]);
      EscapeAllInert(unsafe, ps[1..]);
    }
  }

  lemma VisibleInert(unsafe: Class, ps: seq<Point>)
    requires Sane(unsafe)
    ensures Inert(unsafe, VisibleText(unsafe, ps))
  {
    EscapeAllInert(unsafe, Take(ps, MAX_TEXT_CODE_POINTS));
  }

  lemma {:induction false} JoinInert(unsafe: Class, lines: seq<seq<Point>>)
    requires Sane(unsafe)
    ensures Inert(unsafe, JoinVisible(unsafe, lines))
  {
    hide VisibleText;
    if lines != [] {
      VisibleInert(unsafe, lines[0]);
      if |lines| > 1 { JoinInert(unsafe, lines[1..]); }
    }
  }

  /** `safeMultiline`: the whole rendering, or its longest prefix that fits with the suffix. */
  method SafeMultiline(unsafe: Class, value: seq<Point>) returns (r: seq<Point>)
    ensures Bytes(r) <= 32768
    ensures Sane(unsafe) ==> Inert(unsafe, r)
    ensures Bytes(Rendered(unsafe, value)) <= MAX_MULTILINE_BYTES ==> r == Rendered(unsafe, value)
    ensures Bytes(Rendered(unsafe, value)) > MAX_MULTILINE_BYTES ==>
      exists k :: 0 <= k < |Rendered(unsafe, value)| && r == Rendered(unsafe, value)[..k] + SUFFIX
                  && Bytes(Rendered(unsafe, value)[..k + 1] + SUFFIX) > MAX_MULTILINE_BYTES
  {
    hide Utf8, Rendered, Sane;
    var rendered := Rendered(unsafe, value);
    if Sane(unsafe) { RenderedInert(unsafe, value); }
    if Bytes(rendered) <= MAX_MULTILINE_BYTES { return rendered; }
    SuffixBytes();
    var bounded, k := [], 0;
    assert bounded + SUFFIX == SUFFIX;
    BytesAppend(rendered, SUFFIX);
    assert rendered[..|rendered|] == rendered;
    while k < |rendered|
      invariant 0 <= k <= |rendered| && bounded == rendered[..k]
      invariant Bytes(bounded + SUFFIX) <= MAX_MULTILINE_BYTES
    {
      if Bytes(bounded + [rendered[k]] + SUFFIX) > MAX_MULTILINE_BYTES { break; }
      bounded := bounded + [rendered[k]];
      k := k + 1;
    }
    assert rendered[..k + 1] == bounded + [rendered[k]];
    r := bounded + SUFFIX;
    if Sane(unsafe) { SuffixInert(unsafe); }
  }

  lemma RenderedInert(unsafe: Class, ps: seq<Point>)
    requires Sane(unsafe)
    ensures Inert(unsafe, Rendered(unsafe, ps))
  {
    hide Inert, JoinVisible, Sane;
    var lines := Lines(ps);
    JoinInert(unsafe, if |lines| <= MAX_MULTILINE_LINES then lines else lines[..MAX_MULTILINE_LINES]);
  }

  lemma SuffixInert(unsafe: Class)
    requires Sane(unsafe)
    ensures Inert(unsafe, SUFFIX)
  {
  }

  // ---------- the shape of the rendering ----------

  function Newlines(ps: seq<Point>): nat
  {
    if ps == [] then 0 else (if ps[0] == NEWLINE then 1 else 0) + Newlines(ps[1..])
  }

  lemma {:induction false} NewlinesAppend(x: seq<Point>, y: seq<Point>)
    ensures Newlines(x + y) == Newlines(x) + Newlines(y)
  {
    if x == [] {
      assert x + y == y;
    } else {
      NewlinesAppend(x[1..], y);
      assert (x + y)[1..] == x[1..] + y;
    }
  }

  lemma {:induction false} NoNewlines(unsafe: Class, ps: seq<Point>)
    requires Inert(unsafe, ps) && unsafe(NEWLINE) && forall i :: 0 <= i < |ps| ==> !unsafe(ps[i])
    ensures Newlines(ps) == 0
  {
    if ps != [] { NoNewlines(unsafe, ps[1..]); }
  }

  lemma {:induction false} EscapeAllSafe(unsafe: Class, ps: seq<Point>)
    requires Sane(unsafe)
    ensures forall i :: 0 <= i < |EscapeAll(unsafe, ps)| ==> !unsafe(EscapeAll(unsafe, ps)[i])
  {
    if ps != [] {
      HexDigitsAscii(ps[0]);
      EscapeAllSafe(unsafe, ps[1..]);
    }
  }

  lemma VisibleIsOneLine(unsafe: Class, ps: seq<Point>)
    requires Sane(unsafe)
    ensures Newlines(VisibleText(unsafe, ps)) == 0
  {
    hide Newlines, EscapeAll;
    EscapeAllSafe(unsafe, Take(ps, MAX_TEXT_CODE_POINTS));
    SuffixInert(unsafe);
    var t := VisibleText(unsafe, ps);
    assert forall i :: 0 <= i < |t| ==> !unsafe(t[i]);
    NoNewlines(unsafe, t);
  }

  lemma {:induction false} JoinLines(unsafe: Class, lines: seq<seq<Point>>)
    requires Sane(unsafe) && lines != []
    ensures Newlines(JoinVisible(unsafe, lines)) == |lines| - 1
  {
    hide VisibleText;
    VisibleIsOneLine(unsafe, lines[0]);
    if |lines| > 1 {
      JoinLines(unsafe, lines[1..]);
      NewlinesAppend(VisibleText(unsafe, lines[0]), [NEWLINE] + JoinVisible(unsafe, lines[1..]));
      assert VisibleText(unsafe, lines[0]) + [NEWLINE] + JoinVisible(unsafe, lines[1..])
             == VisibleText(unsafe, lines[0]) + ([NEWLINE] + JoinVisible(unsafe, lines[1..]));
      assert ([NEWLINE] + JoinVisible(unsafe, lines[1..]))[1..] == JoinVisible(unsafe, lines[1..]);
    }
  }

  /** The rendering keeps one line for each input line, up to two hundred. */
  lemma RenderedLines(unsafe: Class, ps: seq<Point>)
    requires Sane(unsafe)
    ensures Newlines(Rendered(unsafe, ps)) == (if |Lines(ps)| <= MAX_MULTILINE_LINES then |Lines(ps)| else MAX_MULTILINE_LINES) - 1
    ensures |Lines(ps)| == Newlines(ps) + 1
  {
    hide JoinVisible, Newlines;
    var lines := Lines(ps);
    JoinLines(unsafe, if |lines| <= MAX_MULTILINE_LINES then lines else lines[..MAX_MULTILINE_LINES]);
    LineCount(ps);
  }

  lemma {:induction false} LineCount(ps: seq<Point>)
    ensures |Lines(ps)| == Newlines(ps) + 1
  {
    if ps != [] { LineCount(ps[1..]); }
  }
}
