/** What the rendered texts show of their input: canonical JSON on one line, and bounded text on several. */
module SafeRendering {
  import opened Outcomes
  import opened Utf16
  import opened CodePoints
  import opened JsonValue
  import opened JsonPrinter
  import opened JsonTexts
  import opened SafeText
  import opened SafeMultiline

  // ---------- one line of canonical JSON ----------

  lemma {:induction false} UnitsAppend(x: seq<Point>, y: seq<Point>)
    ensures UnitsOf(x + y) == UnitsOf(x) + UnitsOf(y)
  {
    hide PointUnits;
    if x == [] {
      assert x + y == y;
    } else {
      UnitsAppend(x[1..], y);
      assert (x + y)[1..] == x[1..] + y;
    }
  }

  lemma {:induction false} UnitsAsPoints(t: Text)
    ensures UnitsOf(AsPoints(t)) == t
  {
    if t != [] {
      UnitsAsPoints(t[1..]);
      assert AsPoints(t)[1..] == AsPoints(t[1..]);
    }
  }

  lemma {:induction false} ReplacedPoints(unsafe: Class, ps: seq<Point>)
    ensures ReplaceUnsafe(unsafe, ps) == UnitsOf(EscapeAll(unsafe, ps))
  {
    hide Escape, PointUnits, AsPoints;
    if ps != [] {
      ReplacedPoints(unsafe, ps[1..]);
      var first := if unsafe(ps[0]) then AsPoints(Escape(ps[0])) else [ps[0]];
      UnitsAppend(first, EscapeAll(unsafe, ps[1..]));
      UnitsAsPoints(Escape(ps[0]));
      assert UnitsOf([ps[0]]) == PointUnits(ps[0]) + UnitsOf([ps[0]][1..]);
    }
  }

  lemma {:induction false} EscapeAllScalars(unsafe: Class, ps: seq<Point>)
    requires AllScalars(ps)
    ensures AllScalars(EscapeAll(unsafe, ps))
  {
    if ps != [] {
      EscapeAllScalars(unsafe, ps[1..]);
      HexDigitsAscii(ps[0]);
    }
  }

  /** Safe canonical JSON is the canonical text with each unsafe character named and no other touched. */
  lemma SafeTextIsVisible(eng: Engine, unsafe: Class, v: Json)
    requires Sane(unsafe) && Faithful(eng) && OfEngine(eng, v) && Print(eng, v).Ok?
    ensures
      var shown := Points(SafeCanonicalJson(eng, unsafe, v).value);
      && shown == EscapeAll(unsafe, Points(Print(eng, v).value))
      && forall i :: 0 <= i < |shown| ==> !unsafe(shown[i])
  {
    hide Sane, Print, EscapeAll, Points, UnitsOf, Faithful, OfEngine;
    var ps := Points(Print(eng, v).value);
    PrintIsWellFormed(eng, v);
    WellFormedExactly(Print(eng, v).value);
    ReplacedPoints(unsafe, ps);
    EscapeAllScalars(unsafe, ps);
    ScalarsRoundTrip(EscapeAll(unsafe, ps));
    EscapeAllSafe(unsafe, ps);
  }

  // ---------- character by character ----------

  lemma EscapeAllHead(unsafe: Class, ps: seq<Point>)
    requires ps != []
    ensures EscapeAll(unsafe, ps) == (if unsafe(ps[0]) then AsPoints(Escape(ps[0])) else [ps[0]])
        + EscapeAll(unsafe, ps[1..])
  {
    hide Escape, AsPoints;
  }

  lemma Regroup(x: seq<Point>, y: seq<Point>, z: seq<Point>)
    ensures x + (y + z) == x + y + z
  {
  }

  lemma {:induction false} EscapeAllAppend(unsafe: Class, x: seq<Point>, y: seq<Point>)
    ensures EscapeAll(unsafe, x + y) == EscapeAll(unsafe, x) + EscapeAll(unsafe, y)
    decreases |x|
  {
    hide Escape, AsPoints;
    if x == [] {
      assert x + y == y;
    } else {
      EscapeAllHead(unsafe, x + y);
      EscapeAllHead(unsafe, x);
      hide EscapeAll;
      assert (x + y)[1..] == x[1..] + y;
      EscapeAllAppend(unsafe, x[1..], y);
      Regroup(if unsafe(x[0]) then AsPoints(Escape(x[0])) else [x[0]], EscapeAll(unsafe, x[1..]), EscapeAll(unsafe, y));
    }
  }

  /** Each character stands where it stood: an unsafe one by its notation, any other by itself. */
  lemma EscapedInPlace(unsafe: Class, ps: seq<Point>, i: nat)
    requires i < |ps|
    ensures
      EscapeAll(unsafe, ps) ==
      EscapeAll(unsafe, ps[..i]) + (if unsafe(ps[i]) then AsPoints(Escape(ps[i])) else [ps[i]])
          + EscapeAll(unsafe, ps[i + 1..])
  {
    hide Escape, AsPoints, EscapeAll;
    assert ps == ps[..i] + ps[i..] && ps[i..][1..] == ps[i + 1..];
    EscapeAllAppend(unsafe, ps[..i], ps[i..]);
    EscapeAllHead(unsafe, ps[i..]);
    Regroup(EscapeAll(unsafe, ps[..i]), if unsafe(ps[i]) then AsPoints(Escape(ps[i])) else [ps[i]],
            EscapeAll(unsafe, ps[i + 1..]));
  }

  lemma {:induction false} NothingToEscape(unsafe: Class, ps: seq<Point>)
    requires forall i :: 0 <= i < |ps| ==> !unsafe(ps[i])
    ensures EscapeAll(unsafe, ps) == ps
  {
    if ps != [] { NothingToEscape(unsafe, ps[1..]); }
  }

  // ---------- line by line ----------

  function Unlines(lines: seq<seq<Point>>): seq<Point>
  {
    if lines == [] then []
    else if |lines| == 1 then lines[0]
    else lines[0] + [NEWLINE] + Unlines(lines[1..])
  }

  predicate OneLine(ps: seq<Point>) { forall i :: 0 <= i < |ps| ==> ps[i] != 0x0A }

  /** The lines are the text between the newlines. */
  lemma {:induction false} LinesJoin(ps: seq<Point>)
    ensures Unlines(Lines(ps)) == ps && forall i :: 0 <= i < |Lines(ps)| ==> OneLine(Lines(ps)[i])
  {
    if ps != [] {
      var rest := Lines(ps[1..]);
      LinesJoin(ps[1..]);
      assert forall i :: 0 <= i < |rest| ==> OneLine(rest[i]);
      if ps[0] == NEWLINE {
        assert Lines(ps)[1..] == rest;
        assert [] + [NEWLINE] + ps[1..] == ps;
      } else {
        assert Lines(ps)[1..] == rest[1..];
        assert ps == [ps[0]] + ps[1..];
        if |rest| > 1 {
          assert [ps[0]] + (rest[0] + [NEWLINE] + Unlines(rest[1..])) == ([ps[0]] + rest[0]) + [NEWLINE]
              + Unlines(rest[1..]);
        }
      }
    }
  }

  lemma {:induction false} LinesOfOne(ps: seq<Point>)
    requires OneLine(ps)
    ensures Lines(ps) == [ps]
  {
    if ps != [] {
      LinesOfOne(ps[1..]);
      assert [ps[0]] + ps[1..] == ps;
    }
  }

  lemma {:induction false} LinesOfMore(first: seq<Point>, rest: seq<Point>)
    requires OneLine(first)
    ensures Lines(first + [NEWLINE] + rest) == [first] + Lines(rest)
  {
    var t := first + [NEWLINE] + rest;
    if first == [] {
      assert t[1..] == rest;
    } else {
      LinesOfMore(first[1..], rest);
      assert t[1..] == first[1..] + [NEWLINE] + rest;
      assert [first[0]] + first[1..] == first;
    }
  }

  /** The visible form of every line, in order. */
  function VisibleLines(unsafe: Class, lines: seq<seq<Point>>): seq<seq<Point>>
  {
    seq(|lines|, i requires 0 <= i < |lines| => VisibleText(unsafe, lines[i]))
  }

  lemma VisibleOneLine(unsafe: Class, line: seq<Point>)
    requires Sane(unsafe)
    ensures OneLine(VisibleText(unsafe, line))
  {
    hide Escape;
    EscapeAllSafe(unsafe, Take(line, MAX_TEXT_CODE_POINTS));
    assert forall i :: 0 <= i < |SUFFIX| ==> SUFFIX[i] != 0x0A;
  }

  lemma {:induction false} LinesOfJoin(unsafe: Class, lines: seq<seq<Point>>)
    requires Sane(unsafe) && lines != []
    ensures Lines(JoinVisible(unsafe, lines)) == VisibleLines(unsafe, lines)
  {
    hide VisibleText, Sane, Lines;
    VisibleOneLine(unsafe, lines[0]);
    if |lines| == 1 {
      LinesOfOne(VisibleText(unsafe, lines[0]));
    } else {
      LinesOfJoin(unsafe, lines[1..]);
      LinesOfMore(VisibleText(unsafe, lines[0]), JoinVisible(unsafe, lines[1..]));
    }
  }

  /** The lines of the rendering are the visible forms of the lines of the text, the first two hundred of them. */
  lemma RenderedLineByLine(unsafe: Class, ps: seq<Point>)
    requires Sane(unsafe)
    ensures
      var lines := Lines(ps);
      Lines(Rendered(unsafe, ps)) == VisibleLines(unsafe, if |lines| <= 200 then lines else lines[..200])
  {
    hide Lines, JoinVisible, VisibleLines;
    var lines := Lines(ps);
    LinesOfJoin(unsafe, if |lines| <= 200 then lines else lines[..200]);
  }

  /** The text of the suffix. */
  lemma SuffixText()
    ensures |SUFFIX| == 12 && SUFFIX[0] == 0x2026
    ensures forall i :: 0 <= i < 11 ==> SUFFIX[i + 1] == "[truncated]"[i] as int
  {
  }

  /** A line keeps its first 512 characters, escaped, and the suffix says when there were more. */
  lemma VisibleLine(unsafe: Class, line: seq<Point>)
    ensures VisibleText(unsafe, line) ==
            if |line| <= 512 then EscapeAll(unsafe, line) else EscapeAll(unsafe, line[..512]) + SUFFIX
  {
    assert EscapeAll(unsafe, line) + [] == EscapeAll(unsafe, line);
  }

  /** Text with nothing unsafe but newlines, and no line or number of lines too long, is shown as it is. */
  lemma SafeTextIsUnchanged(unsafe: Class, ps: seq<Point>)
    requires Inert(unsafe, ps) && |Lines(ps)| <= 200
    requires forall i :: 0 <= i < |Lines(ps)| ==> |Lines(ps)[i]| <= 512
    ensures Rendered(unsafe, ps) == ps
  {
    hide Lines, JoinVisible, Inert;
    LinesJoin(ps);
    forall i | 0 <= i < |Lines(ps)| ensures VisibleText(unsafe, Lines(ps)[i]) == Lines(ps)[i] {
      LineInert(unsafe, ps, i);
      VisibleLine(unsafe, Lines(ps)[i]);
      NothingToEscape(unsafe, Lines(ps)[i]);
    }
    SameJoin(unsafe, Lines(ps));
  }

  lemma {:induction false} LineInert(unsafe: Class, ps: seq<Point>, n: nat)
    requires Inert(unsafe, ps) && n < |Lines(ps)|
    ensures forall i :: 0 <= i < |Lines(ps)[n]| ==> !unsafe(Lines(ps)[n][i])
  {
    if ps != [] {
      var rest := Lines(ps[1..]);
      assert forall i :: 0 <= i < |ps[1..]| ==> ps[1..][i] == ps[i + 1];
      if ps[0] == NEWLINE {
        if n > 0 { LineInert(unsafe, ps[1..], n - 1); }
      } else {
        LineInert(unsafe, ps[1..], n);
      }
    }
  }

  lemma {:induction false} SameJoin(unsafe: Class, lines: seq<seq<Point>>)
    requires forall i :: 0 <= i < |lines| ==> VisibleText(unsafe, lines[i]) == lines[i]
    ensures JoinVisible(unsafe, lines) == Unlines(lines)
  {
    hide VisibleText;
    if |lines| > 1 { SameJoin(unsafe, lines[1..]); }
  }
}
