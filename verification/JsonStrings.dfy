/** String literals: escaping, scanning for the closing quote, and decoding. */
module JsonStrings {
  import opened Outcomes
  import opened Utf16
  import opened JsonValue

  const QUOTE: Unit := 0x22
  const BACKSLASH: Unit := 0x5C
  const SLASH: Unit := 0x2F
  const LETTER_B: Unit := 0x62
  const LETTER_F: Unit := 0x66
  const LETTER_N: Unit := 0x6E
  const LETTER_R: Unit := 0x72
  const LETTER_T: Unit := 0x74
  const LETTER_U: Unit := 0x75

  method AssertValidUnicode(value: Text) returns (valid: bool)
    ensures valid == WellFormed(value)
  {
    var index := 0;
    while index < |value|
      invariant 0 <= index <= |value|
      invariant WellFormed(value) == WellFormed(value[index..])
    {
      var unit := value[index];
      assert value[index..][1..] == value[index + 1..];
      if IsHighSurrogate(unit) {
        if !(index + 1 < |value| && IsLowSurrogate(value[index + 1])) { return false; }
        assert value[index..][2..] == value[index + 2..];
        index := index + 1;
      } else if IsLowSurrogate(unit) {
        return false;
      }
      index := index + 1;
    }
    return true;
  }

  // ---------- hexadecimal ----------

  function HexDigit(n: nat): Unit
    requires n < 16
  {
    if n < 10 then 0x30 + n else 0x61 + (n - 10)
  }

  function HexValue(u: Unit): Option<nat>
  {
    if 0x30 <= u <= 0x39 then Some(u - 0x30)
    else if 0x61 <= u <= 0x66 then Some(u - 0x61 + 10)
    else if 0x41 <= u <= 0x46 then Some(u - 0x41 + 10)
    else None
  }

  predicate IsHex(t: Text)
  {
    |t| == 4 && HexValue(t[0]).Some? && HexValue(t[1]).Some? && HexValue(t[2]).Some? && HexValue(t[3]).Some?
  }

  function HexUnit(t: Text): Unit
    requires IsHex(t)
  {
    HexBounds(t);
    HexValue(t[0]).value * 4096 + HexValue(t[1]).value * 256 + HexValue(t[2]).value * 16 + HexValue(t[3]).value
  }

  lemma HexBounds(t: Text)
    requires IsHex(t)
    ensures HexValue(t[0]).value < 16 && HexValue(t[1]).value < 16
    ensures HexValue(t[2]).value < 16 && HexValue(t[3]).value < 16
  {
  }

  /** Four lowercase hexadecimal digits. */
  function HexText(u: Unit): (t: Text)
  {
    [HexDigit(u / 4096), HexDigit(u / 256 % 16), HexDigit(u / 16 % 16), HexDigit(u % 16)]
  }

  lemma HexDigitValue(n: nat)
    requires n < 16
    ensures HexValue(HexDigit(n)) == Some(n)
  {
  }

  lemma HexPlaces(u: Unit)
    ensures u / 4096 * 4096 + u / 256 % 16 * 256 + u / 16 % 16 * 16 + u % 16 == u
  {
    assert u / 256 == u / 16 / 16;
    assert u / 4096 == u / 16 / 16 / 16;
  }

  lemma HexRoundTrip(u: Unit)
    ensures IsHex(HexText(u)) && HexUnit(HexText(u)) == u
  {
    HexDigitValue(u / 4096);
    HexDigitValue(u / 256 % 16);
    HexDigitValue(u / 16 % 16);
    HexDigitValue(u % 16);
    HexPlaces(u);
  }

  // ---------- one character of a string literal, as RFC 8259 section 7 spells it ----------

  function ShortValue(letter: Unit): Option<Unit>
  {
    if letter == QUOTE || letter == BACKSLASH || letter == SLASH then Some(letter)
    else if letter == LETTER_B then Some(0x08)
    else if letter == LETTER_F then Some(0x0C)
    else if letter == LETTER_N then Some(0x0A)
    else if letter == LETTER_R then Some(0x0D)
    else if letter == LETTER_T then Some(0x09)
    else None
  }

  datatype Spelled = Raw(unit: Unit) | Short(letter: Unit) | Hex(digits: Text)
  {
    predicate Valid()
    {
      match this
      case Raw(u) => u >= 0x20 && u != QUOTE && u != BACKSLASH
      case Short(letter) => ShortValue(letter).Some?
      case Hex(digits) => IsHex(digits)
    }

    function Render(): Text
    {
      match this
      case Raw(u) => [u]
      case Short(letter) => [BACKSLASH, letter]
      case Hex(digits) => [BACKSLASH, LETTER_U] + digits
    }

    /** The code unit meant; zero for a spelling that is not valid. */
    function Denotes(): Unit
    {
      match this
      case Raw(u) => u
      case Short(letter) => if ShortValue(letter).Some? then ShortValue(letter).value else 0
      case Hex(digits) => if IsHex(digits) then HexUnit(digits) else 0
    }
  }

  predicate ValidSpelling(sp: seq<Spelled>) { forall i :: 0 <= i < |sp| ==> sp[i].Valid() }

  function SpellingText(sp: seq<Spelled>): Text
  {
    if sp == [] then [] else sp[0].Render() + SpellingText(sp[1..])
  }

  function SpellingUnits(sp: seq<Spelled>): Text
  {
    if sp == [] then [] else [sp[0].Denotes()] + SpellingUnits(sp[1..])
  }

  // ---------- printing ----------

  /** How `JSON.stringify` spells a code unit of a well-formed string. */
  function CanonicalSpelled(u: Unit): (s: Spelled)
  {
    if u == QUOTE || u == BACKSLASH then Short(u)
    else if u == 0x08 then Short(LETTER_B)
    else if u == 0x0C then Short(LETTER_F)
    else if u == 0x0A then Short(LETTER_N)
    else if u == 0x0D then Short(LETTER_R)
    else if u == 0x09 then Short(LETTER_T)
    else if u < 0x20 then Hex(HexText(u))
    else Raw(u)
  }

  function CanonicalSpelling(t: Text): (sp: seq<Spelled>)
  {
    if t == [] then [] else [CanonicalSpelled(t[0])] + CanonicalSpelling(t[1..])
  }

  function Literal(sp: seq<Spelled>): Text { [QUOTE] + SpellingText(sp) + [QUOTE] }

  /** `quote` */
  function Quote(t: Text): Result<Text, Error>
  {
    if WellFormed(t) then Ok(Literal(CanonicalSpelling(t))) else Err(InvalidUnicode)
  }

  lemma {:induction false} CanonicalSpellingDenotes(t: Text)
    ensures ValidSpelling(CanonicalSpelling(t)) && SpellingUnits(CanonicalSpelling(t)) == t
  {
    if t != [] {
      hide HexText, HexUnit, IsHex;
      CanonicalSpellingDenotes(t[1..]);
      HexRoundTrip(t[0]);
      var sp := CanonicalSpelling(t);
      assert sp[1..] == CanonicalSpelling(t[1..]);
      assert sp[0].Valid() && sp[0].Denotes() == t[0];
      assert t == [t[0]] + t[1..];
    }
  }

  // ---------- reading ----------

  /** A successful read of a value with the unread rest, or the error thrown. */
  datatype Read<+T> = Done(value: T, rest: Text) | Failed(error: Error)

  /** Where the scanning loop of `readString` finds the closing quote; none when it fails. */
  function FindClose(s: Text): (r: Option<nat>)
    ensures r.Some? ==> r.value < |s| && s[r.value] == QUOTE
  {
    if s == [] then None
    else if s[0] == QUOTE then Some(0)
    else if s[0] == BACKSLASH then
      if |s| < 2 then None else
        match FindClose(s[2..]) case Some(n) => Some(n + 2) case None => None
    else if s[0] <= 0x1F then None
    else match FindClose(s[1..]) case Some(n) => Some(n + 1) case None => None
  }

  /** `JSON.parse` of a string literal, given the text between the quotes. */
  function Decode(body: Text): Option<Text>
  {
    if body == [] then Some([])
    else if body[0] == BACKSLASH then
      if |body| < 2 then None
      else if body[1] == LETTER_U then
        if |body| < 6 || !IsHex(body[2..6]) then None
        else Prepend(HexUnit(body[2..6]), Decode(body[6..]))
      else if ShortValue(body[1]).None? then None
      else Prepend(ShortValue(body[1]).value, Decode(body[2..]))
    else if body[0] == QUOTE || body[0] < 0x20 then None
    else Prepend(body[0], Decode(body[1..]))
  }

  function Prepend(u: Unit, t: Option<Text>): Option<Text>
  {
    if t.Some? then Some([u] + t.value) else None
  }

  /** `readString`, given the text after the opening quote. */
  function ReadString(s: Text): (r: Read<Text>)
    ensures r.Done? ==> |r.rest| < |s|
  {
    match FindClose(s)
    case None => Failed(InvalidJson)
    case Some(n) =>
      match Decode(s[..n])
      case None => Failed(InvalidJson)
      case Some(t) => if WellFormed(t) then Done(t, s[n + 1..]) else Failed(InvalidUnicode)
  }

  /** The scan stops at the quote after a spelled string, and decoding gives what it denotes. */
  lemma {:induction false} SpellingIsRead(sp: seq<Spelled>, rest: Text)
    requires ValidSpelling(sp)
    ensures FindClose(SpellingText(sp) + ([QUOTE] + rest)) == Some(|SpellingText(sp)|)
    ensures Decode(SpellingText(sp)) == Some(SpellingUnits(sp))
  {
    var tail := [QUOTE] + rest;
    if sp == [] {
      assert SpellingText(sp) + tail == tail;
    } else {
      SpellingIsRead(sp[1..], rest);
      var more := SpellingText(sp[1..]);
      var first := sp[0].Render();
      var body := first + more;
      assert body[|first|..] == more;
      assert body + tail == first + (more + tail);
      hide Decode, FindClose, Spelled.Render, Spelled.Valid, Spelled.Denotes;
      OneSpelled(sp[0], more, tail);
    }
  }

  lemma OneSpelled(c: Spelled, more: Text, tail: Text)
    requires c.Valid()
    requires FindClose(more + tail).Some?
    ensures FindClose(c.Render() + (more + tail)) == Some(|c.Render()| + FindClose(more + tail).value)
    ensures Decode(c.Render() + more) == Prepend(c.Denotes(), Decode(more))
  {
    match c {
      case Raw(u) => RawSpelled(u, more, tail);
      case Short(letter) => ShortSpelled(letter, more, tail);
      case Hex(digits) => HexSpelled(digits, more, tail);
    }
  }

  lemma RawSpelled(u: Unit, more: Text, tail: Text)
    requires u >= 0x20 && u != QUOTE && u != BACKSLASH && FindClose(more + tail).Some?
    ensures FindClose([u] + (more + tail)) == Some(1 + FindClose(more + tail).value)
    ensures Decode([u] + more) == Prepend(u, Decode(more))
  {
    assert ([u] + (more + tail))[1..] == more + tail && ([u] + more)[1..] == more;
  }

  lemma ShortSpelled(letter: Unit, more: Text, tail: Text)
    requires ShortValue(letter).Some? && FindClose(more + tail).Some?
    ensures FindClose([BACKSLASH, letter] + (more + tail)) == Some(2 + FindClose(more + tail).value)
    ensures Decode([BACKSLASH, letter] + more) == Prepend(ShortValue(letter).value, Decode(more))
  {
    assert ([BACKSLASH, letter] + (more + tail))[2..] == more + tail;
    assert ([BACKSLASH, letter] + more)[2..] == more;
  }

  lemma HexSpelled(digits: Text, more: Text, tail: Text)
    requires IsHex(digits) && FindClose(more + tail).Some?
    ensures FindClose([BACKSLASH, LETTER_U] + digits + (more + tail)) == Some(6 + FindClose(more + tail).value)
    ensures Decode([BACKSLASH, LETTER_U] + digits + more) == Prepend(HexUnit(digits), Decode(more))
  {
    hide HexUnit;
    var s, body := [BACKSLASH, LETTER_U] + digits + (more + tail), [BACKSLASH, LETTER_U] + digits + more;
    HexDigitsScan(digits, more + tail);
    assert s[2..] == digits + (more + tail);
    assert body[2..6] == digits && body[6..] == more;
  }

  lemma ScanPlain(u: Unit, s: Text)
    requires u >= 0x20 && u != QUOTE && u != BACKSLASH && FindClose(s).Some?
    ensures FindClose([u] + s) == Some(1 + FindClose(s).value)
  {
    assert ([u] + s)[1..] == s;
  }

  lemma HexDigitsScan(digits: Text, s: Text)
    requires IsHex(digits) && FindClose(s).Some?
    ensures FindClose(digits + s) == Some(4 + FindClose(s).value)
  {
    hide FindClose;
    ScanPlain(digits[3], s);
    ScanPlain(digits[2], [digits[3]] + s);
    ScanPlain(digits[1], [digits[2]] + ([digits[3]] + s));
    ScanPlain(digits[0], [digits[1]] + ([digits[2]] + ([digits[3]] + s)));
    assert digits + s == [digits[0]] + ([digits[1]] + ([digits[2]] + ([digits[3]] + s)));
  }

  /** Every decodable body has a spelling. */
  lemma {:induction false} DecodeSound(body: Text) returns (sp: seq<Spelled>)
    requires Decode(body).Some?
    ensures ValidSpelling(sp) && SpellingText(sp) == body && SpellingUnits(sp) == Decode(body).value
  {
    if body == [] {
      sp := [];
    } else {
      var c := if body[0] != BACKSLASH then Raw(body[0])
               else if body[1] == LETTER_U then Hex(body[2..6]) else Short(body[1]);
      var n := |c.Render()|;
      assert c.Render() == body[..n];
      var more := DecodeSound(body[n..]);
      sp := [c] + more;
      assert sp[1..] == more;
      assert body == body[..n] + body[n..];
    }
  }

  lemma ReadStringComplete(sp: seq<Spelled>, rest: Text)
    requires ValidSpelling(sp) && WellFormed(SpellingUnits(sp))
    ensures ReadString(SpellingText(sp) + ([QUOTE] + rest)) == Done(SpellingUnits(sp), rest)
  {
    SpellingIsRead(sp, rest);
    var s := SpellingText(sp) + ([QUOTE] + rest);
    assert s[..|SpellingText(sp)|] == SpellingText(sp);
    assert s[|SpellingText(sp)| + 1..] == rest;
  }

  lemma ReadStringSound(s: Text) returns (sp: seq<Spelled>)
    requires ReadString(s).Done?
    ensures ValidSpelling(sp) && s == SpellingText(sp) + ([QUOTE] + ReadString(s).rest)
    ensures SpellingUnits(sp) == ReadString(s).value && WellFormed(ReadString(s).value)
  {
    var n := FindClose(s).value;
    sp := DecodeSound(s[..n]);
    assert s == s[..n] + ([QUOTE] + s[n + 1..]);
  }
}
