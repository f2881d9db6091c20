/** The parser as the source has it: an object that moves an offset over its source. */
module StrictParser {
  import opened Outcomes
  import opened Utf16
  import opened Decimal
  import opened JsonValue
  import opened JsonStrings
  import opened JsonGrammar
  import JsonReader

  class StrictJsonParser {
    const eng: Engine
    const source: Text
    var offset: nat

    constructor (eng: Engine, source: Text)
      ensures this.eng == eng && this.source == source && offset == 0
    {
      this.eng, this.source, offset := eng, source, 0;
    }

    ghost predicate Valid()
      reads this
    {
      offset <= |source|
    }

    ghost function Unread(): Text
      requires Valid()
      reads this
    {
      source[offset..]
    }

    /** The outcome and the new offset are those of the specification on the text unread before. */
    ghost predicate Follows<T>(r: Result<T, Error>, spec: Read<T>)
      reads this
    {
      match spec
      case Done(v, rest) => r == Ok(v) && Valid() && Unread() == rest
      case Failed(e) => r == Err(e)
    }

    method Whitespace()
      requires Valid()
      modifies this`offset
      ensures Valid() && old(offset) <= offset && Unread() == JsonReader.SkipBlank(old(Unread()))
    {
      while offset < |source| && IsBlank(source[offset])
        invariant old(offset) <= offset <= |source|
        invariant JsonReader.SkipBlank(Unread()) == JsonReader.SkipBlank(old(Unread()))
      {
        assert source[offset..][1..] == source[offset + 1..];
        offset := offset + 1;
      }
    }

    method Consume(token: Text) returns (consumed: bool)
      requires Valid()
      modifies this`offset
      ensures consumed == JsonReader.StartsWith(old(Unread()), token)
      ensures Valid() && Unread() == if consumed then old(Unread())[|token|..] else old(Unread())
    {
      if !JsonReader.StartsWith(source[offset..], token) { return false; }
      offset := offset + |token|;
      return true;
    }

    predicate At(u: Unit)
      reads this
    {
      offset < |source| && source[offset] == u
    }

    method Advance()
      requires Valid() && Unread() != []
      modifies this`offset
      ensures Valid() && offset == old(offset) + 1 && Unread() == old(Unread())[1..]
    {
      offset := offset + 1;
    }

    ghost function ShiftedClose(s: Text, shift: nat): Option<nat>
    {
      match FindClose(s) case Some(n) => Some(n + shift) case None => None
    }

    /** The loop of `readString`: past the closing quote, or anywhere when it fails. */
    method ScanString() returns (closed: bool)
      requires Valid()
      modifies this`offset
      ensures closed == FindClose(old(Unread())).Some?
      ensures closed ==> Valid() && offset == old(offset) + FindClose(old(Unread())).value + 1
    {
      ghost var s := Unread();
      while offset < |source|
        invariant old(offset) <= offset
        invariant offset <= |source| ==> FindClose(s) == ShiftedClose(source[offset..], offset - old(offset))
        invariant offset > |source| ==> FindClose(s) == None
        decreases |source| - offset
      {
        var unit := source[offset];
        ghost var here := source[offset..];
        if unit == QUOTE {
          offset := offset + 1;
          return true;
        }
        if unit == BACKSLASH {
          assert |here| >= 2 ==> here[2..] == source[offset + 2..];
          offset := offset + 2;
          continue;
        }
        if unit <= 0x1F { return false; }
        assert here[1..] == source[offset + 1..];
        offset := offset + 1;
      }
      return false;
    }

    /** Called at an opening quote. */
    method ReadString() returns (r: Result<Text, Error>)
      requires Valid() && Unread() != []
      modifies this`offset
      ensures Follows(r, JsonStrings.ReadString(old(Unread())[1..]))
    {
      Advance();
      var start := offset;
      ghost var s := Unread();
      var closed := ScanString();
      if !closed { return Err(InvalidJson); }
      assert source[start..offset - 1] == s[..offset - 1 - start];
      assert source[offset..] == s[offset - start..];
      var value := Decode(source[start..offset - 1]);
      if value.None? { return Err(InvalidJson); }
      var valid := AssertValidUnicode(value.value);
      if !valid { return Err(InvalidUnicode); }
      return Ok(value.value);
    }

    method ReadNumber() returns (r: Result<Json, Error>)
      requires Valid()
      modifies this`offset
      ensures Follows(r, JsonReader.ReadNumber(eng, old(Unread())))
    {
      var found := MatchNumber(source[offset..], true);
      if found.None? { return Err(InvalidJson); }
      MatchNumberSound(source[offset..], true);
      var token := found.value.0.Render();
      assert source[offset..] == token + found.value.1;
      offset := offset + |token|;
      r := AcceptNumber(eng, token);
    }

    method ReadValue() returns (r: Result<Json, Error>)
      requires Valid()
      modifies this`offset
      ensures Follows(r, JsonReader.ReadValue(eng, old(Unread())))
      decreases |source| - offset, 2
    {
      Whitespace();
      if At(QUOTE) {
        var text := ReadString();
        return if text.Ok? then Ok(String(text.value)) else Err(text.error);
      }
      if At(LEFT_BRACE) { r := ReadObject(); return; }
      if At(LEFT_BRACKET) { r := ReadArray(); return; }
      JsonReader.WordsStart(source[offset..]);
      if At(0x74) {
        var consumed := Consume(TRUE_TEXT);
        if consumed { return Ok(Boolean(true)); }
      }
      if At(0x66) {
        var consumed := Consume(FALSE_TEXT);
        if consumed { return Ok(Boolean(false)); }
      }
      if At(0x6E) {
        var consumed := Consume(NULL_TEXT);
        if consumed { return Ok(Null); }
      }
      r := ReadNumber();
    }

    /** One member of an object: a new key, a colon and a value. */
    method ReadMember(keys: set<Text>) returns (r: Result<(Text, Json), Error>)
      requires Valid()
      modifies this`offset
      ensures Follows(r, OneMember(eng, old(Unread()), keys))
      decreases |source| - offset, 3
    {
      Whitespace();
      if !At(QUOTE) { return Err(InvalidJson); }
      var key := ReadString();
      if key.Err? { return Err(key.error); }
      if key.value in keys { return Err(DuplicateKey); }
      Whitespace();
      if !At(COLON) { return Err(InvalidJson); }
      Advance();
      var value := ReadValue();
      return if value.Ok? then Ok((key.value, value.value)) else Err(value.error);
    }

    /** Called at an opening brace. */
    method ReadObject() returns (r: Result<Json, Error>)
      requires Valid() && Unread() != []
      modifies this`offset
      ensures Follows(r, JsonReader.ReadObject(eng, old(Unread())[1..]))
      decreases |source| - offset, 1
    {
      Advance();
      ghost var start := Unread();
      var result: map<Text, Json> := map[];
      Whitespace();
      SkipMembers(eng, start, result);
      if At(RIGHT_BRACE) {
        Advance();
        return Ok(Object(result));
      }
      r := ReadMembers();
    }

    method ReadMembers() returns (r: Result<Json, Error>)
      requires Valid()
      modifies this`offset
      ensures Follows(r, JsonReader.ReadMembers(eng, old(Unread()), map[]))
      decreases |source| - offset, 4
    {
      var result: map<Text, Json> := map[];
      while true
        invariant Valid() && old(offset) <= offset
        invariant JsonReader.ReadMembers(eng, old(Unread()), map[]) == JsonReader.ReadMembers(eng, Unread(), result)
        decreases |source| - offset
      {
        MembersStep(eng, Unread(), result);
        var member := ReadMember(result.Keys);
        if member.Err? { return Err(member.error); }
        result := result[member.value.0 := member.value.1];
        Whitespace();
        if At(RIGHT_BRACE) {
          Advance();
          return Ok(Object(result));
        }
        if !At(COMMA) { return Err(InvalidJson); }
        Advance();
      }
    }

    /** Called at an opening bracket. */
    method ReadArray() returns (r: Result<Json, Error>)
      requires Valid() && Unread() != []
      modifies this`offset
      ensures Follows(r, JsonReader.ReadArray(eng, old(Unread())[1..]))
      decreases |source| - offset, 1
    {
      Advance();
      ghost var start := Unread();
      var result: seq<Json> := [];
      Whitespace();
      SkipElements(eng, start, result);
      if At(RIGHT_BRACKET) {
        Advance();
        return Ok(Array(result));
      }
      while true
        invariant Valid() && old(offset) < offset
        invariant JsonReader.ReadArray(eng, start) == JsonReader.ReadElements(eng, Unread(), result)
        decreases |source| - offset
      {
        ElementsStep(eng, Unread(), result);
        var value := ReadValue();
        if value.Err? { return Err(value.error); }
        result := result + [value.value];
        Whitespace();
        if At(RIGHT_BRACKET) {
          Advance();
          return Ok(Array(result));
        }
        if !At(COMMA) { return Err(InvalidJson); }
        Advance();
      }
    }

    method Parse() returns (r: Result<Json, Error>)
      requires offset == 0
      modifies this`offset
      ensures r == JsonReader.Parse(eng, source)
    {
      assert Unread() == source;
      var value := ReadValue();
      if value.Err? { return value; }
      Whitespace();
      if offset != |source| { return Err(InvalidJson); }
      return value;
    }
  }

  /** What reading one member gives: the key and value, or the first error. */
  function OneMember(eng: Engine, s: Text, keys: set<Text>): (r: Read<(Text, Json)>)
  {
    var t := JsonReader.SkipBlank(s);
    if t == [] || t[0] != QUOTE then Failed(InvalidJson) else
      match JsonStrings.ReadString(t[1..])
      case Failed(e) => Failed(e)
      case Done(key, u) =>
        if key in keys then Failed(DuplicateKey) else
          var w := JsonReader.SkipBlank(u);
          if w == [] || w[0] != COLON then Failed(InvalidJson) else
            match JsonReader.ReadValue(eng, w[1..])
            case Failed(e) => Failed(e)
            case Done(v, x) => Done((key, v), x)
  }

  /** How the object continues after one member. */
  function AfterMember(eng: Engine, acc: map<Text, Json>, m: Read<(Text, Json)>): Read<Json>
  {
    if m.Failed? then Failed(m.error) else
      var y := JsonReader.SkipBlank(m.rest);
      if y != [] && y[0] == RIGHT_BRACE then Done(Object(acc[m.value.0 := m.value.1]), y[1..])
      else if y == [] || y[0] != COMMA then Failed(InvalidJson)
      else JsonReader.ReadMembers(eng, y[1..], acc[m.value.0 := m.value.1])
  }

  lemma MembersStep(eng: Engine, s: Text, acc: map<Text, Json>)
    ensures JsonReader.ReadMembers(eng, s, acc) == AfterMember(eng, acc, OneMember(eng, s, acc.Keys))
  {
  }

  /** How the array continues after one element. */
  function AfterElement(eng: Engine, acc: seq<Json>, r: Read<Json>): Read<Json>
  {
    if r.Failed? then r else
      var w := JsonReader.SkipBlank(r.rest);
      if w != [] && w[0] == RIGHT_BRACKET then Done(Array(acc + [r.value]), w[1..])
      else if w == [] || w[0] != COMMA then Failed(InvalidJson)
      else JsonReader.ReadElements(eng, w[1..], acc + [r.value])
  }

  lemma ElementsStep(eng: Engine, s: Text, acc: seq<Json>)
    ensures JsonReader.ReadElements(eng, s, acc) == AfterElement(eng, acc, JsonReader.ReadValue(eng, s))
  {
  }

  lemma SkipMembers(eng: Engine, s: Text, acc: map<Text, Json>)
    ensures JsonReader.ReadMembers(eng, JsonReader.SkipBlank(s), acc) == JsonReader.ReadMembers(eng, s, acc)
  {
    JsonReader.SkipTwice(s);
  }

  lemma SkipElements(eng: Engine, s: Text, acc: seq<Json>)
    ensures JsonReader.ReadElements(eng, JsonReader.SkipBlank(s), acc) == JsonReader.ReadElements(eng, s, acc)
  {
    JsonReader.SkipTwice(s);
  }

  /** `parseJsonStrict` */
  method ParseJsonStrict(eng: Engine, source: Text) returns (r: Result<Json, Error>)
    ensures forall v :: r == Ok(v) <==> JsonReader.Spells(eng, source, v)
    ensures r == JsonReader.Parse(eng, source)
  {
    var parser := new StrictJsonParser(eng, source);
    r := parser.Parse();
    forall v ensures r == Ok(v) <==> JsonReader.Spells(eng, source, v) {
      JsonReader.ParseExact(eng, source, v);
    }
  }
}
