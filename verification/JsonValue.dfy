/** JSON values, the engine's number conversions, and the error codes of the serializer. */
module JsonValue {
  import opened Outcomes
  import opened Utf16
  import opened Decimal

  /** A JavaScript number; the sign of zero is not represented. */
  datatype Double = NaN | Infinity(negative: bool) | Finite(r: real)

  datatype Json =
    | Null
    | Boolean(truth: bool)
    | Number(number: Double)
    | String(text: Text)
    | Array(items: seq<Json>)
    | Object(members: map<Text, Json>)

  datatype Error = InvalidJson | DuplicateKey | InvalidUnicode | NonIJsonNumber

  /** What the engine supplies: `Number(token)`, `JSON.stringify(number)` and the set of doubles. */
  datatype Engine = Engine(number: Text -> Double, digits: real -> Text, isDouble: real -> bool)

  const MAX_SAFE: int := 0x1F_FFFF_FFFF_FFFF

  predicate IsInteger(r: real) { r.Floor as real == r }

  predicate IsSafeInteger(r: real) { IsInteger(r) && -MAX_SAFE <= r.Floor <= MAX_SAFE }

  /** `t` is a number token of the JSON grammar. */
  predicate IsNumberToken(t: Text)
  {
    match MatchNumber(t, true) case Some(m) => m.1 == [] case None => false
  }

  function TokenValue(t: Text): real
    requires IsNumberToken(t)
  {
    MatchNumber(t, true).value.0.ExactValue()
  }

  ghost predicate WritesInteger(eng: Engine, n: int)
  {
    eng.isDouble(n as real) && eng.digits(n as real) == IntegerText(n)
  }

  /** ECMAScript's promises about the two conversions; rounding of other tokens is left open. */
  ghost predicate Faithful(eng: Engine)
  {
    // JSON.stringify writes a JSON number token that Number reads back.
    && (forall r :: eng.isDouble(r) ==> IsNumberToken(eng.digits(r)) && eng.number(eng.digits(r)) == Finite(r))
    // Number yields doubles.
    && (forall t :: IsNumberToken(t) && eng.number(t).Finite? ==> eng.isDouble(eng.number(t).r))
    // Safe integers are doubles and are written in plain digits.
    && (forall n: int :: -MAX_SAFE <= n <= MAX_SAFE ==> WritesInteger(eng, n))
    // A token that denotes a safe integer is read without rounding.
    && (forall t :: IsNumberToken(t) && IsSafeInteger(TokenValue(t)) ==> eng.number(t) == Finite(TokenValue(t)))
  }

  /** An engine with safe integers only: the promises can be kept. */
  const INTEGER_ENGINE: Engine := Engine(
    (t: Text) => if IsNumberToken(t) && IsSafeInteger(TokenValue(t)) then Finite(TokenValue(t)) else NaN,
    (r: real) => IntegerText(r.Floor),
    (r: real) => IsSafeInteger(r))

  lemma IntegerTokens(n: int)
    ensures IsNumberToken(IntegerText(n)) && TokenValue(IntegerText(n)) == n as real
  {
    IntegerSpellingExact(n);
    MatchNumberComplete(IntegerSpelling(n), true, []);
    assert IntegerText(n) + [] == IntegerText(n);
  }

  lemma IntegerEngineFaithful()
    ensures Faithful(INTEGER_ENGINE)
  {
    hide IsNumberToken, TokenValue, IntegerText;
    forall n: int ensures IsNumberToken(IntegerText(n)) && TokenValue(IntegerText(n)) == n as real {
      IntegerTokens(n);
    }
  }

  predicate HasExponentMark(t: Text) { LOWER_E in t || UPPER_E in t }

  /** `serializeCanonicalNumber` */
  function SerializeNumber(eng: Engine, d: Double): Result<Text, Error>
  {
    if !d.Finite? then Err(NonIJsonNumber)
    else if IsInteger(d.r) && !IsSafeInteger(d.r) && !HasExponentMark(eng.digits(d.r))
    then Err(NonIJsonNumber)
    else Ok(eng.digits(d.r))
  }

  /** `readNumber` after the token is matched: conversion, serialization and the rounding check. */
  function AcceptNumber(eng: Engine, token: Text): Result<Json, Error>
  {
    var d := eng.number(token);
    match SerializeNumber(eng, d)
    case Err(e) => Err(e)
    case Ok(canonical) =>
      if IsInteger(d.r) && TokenIdentity(token) != TokenIdentity(canonical) then Err(NonIJsonNumber)
      else Ok(Number(d))
  }

  lemma StrictIsLoose(t: Text)
    requires IsNumberToken(t)
    ensures TokenIdentity(t).Some? && TokenSpelling(t).value.ExactValue() == TokenValue(t)
  {
    var n := MatchNumber(t, true).value.0;
    MatchNumberSound(t, true);
    assert n.Render() + [] == n.Render() == t;
    MatchNumberComplete(n, false, []);
  }

  /** An integer reading is accepted only unrounded: the token denotes exactly the digits written back. */
  lemma AcceptedIntegerIsExact(eng: Engine, token: Text)
    requires Faithful(eng) && IsNumberToken(token)
    requires AcceptNumber(eng, token).Ok? && IsInteger(eng.number(token).r)
    ensures TokenValue(token) == TokenValue(eng.digits(eng.number(token).r))
    ensures IsSafeInteger(eng.number(token).r) ==> eng.number(token).r == TokenValue(token)
  {
    var r := eng.number(token).r;
    StrictIsLoose(token);
    StrictIsLoose(eng.digits(r));
    TokenIdentityComplete(token, eng.digits(r));
    if IsSafeInteger(r) {
      assert WritesInteger(eng, r.Floor);
      IntegerTokens(r.Floor);
    }
  }

  /** A token that reads as a safe integer is accepted exactly when it denotes that integer. */
  lemma SafeIntegerTokens(eng: Engine, token: Text)
    requires Faithful(eng) && IsNumberToken(token)
    requires eng.number(token).Finite? && IsSafeInteger(eng.number(token).r)
    ensures AcceptNumber(eng, token).Ok? <==> TokenValue(token) == eng.number(token).r
    ensures AcceptNumber(eng, token).Ok? ==> AcceptNumber(eng, token).value == Number(Finite(TokenValue(token)))
  {
    var r := eng.number(token).r;
    StrictIsLoose(token);
    assert WritesInteger(eng, r.Floor);
    IntegerTokens(r.Floor);
    StrictIsLoose(IntegerText(r.Floor));
    TokenIdentityComplete(token, IntegerText(r.Floor));
  }

  /**
   A number token is accepted exactly if it reads as finite and, where it reads as an integer, denotes exactly what is
   written back, and that in plain digits only up to 2^53 - 1.
   */
  lemma TokensAccepted(eng: Engine, token: Text)
    requires Faithful(eng) && IsNumberToken(token)
    ensures
      var d := eng.number(token);
      AcceptNumber(eng, token).Ok? <==>
      && d.Finite?
      && (d.r.Floor as real == d.r ==>
            && TokenValue(token) == TokenValue(eng.digits(d.r))
            && (-9007199254740991.0 <= d.r <= 9007199254740991.0
                || exists i :: 0 <= i < |eng.digits(d.r)| && (eng.digits(d.r)[i] == 'e' as int || eng.digits(d.r)[i] == 'E' as int)))
    ensures AcceptNumber(eng, token).Ok? ==> AcceptNumber(eng, token).value == Number(eng.number(token))
  {
    hide IsNumberToken, TokenValue, TokenIdentity;
    if eng.number(token).Finite? {
      var r := eng.number(token).r;
      StrictIsLoose(token);
      StrictIsLoose(eng.digits(r));
      SameIdentity(token, eng.digits(r));
    }
  }

  lemma SameIdentity(s: Text, t: Text)
    requires IsNumberToken(s) && IsNumberToken(t)
    ensures TokenIdentity(s) == TokenIdentity(t) <==> TokenValue(s) == TokenValue(t)
  {
    StrictIsLoose(s);
    StrictIsLoose(t);
    TokenIdentityComplete(s, t);
  }

  /** The engine's own spelling of a printable double is accepted and read back. */
  lemma OwnDigitsAccepted(eng: Engine, d: Double)
    requires Faithful(eng) && SerializeNumber(eng, d).Ok? && eng.isDouble(d.r)
    ensures IsNumberToken(eng.digits(d.r))
    ensures AcceptNumber(eng, eng.digits(d.r)) == Ok(Number(d))
  {
  }

  /** The numbers of a value are the engine's doubles, or not finite. */
  ghost predicate OfEngine(eng: Engine, v: Json)
  {
    match v
    case Number(d) => d.Finite? ==> eng.isDouble(d.r)
    case Array(items) => forall i :: 0 <= i < |items| ==> OfEngine(eng, items[i])
    case Object(members) => forall k :: k in members ==> OfEngine(eng, members[k])
    case _ => true
  }
}
