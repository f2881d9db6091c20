/** Number tokens, their exact decimal values, and the identity string that compares them. */
module Decimal {
  import opened Outcomes
  import opened Utf16

  const ZERO: Unit := 0x30
  const MINUS: Unit := 0x2D
  const PLUS: Unit := 0x2B
  const POINT: Unit := 0x2E
  const LOWER_E: Unit := 0x65
  const UPPER_E: Unit := 0x45

  predicate IsDigit(u: Unit) { 0x30 <= u <= 0x39 }

  predicate AllDigits(t: Text) { forall i :: 0 <= i < |t| ==> IsDigit(t[i]) }

  // ---------- digit strings and natural numbers ----------

  /** The value of a digit string, most significant digit first. */
  function Natural(ds: Text): int
  {
    if ds == [] then 0 else 10 * Natural(ds[..|ds| - 1]) + (ds[|ds| - 1] - ZERO)
  }

  function NaturalText(n: nat): (t: Text)
    ensures t != [] && AllDigits(t)
  {
    if n < 10 then [ZERO + n] else NaturalText(n / 10) + [ZERO + n % 10]
  }

  /** `String(n)` for an integer. */
  function IntegerText(n: int): Text
  {
    if n < 0 then [MINUS] + NaturalText(-n) else NaturalText(n)
  }

  lemma {:induction false} NaturalOfText(n: nat)
    ensures Natural(NaturalText(n)) == n
    ensures n != 0 ==> NaturalText(n)[0] != ZERO
    ensures n == 0 ==> NaturalText(n) == [ZERO]
  {
    var t := NaturalText(n);
    if n < 10 {
      assert t[..|t| - 1] == [];
    } else {
      NaturalOfText(n / 10);
      assert t[..|t| - 1] == NaturalText(n / 10);
    }
  }

  lemma {:induction false} NaturalPositive(ds: Text)
    requires AllDigits(ds) && ds != [] && ds[0] != ZERO
    ensures Natural(ds) > 0
  {
    if |ds| > 1 { NaturalPositive(ds[..|ds| - 1]); }
  }

  /** Digit strings without leading zeros are equal when their values are. */
  lemma {:induction false} NaturalInjective(a: Text, b: Text)
    requires AllDigits(a) && AllDigits(b)
    requires a != [] ==> a[0] != ZERO
    requires b != [] ==> b[0] != ZERO
    requires Natural(a) == Natural(b)
    ensures a == b
  {
    if a == [] || b == [] {
      if a != [] { NaturalPositive(a); }
      if b != [] { NaturalPositive(b); }
    } else {
      NaturalInjective(a[..|a| - 1], b[..|b| - 1]);
      assert a == a[..|a| - 1] + [a[|a| - 1]];
      assert b == b[..|b| - 1] + [b[|b| - 1]];
    }
  }

  lemma {:induction false} NaturalLeadingZero(ds: Text)
    ensures Natural([ZERO] + ds) == Natural(ds)
  {
    var all := [ZERO] + ds;
    if ds == [] {
      assert all[..|all| - 1] == [];
    } else {
      NaturalLeadingZero(ds[..|ds| - 1]);
      assert all[..|all| - 1] == [ZERO] + ds[..|ds| - 1];
    }
  }

  lemma {:induction false} IntegerTextInjective(m: int, n: int)
    requires IntegerText(m) == IntegerText(n)
    ensures m == n
  {
    NaturalOfText(if m < 0 then -m else m);
    NaturalOfText(if n < 0 then -n else n);
    var a, b := IntegerText(m), IntegerText(n);
    assert m < 0 ==> a[0] == MINUS && a[1..] == NaturalText(-m);
    assert n < 0 ==> b[0] == MINUS && b[1..] == NaturalText(-n);
    assert m >= 0 ==> IsDigit(a[0]);
    assert n >= 0 ==> IsDigit(b[0]);
  }

  // ---------- decimals ----------

  /** `c` times ten to the power `e`. */
  function Times10(c: int, e: int): real
    decreases if e < 0 then -e else e
  {
    if e == 0 then c as real else if e > 0 then 10.0 * Times10(c, e - 1) else Times10(c, e + 1) / 10.0
  }

  lemma {:induction false} ShiftTen(c: int, e: int)
    ensures Times10(10 * c, e) == Times10(c, e + 1)
    decreases if e < 0 then -e else e
  {
    if e > 0 { ShiftTen(c, e - 1); } else if e < 0 { ShiftTen(c, e + 1); }
  }

  lemma {:induction false} Times10Sign(c: int, e: int)
    ensures c > 0 ==> Times10(c, e) > 0.0
    ensures c == 0 ==> Times10(c, e) == 0.0
    decreases if e < 0 then -e else e
  {
    if e > 0 { Times10Sign(c, e - 1); } else if e < 0 { Times10Sign(c, e + 1); }
  }

  lemma {:induction false} Times10Injective(c1: int, c2: int, e: int)
    requires Times10(c1, e) == Times10(c2, e)
    ensures c1 == c2
    decreases if e < 0 then -e else e
  {
    if e > 0 { Times10Injective(c1, c2, e - 1); } else if e < 0 { Times10Injective(c1, c2, e + 1); }
  }

  function Scale(c: nat, d: nat): nat
  {
    if d == 0 then c else 10 * Scale(c, d - 1)
  }

  lemma {:induction false} ScaleShifts(c: nat, e: int, d: nat)
    ensures Times10(c, e + d) == Times10(Scale(c, d), e)
    decreases d
  {
    if d > 0 {
      ScaleShifts(c, e + 1, d - 1);
      ShiftTen(Scale(c, d - 1), e);
    }
  }

  /** A decimal whose coefficient does not end in zero has one coefficient and one exponent. */
  lemma {:induction false} ReducedUnique(c1: nat, e1: int, c2: nat, e2: int)
    requires c1 % 10 != 0 && c2 % 10 != 0
    requires Times10(c1, e1) == Times10(c2, e2)
    ensures c1 == c2 && e1 == e2
    decreases if e1 > e2 then 1 else 0
  {
    if e1 > e2 {
      ReducedUnique(c2, e2, c1, e1);
    } else {
      ScaleShifts(c2, e1, e2 - e1);
      Times10Injective(c1, Scale(c2, e2 - e1), e1);
    }
  }

  // ---------- number tokens ----------

  datatype ExponentSpelling = ExponentSpelling(mark: Unit, sign: Option<Unit>, digits: Text)
  {
    predicate Valid()
    {
      && (mark == LOWER_E || mark == UPPER_E)
      && (sign.Some? ==> sign.value == PLUS || sign.value == MINUS)
      && digits != [] && AllDigits(digits)
    }

    function Render(): Text { [mark] + (OptionalUnit(sign) + digits) }

    function Value(): int
    {
      if sign == Some(MINUS) then -Natural(digits) else Natural(digits)
    }
  }

  function OptionalUnit(u: Option<Unit>): Text { if u.Some? then [u.value] else [] }

  function SignText(negative: bool): Text { if negative then [MINUS] else [] }

  function FractionText(f: Option<Text>): Text { if f.Some? then [POINT] + f.value else [] }

  function ExponentText(e: Option<ExponentSpelling>): Text
  {
    if e.Some? then e.value.Render() else []
  }

  /** The pieces of a number token as RFC 8259 section 6 names them. */
  datatype NumberSpelling = NumberSpelling(
    negative: bool,
    whole: Text,
    fraction: Option<Text>,
    exponent: Option<ExponentSpelling>)
  {
    /** The shape `normalizedDecimalIdentity` accepts: leading zeros are allowed. */
    predicate Loose()
    {
      && whole != [] && AllDigits(whole)
      && (fraction.Some? ==> fraction.value != [] && AllDigits(fraction.value))
      && (exponent.Some? ==> exponent.value.Valid())
    }

    /** The JSON grammar: a leading zero stands alone. */
    predicate Strict()
    {
      Loose() && (whole[0] == ZERO ==> |whole| == 1)
    }

    function FractionDigits(): Text { if fraction.Some? then fraction.value else [] }

    function Render(): Text
    {
      SignText(negative) + (whole + (FractionText(fraction) + ExponentText(exponent)))
    }

    /** The exponent of the last written digit. */
    function Scale10(): int
    {
      (if exponent.Some? then exponent.value.Value() else 0) - |FractionDigits()|
    }

    /** The rational number the token denotes, without any rounding. */
    function ExactValue(): real
    {
      var magnitude := Times10(Natural(whole + FractionDigits()), Scale10());
      if negative then -magnitude else magnitude
    }
  }

  // ---------- matching the two regular expressions ----------

  function DigitRun(s: Text): (n: nat)
    ensures n <= |s| && AllDigits(s[..n])
  {
    if s == [] || !IsDigit(s[0]) then 0 else
      var m := DigitRun(s[1..]);
      assert forall i :: 1 <= i < 1 + m ==> s[i] == s[1..][..m][i - 1];
      1 + m
  }

  lemma {:induction false} DigitRunStops(d: Text, rest: Text)
    requires AllDigits(d)
    requires rest != [] ==> !IsDigit(rest[0])
    ensures DigitRun(d + rest) == |d|
  {
    if d == [] {
      assert d + rest == rest;
    } else {
      assert (d + rest)[1..] == d[1..] + rest;
      DigitRunStops(d[1..], rest);
    }
  }

  function WholeRun(s: Text, strict: bool): (n: nat)
    ensures n <= |s| && AllDigits(s[..n])
  {
    if strict && s != [] && s[0] == ZERO then 1 else DigitRun(s)
  }

  /** `(?:\.\d+)?`: the fraction, if one is there, and what follows it. */
  function MatchFraction(s: Text): (r: (Option<Text>, Text))
  {
    if s != [] && s[0] == POINT && DigitRun(s[1..]) > 0
    then (Some(s[1..][..DigitRun(s[1..])]), s[1..][DigitRun(s[1..])..])
    else (None, s)
  }

  function MatchSign(t: Text): Option<Unit>
  {
    if t != [] && (t[0] == PLUS || t[0] == MINUS) then Some(t[0]) else None
  }

  function AfterSign(t: Text): Text { if MatchSign(t).Some? then t[1..] else t }

  predicate StartsNegative(s: Text) { s != [] && s[0] == MINUS }

  function AfterMinus(s: Text): Text { if StartsNegative(s) then s[1..] else s }

  /** `(?:[eE][+-]?\d+)?` */
  function MatchExponent(s: Text): (r: (Option<ExponentSpelling>, Text))
  {
    if s == [] || (s[0] != LOWER_E && s[0] != UPPER_E) then (None, s) else
      var u := AfterSign(s[1..]);
      var n := DigitRun(u);
      if n == 0 then (None, s)
      else (Some(ExponentSpelling(s[0], MatchSign(s[1..]), u[..n])), u[n..])
  }

  /** The longest number token at the front of `s`, under the JSON grammar or the loose one. */
  function MatchNumber(s: Text, strict: bool): Option<(NumberSpelling, Text)>
  {
    var a := AfterMinus(s);
    var n := WholeRun(a, strict);
    if n == 0 then None else
      var f := MatchFraction(a[n..]);
      var e := MatchExponent(f.1);
      Some((NumberSpelling(StartsNegative(s), a[..n], f.0, e.0), e.1))
  }

  lemma MatchFractionSound(s: Text)
    ensures s == FractionText(MatchFraction(s).0) + MatchFraction(s).1
    ensures MatchFraction(s).0.Some? ==>
              MatchFraction(s).0.value != [] && AllDigits(MatchFraction(s).0.value)
  {
    if MatchFraction(s).0.Some? {
      var n := DigitRun(s[1..]);
      assert s == [POINT] + s[1..][..n] + s[1..][n..];
    }
  }

  lemma Chain3(s: Text, t: Text, u: Text, w: Text, x: Text, y: Text, d: Text)
    requires s == w + t && t == x + u && u == y + d
    ensures s == (w + (x + y)) + d
  {
  }

  lemma Chain4(s: Text, a: Text, b: Text, c: Text, w: Text, x: Text, y: Text, z: Text, d: Text)
    requires s == w + a && a == x + b && b == y + c && c == z + d
    ensures s == (w + (x + (y + z))) + d
  {
    Chain3(a, b, c, x, y, z, d);
  }

  lemma SignParts(t: Text)
    ensures t == OptionalUnit(MatchSign(t)) + AfterSign(t)
  {
  }

  lemma MatchExponentValid(s: Text)
    ensures MatchExponent(s).0.Some? ==> MatchExponent(s).0.value.Valid()
  {
    hide DigitRun;
  }

  lemma ExponentPieces(s: Text, sign: Option<Unit>, u: Text, n: nat)
    requires s != [] && n <= |u| && s[1..] == OptionalUnit(sign) + u
    ensures s == ExponentText(Some(ExponentSpelling(s[0], sign, u[..n]))) + u[n..]
  {
    assert u == u[..n] + u[n..];
    Chain3(s, s[1..], u, [s[0]], OptionalUnit(sign), u[..n], u[n..]);
  }

  lemma MatchExponentSound(s: Text)
    ensures s == ExponentText(MatchExponent(s).0) + MatchExponent(s).1
    ensures MatchExponent(s).0.Some? ==> MatchExponent(s).0.value.Valid()
  {
    MatchExponentValid(s);
    if MatchExponent(s).0.Some? {
      SignParts(s[1..]);
      var u := AfterSign(s[1..]);
      ExponentPieces(s, MatchSign(s[1..]), u, DigitRun(u));
    }
  }

  lemma Regroup(a: Text, b: Text, c: Text, d: Text, e: Text)
    ensures a + (b + (c + (d + e))) == (a + (b + (c + d))) + e
  {
  }

  lemma MatchNumberShape(s: Text, strict: bool)
    requires MatchNumber(s, strict).Some?
    ensures MatchNumber(s, strict).value.0.Loose()
    ensures strict ==> MatchNumber(s, strict).value.0.Strict()
  {
    var a := AfterMinus(s);
    var k := WholeRun(a, strict);
    MatchFractionSound(a[k..]);
    MatchExponentSound(MatchFraction(a[k..]).1);
    assert a[..k][0] == a[0];
  }

  lemma MatchNumberSound(s: Text, strict: bool)
    requires MatchNumber(s, strict).Some?
    ensures var m := MatchNumber(s, strict).value;
            m.0.Loose() && (strict ==> m.0.Strict()) && s == m.0.Render() + m.1
  {
    MatchNumberShape(s, strict);
    var a := AfterMinus(s);
    var b := a[WholeRun(a, strict)..];
    MatchFractionSound(b);
    MatchExponentSound(MatchFraction(b).1);
    RenderPieces(s, WholeRun(a, strict), MatchFraction(b).0, MatchFraction(b).1,
                 MatchExponent(MatchFraction(b).1).0, MatchExponent(MatchFraction(b).1).1);
  }

  lemma RenderPieces(s: Text, k: nat, f: Option<Text>, c: Text, e: Option<ExponentSpelling>, d: Text)
    requires k <= |AfterMinus(s)|
    requires AfterMinus(s)[k..] == FractionText(f) + c && c == ExponentText(e) + d
    ensures s == NumberSpelling(StartsNegative(s), AfterMinus(s)[..k], f, e).Render() + d
  {
    var a := AfterMinus(s);
    assert s == SignText(StartsNegative(s)) + a;
    assert a == a[..k] + a[k..];
    Chain4(s, a, a[k..], c, SignText(StartsNegative(s)), a[..k], FractionText(f), ExponentText(e), d);
  }

  /** What may follow a complete token in a JSON document. */
  predicate Delimited(rest: Text)
  {
    rest != [] ==>
      !IsDigit(rest[0]) && rest[0] != POINT && rest[0] != LOWER_E && rest[0] != UPPER_E
  }

  lemma AfterSignComplete(sign: Option<Unit>, u: Text)
    requires sign.Some? ==> sign.value == PLUS || sign.value == MINUS
    requires u != [] && IsDigit(u[0])
    ensures MatchSign(OptionalUnit(sign) + u) == sign
    ensures AfterSign(OptionalUnit(sign) + u) == u
  {
    if sign.None? { assert OptionalUnit(sign) + u == u; }
  }

  lemma MatchExponentComplete(e: Option<ExponentSpelling>, rest: Text)
    requires e.Some? ==> e.value.Valid()
    requires Delimited(rest)
    ensures MatchExponent(ExponentText(e) + rest) == (e, rest)
  {
    if e.Some? {
      var x := e.value;
      var s := x.Render() + rest;
      var u := x.digits + rest;
      var t := OptionalUnit(x.sign) + u;
      assert s == [x.mark] + t;
      assert s[0] == x.mark && s[1..] == t;
      AfterSignComplete(x.sign, u);
      DigitRunStops(x.digits, rest);
      assert u[..|x.digits|] == x.digits && u[|x.digits|..] == rest;
    } else {
      assert [] + rest == rest;
    }
  }

  lemma MatchFractionComplete(f: Option<Text>, rest: Text)
    requires f.Some? ==> f.value != [] && AllDigits(f.value)
    requires rest != [] ==> !IsDigit(rest[0]) && (f.None? ==> rest[0] != POINT)
    ensures MatchFraction(FractionText(f) + rest) == (f, rest)
  {
    if f.Some? {
      var s := [POINT] + f.value + rest;
      assert s[1..] == f.value + rest;
      DigitRunStops(f.value, rest);
      assert s[1..][..|f.value|] == f.value && s[1..][|f.value|..] == rest;
    } else {
      assert [] + rest == rest;
    }
  }

  lemma MatchNumberComplete(n: NumberSpelling, strict: bool, rest: Text)
    requires if strict then n.Strict() else n.Loose()
    requires Delimited(rest)
    ensures MatchNumber(n.Render() + rest, strict) == Some((n, rest))
  {
    var c := ExponentText(n.exponent) + rest;
    var b := FractionText(n.fraction) + c;
    var a := n.whole + b;
    var s := n.Render() + rest;
    Regroup(SignText(n.negative), n.whole, FractionText(n.fraction), ExponentText(n.exponent), rest);
    assert s == SignText(n.negative) + a;
    assert a[0] == n.whole[0];
    assert n.negative ==> s[0] == MINUS && s[1..] == a;
    assert !n.negative ==> s == a;
    MatchExponentComplete(n.exponent, rest);
    FollowsFraction(n, c, rest);
    DigitRunStops(n.whole, b);
    assert a[..|n.whole|] == n.whole && a[|n.whole|..] == b;
  }

  lemma FollowsFraction(n: NumberSpelling, c: Text, rest: Text)
    requires n.Loose() && Delimited(rest) && c == ExponentText(n.exponent) + rest
    ensures MatchFraction(FractionText(n.fraction) + c) == (n.fraction, c)
    ensures FractionText(n.fraction) + c != [] ==> !IsDigit((FractionText(n.fraction) + c)[0])
  {
    if n.exponent.Some? { assert c[0] == n.exponent.value.mark; }
    MatchFractionComplete(n.fraction, c);
  }

  // ---------- the identity string ----------

  function StripLeadingZeros(ds: Text): Text
  {
    if ds != [] && ds[0] == ZERO then StripLeadingZeros(ds[1..]) else ds
  }

  /** The length of `ds` without its trailing zeros. */
  function SignificantLength(ds: Text): (n: nat)
    ensures n <= |ds|
  {
    if ds != [] && ds[|ds| - 1] == ZERO then SignificantLength(ds[..|ds| - 1]) else |ds|
  }

  function IdentityText(negative: bool, coefficient: Text, exponent: int): Text
  {
    (if negative then [MINUS] else []) + (coefficient + ([LOWER_E] + IntegerText(exponent)))
  }

  function Identity(n: NumberSpelling): Text
  {
    var ds := StripLeadingZeros(n.whole + n.FractionDigits());
    if ds == [] then [ZERO, LOWER_E, ZERO] else
      var k := SignificantLength(ds);
      IdentityText(n.negative, ds[..k], n.Scale10() + (|ds| - k))
  }

  function TokenSpelling(token: Text): Option<NumberSpelling>
  {
    match MatchNumber(token, false)
    case Some((n, rest)) => if rest == [] then Some(n) else None
    case None => None
  }

  function TokenIdentity(token: Text): Option<Text>
  {
    match TokenSpelling(token)
    case Some(n) => Some(Identity(n))
    case None => None
  }

  lemma {:induction false} StripLeadingKeepsValue(ds: Text)
    requires AllDigits(ds)
    ensures AllDigits(StripLeadingZeros(ds))
    ensures Natural(StripLeadingZeros(ds)) == Natural(ds)
    ensures StripLeadingZeros(ds) != [] ==> StripLeadingZeros(ds)[0] != ZERO
  {
    if ds != [] && ds[0] == ZERO {
      StripLeadingKeepsValue(ds[1..]);
      NaturalLeadingZero(ds[1..]);
      assert ds == [ZERO] + ds[1..];
    }
  }

  lemma {:induction false} StripTrailingKeepsValue(ds: Text, e: int)
    requires AllDigits(ds) && ds != [] && ds[0] != ZERO
    ensures var k := SignificantLength(ds);
            && 0 < k && Natural(ds[..k]) % 10 != 0
            && Times10(Natural(ds), e) == Times10(Natural(ds[..k]), e + (|ds| - k))
  {
    var k := SignificantLength(ds);
    var init := ds[..|ds| - 1];
    assert Natural(ds) == 10 * Natural(init) + (ds[|ds| - 1] - ZERO);
    if ds[|ds| - 1] == ZERO {
      assert init != [] && init[0] == ds[0];
      assert k == SignificantLength(init);
      StripTrailingKeepsValue(init, e + 1);
      ShiftTen(Natural(init), e);
      assert init[..k] == ds[..k];
      assert (e + 1) + (|init| - k) == e + (|ds| - k);
    } else {
      assert k == |ds|;
      assert ds[..k] == ds;
    }
  }

  ghost predicate Reduces(n: NumberSpelling, c: Text, e: int)
  {
    && AllDigits(c) && c != [] && c[0] != ZERO && Natural(c) > 0 && Natural(c) % 10 != 0
    && Identity(n) == IdentityText(n.negative, c, e)
    && n.ExactValue() == (if n.negative then -Times10(Natural(c), e) else Times10(Natural(c), e))
  }

  /** The reduced form behind a token's identity string denotes the token's exact value. */
  lemma IdentityReduced(n: NumberSpelling) returns (c: Text, e: int)
    requires n.Loose()
    ensures c == [] ==> Identity(n) == [ZERO, LOWER_E, ZERO] && n.ExactValue() == 0.0
    ensures c != [] ==> Reduces(n, c, e)
  {
    var all: Text := n.whole + n.FractionDigits();
    var ds := StripLeadingZeros(all);
    StripLeadingKeepsValue(all);
    if ds == [] {
      c, e := [], 0;
      Times10Sign(Natural(all), n.Scale10());
    } else {
      var k := SignificantLength(ds);
      StripTrailingKeepsValue(ds, n.Scale10());
      c, e := ds[..k], n.Scale10() + (|ds| - k);
      NaturalPositive(c);
    }
  }

  lemma DigitsBeforeMark(a: Text, b: Text, x: Text, y: Text)
    requires AllDigits(a) && AllDigits(b)
    requires a + ([LOWER_E] + x) == b + ([LOWER_E] + y)
    ensures a == b && x == y
  {
    var s, t := a + ([LOWER_E] + x), b + ([LOWER_E] + y);
    assert s[|a|] == LOWER_E && t[|b|] == LOWER_E;
    assert forall i :: 0 <= i < |a| ==> s[i] == a[i];
    assert forall i :: 0 <= i < |b| ==> t[i] == b[i];
    assert s[..|a|] == a && t[..|b|] == b;
    assert s[|a| + 1..] == x && t[|b| + 1..] == y;
  }

  lemma IdentityTextInjective(n1: bool, c1: Text, e1: int, n2: bool, c2: Text, e2: int)
    requires AllDigits(c1) && AllDigits(c2) && c1 != [] && c2 != []
    requires IdentityText(n1, c1, e1) == IdentityText(n2, c2, e2)
    ensures n1 == n2 && c1 == c2 && e1 == e2
  {
    var s, t := IdentityText(n1, c1, e1), IdentityText(n2, c2, e2);
    var x, y := IntegerText(e1), IntegerText(e2);
    assert s[0] == if n1 then MINUS else c1[0];
    assert t[0] == if n2 then MINUS else c2[0];
    assert IsDigit(c1[0]) && IsDigit(c2[0]);
    assert n1 == n2;
    assert (if n1 then s[1..] else s) == c1 + ([LOWER_E] + x);
    assert (if n2 then t[1..] else t) == c2 + ([LOWER_E] + y);
    DigitsBeforeMark(c1, c2, x, y);
    IntegerTextInjective(e1, e2);
  }

  lemma ZeroIdentityDiffers(negative: bool, c: Text, e: int)
    requires AllDigits(c) && c != [] && c[0] != ZERO
    ensures IdentityText(negative, c, e) != [ZERO, LOWER_E, ZERO]
  {
    assert IdentityText(negative, c, e)[0] == if negative then MINUS else c[0];
  }

  lemma ReducedSame(a: NumberSpelling, ca: Text, ea: int, b: NumberSpelling, cb: Text, eb: int)
    requires Reduces(a, ca, ea) && Reduces(b, cb, eb)
    ensures Identity(a) == Identity(b) <==> a.ExactValue() == b.ExactValue()
  {
    if Identity(a) == Identity(b) {
      IdentityTextInjective(a.negative, ca, ea, b.negative, cb, eb);
    }
    if a.ExactValue() == b.ExactValue() {
      Times10Sign(Natural(ca), ea);
      Times10Sign(Natural(cb), eb);
      ReducedUnique(Natural(ca), ea, Natural(cb), eb);
      NaturalInjective(ca, cb);
    }
  }

  /** Two tokens get one identity string exactly when their exact decimal values are equal. */
  lemma IdentityComplete(a: NumberSpelling, b: NumberSpelling)
    requires a.Loose() && b.Loose()
    ensures Identity(a) == Identity(b) <==> a.ExactValue() == b.ExactValue()
  {
    var ca, ea := IdentityReduced(a);
    var cb, eb := IdentityReduced(b);
    if ca != [] && cb != [] {
      ReducedSame(a, ca, ea, b, cb, eb);
    } else {
      if ca != [] { ZeroIdentityDiffers(a.negative, ca, ea); Times10Sign(Natural(ca), ea); }
      if cb != [] { ZeroIdentityDiffers(b.negative, cb, eb); Times10Sign(Natural(cb), eb); }
    }
  }

  /** The same, for the tokens themselves and the looped computation's specification. */
  lemma TokenIdentityComplete(a: Text, b: Text)
    ensures TokenIdentity(a).Some? && TokenIdentity(b).Some? ==>
              (TokenIdentity(a) == TokenIdentity(b) <==>
               TokenSpelling(a).value.ExactValue() == TokenSpelling(b).value.ExactValue())
  {
    if TokenIdentity(a).Some? && TokenIdentity(b).Some? {
      MatchNumberSound(a, false);
      MatchNumberSound(b, false);
      IdentityComplete(TokenSpelling(a).value, TokenSpelling(b).value);
    }
  }

  lemma {:induction false} SignificantLengthFrom(ds: Text, n: nat)
    requires n <= |ds|
    requires forall i :: n <= i < |ds| ==> ds[i] == ZERO
    ensures SignificantLength(ds) == SignificantLength(ds[..n])
    decreases |ds|
  {
    if n < |ds| {
      SignificantLengthFrom(ds[..|ds| - 1], n);
      assert ds[..|ds| - 1][..n] == ds[..n];
    } else {
      assert ds[..n] == ds;
    }
  }

  lemma LoopLength(ds: Text, n: nat)
    requires n <= |ds|
    requires forall i :: n <= i < |ds| ==> ds[i] == ZERO
    requires n > 0 ==> ds[n - 1] != ZERO
    ensures SignificantLength(ds) == n
  {
    SignificantLengthFrom(ds, n);
    if n > 0 { assert ds[..n][n - 1] == ds[n - 1]; }
  }

  lemma IdentityAfterLoop(n: NumberSpelling, ds: Text, k: nat, kept: Text, exponent: int)
    requires ds == StripLeadingZeros(n.whole + n.FractionDigits()) && ds != []
    requires k == SignificantLength(ds) && exponent == n.Scale10() + (|ds| - k)
    requires k <= |ds| && if k < |ds| then kept == ds[..k] else kept == ds
    ensures Identity(n) == IdentityText(n.negative, kept, exponent)
  {
    assert ds[..|ds|] == ds;
  }

  method SpellingIdentity(parts: NumberSpelling) returns (identity: Text)
    ensures identity == Identity(parts)
  {
    var coefficientDigits := StripLeadingZeros(parts.whole + parts.FractionDigits());
    if |coefficientDigits| == 0 { return [ZERO, LOWER_E, ZERO]; }
    var exponent := parts.Scale10();
    var significantLength := |coefficientDigits|;
    while significantLength > 0 && coefficientDigits[significantLength - 1] == ZERO
      invariant 0 <= significantLength <= |coefficientDigits|
      invariant forall i :: significantLength <= i < |coefficientDigits| ==> coefficientDigits[i] == ZERO
    {
      significantLength := significantLength - 1;
    }
    LoopLength(coefficientDigits, significantLength);
    var trailingZeros := |coefficientDigits| - significantLength;
    ghost var ds := coefficientDigits;
    if trailingZeros > 0 {
      coefficientDigits := coefficientDigits[..significantLength];
      exponent := exponent + trailingZeros;
    }
    IdentityAfterLoop(parts, ds, significantLength, coefficientDigits, exponent);
    identity := IdentityText(parts.negative, coefficientDigits, exponent);
  }

  method NormalizedDecimalIdentity(token: Text) returns (identity: Option<Text>)
    ensures identity == TokenIdentity(token)
  {
    match TokenSpelling(token)
    case None => identity := None;
    case Some(parts) =>
      var text := SpellingIdentity(parts);
      identity := Some(text);
  }

  // ---------- integers ----------

  function IntegerSpelling(n: int): NumberSpelling
  {
    NumberSpelling(n < 0, NaturalText(if n < 0 then -n else n), None, None)
  }

  lemma IntegerSpellingExact(n: int)
    ensures IntegerSpelling(n).Strict()
    ensures IntegerSpelling(n).Render() == IntegerText(n)
    ensures IntegerSpelling(n).ExactValue() == n as real
  {
    var s := IntegerSpelling(n);
    NaturalOfText(if n < 0 then -n else n);
    assert s.whole + s.FractionDigits() == s.whole;
    assert s.Render() == SignText(n < 0) + s.whole;
    assert s.Scale10() == 0;
  }
}
