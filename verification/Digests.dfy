/** The digest strings of `digestBytes`. */
module Digests {
  import opened Outcomes
  import opened Utf16
  import opened Sha256
  import opened JsonStrings

  /** The text `sha256:`. */
  const DIGEST_PREFIX: Text := [0x73, 0x68, 0x61, 0x32, 0x35, 0x36, 0x3A]

  predicate LowerHex(c: Unit) { 0x30 <= c <= 0x39 || 0x61 <= c <= 0x66 }

  /** `DigestSchema`: the prefix and 64 lowercase hexadecimal digits. */
  predicate IsDigest(t: Text)
  {
    && |t| == 71 && t[..7] == DIGEST_PREFIX
    && forall i :: 7 <= i < 71 ==> LowerHex(t[i])
  }

  /** Two lowercase hexadecimal digits for each byte. */
  function HexPairs(bytes: seq<Byte>): (t: Text)
    ensures |t| == 2 * |bytes|
  {
    if bytes == [] then [] else [HexDigit(bytes[0] / 16), HexDigit(bytes[0] % 16)] + HexPairs(bytes[1..])
  }

  /** `digestBytes` */
  function DigestBytes(bytes: seq<Byte>): Text { DIGEST_PREFIX + HexPairs(Digest(bytes)) }

  lemma {:induction false} HexPairsAreHex(bytes: seq<Byte>)
    ensures forall i :: 0 <= i < |HexPairs(bytes)| ==> LowerHex(HexPairs(bytes)[i])
  {
    if bytes != [] { HexPairsAreHex(bytes[1..]); }
  }

  lemma {:induction false} ConcatenateLength(words: seq<Word>)
    ensures |Concatenate(words)| == 4 * |words|
    decreases |words|
  {
    if words != [] { ConcatenateLength(words[..|words| - 1]); }
  }

  lemma DigestLength(message: seq<Byte>)
    ensures |Digest(message)| == 32
  {
    hide HashBlocks, Concatenate, Pad;
    PadIsPadding(message);
    var state := HashBlocks(Pad(message), PaddedLength(|message|) / 64);
    ConcatenateLength(state.Words());
  }

  /** Every digest has the form that the schema asks for. */
  lemma DigestBytesIsDigest(bytes: seq<Byte>)
    ensures IsDigest(DigestBytes(bytes))
  {
    hide Digest, HexPairs, LowerHex;
    var t, pairs := DigestBytes(bytes), HexPairs(Digest(bytes));
    HexPairsAreHex(Digest(bytes));
    DigestLength(bytes);
    assert |DIGEST_PREFIX| == 7 && t[..7] == DIGEST_PREFIX;
    forall i | 7 <= i < 71 ensures LowerHex(t[i]) { assert t[i] == pairs[i - 7]; }
  }

  /** Each byte is written as two digits, the high four bits first. */
  lemma {:induction false} HexPairsSpell(bytes: seq<Byte>, i: nat)
    requires i < |bytes|
    ensures var t := HexPairs(bytes);
            && HexValue(t[2 * i]).Some? && HexValue(t[2 * i + 1]).Some?
            && bytes[i] as int == 16 * HexValue(t[2 * i]).value + HexValue(t[2 * i + 1]).value
  {
    HexDigitValue(bytes[0] / 16);
    HexDigitValue(bytes[0] % 16);
    if i > 0 { HexPairsSpell(bytes[1..], i - 1); }
  }

  /** The digest string spells the SHA-256 value, byte for byte. */
  lemma DigestSpellsHash(bytes: seq<Byte>, i: nat)
    requires i < 32
    ensures |Digest(bytes)| == 32 && |DigestBytes(bytes)| == 71 && DigestBytes(bytes)[..7] == Ascii("sha256:")
    ensures var t := DigestBytes(bytes);
            && HexValue(t[7 + 2 * i]).Some? && HexValue(t[8 + 2 * i]).Some?
            && Digest(bytes)[i] as int == 16 * HexValue(t[7 + 2 * i]).value + HexValue(t[8 + 2 * i]).value
  {
    hide Digest, HexPairs, HexValue;
    DigestLength(bytes);
    HexPairsSpell(Digest(bytes), i);
    var t, pairs := DigestBytes(bytes), HexPairs(Digest(bytes));
    assert DIGEST_PREFIX == Ascii("sha256:");
    assert |DIGEST_PREFIX| == 7 && t[7 + 2 * i] == pairs[2 * i] && t[8 + 2 * i] == pairs[2 * i + 1];
  }

  lemma {:induction false} HexPairsInjective(a: seq<Byte>, b: seq<Byte>)
    requires HexPairs(a) == HexPairs(b)
    ensures a == b
  {
    assert |a| == |b|;
    if a != [] {
      var x, y := HexPairs(a), HexPairs(b);
      assert x[2..] == HexPairs(a[1..]) && y[2..] == HexPairs(b[1..]);
      HexPairsInjective(a[1..], b[1..]);
      HexDigitValue(a[0] / 16);
      HexDigitValue(b[0] / 16);
      HexDigitValue(a[0] % 16);
      HexDigitValue(b[0] % 16);
      assert x[0] == y[0] && x[1] == y[1];
      assert a == [a[0]] + a[1..] && b == [b[0]] + b[1..];
    }
  }

  /** Two byte strings with one SHA-256 value. */
  ghost predicate Collide(a: seq<Byte>, b: seq<Byte>) { a != b && Digest(a) == Digest(b) }

  /** Equal digest strings mean equal bytes, or a collision of SHA-256 itself. */
  lemma SameDigestBytes(a: seq<Byte>, b: seq<Byte>)
    requires DigestBytes(a) == DigestBytes(b)
    ensures a == b || Collide(a, b)
  {
    assert DigestBytes(a)[|DIGEST_PREFIX|..] == HexPairs(Digest(a));
    assert DigestBytes(b)[|DIGEST_PREFIX|..] == HexPairs(Digest(b));
    HexPairsInjective(Digest(a), Digest(b));
  }
}
