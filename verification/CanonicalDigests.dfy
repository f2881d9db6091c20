/** `digestCanonicalJson`: the printer, the encoder and SHA-256 together. */
module CanonicalDigests {
  import opened Outcomes
  import opened Utf16
  import opened Sha256
  import opened Digests
  import opened JsonValue
  import opened JsonPrinter
  import opened JsonRoundTrip
  import opened JsonTexts
  import opened CodePoints

  function CanonicalBytes(t: Text): seq<Byte> { Utf8(Points(t)) }

  function DigestCanonicalJson(eng: Engine, v: Json): Result<Text, Error>
  {
    match Print(eng, v) case Err(e) => Err(e) case Ok(t) => Ok(DigestBytes(CanonicalBytes(t)))
  }

  /** Values with equal digests are equal, or their canonical bytes collide under SHA-256 itself. */
  lemma DigestIdentifiesValue(eng: Engine, v: Json, w: Json)
    requires Faithful(eng) && OfEngine(eng, v) && OfEngine(eng, w)
    requires DigestCanonicalJson(eng, v).Ok? && DigestCanonicalJson(eng, v) == DigestCanonicalJson(eng, w)
    ensures v == w || Collide(CanonicalBytes(Print(eng, v).value), CanonicalBytes(Print(eng, w).value))
  {
    hide Faithful, OfEngine, Print, DigestBytes, Collide;
    var s, t := Print(eng, v).value, Print(eng, w).value;
    SameDigestBytes(CanonicalBytes(s), CanonicalBytes(t));
    if CanonicalBytes(s) == CanonicalBytes(t) {
      PrintIsWellFormed(eng, v);
      PrintIsWellFormed(eng, w);
      EncodingInjective(s, t);
      PrintInjective(eng, v, w);
    }
  }
}
