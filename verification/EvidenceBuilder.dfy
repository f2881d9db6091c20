/** `buildEvidenceRecord` as the source runs it: one pass per list, with early exits. */
module EvidenceBuilder {
  import opened Outcomes
  import opened Utf16
  import opened RunEvents
  import opened Artifacts
  import opened Ordering
  import opened Evidence

  /** `new Set(values).size === values.length` */
  method AllDistinct<T(==)>(values: seq<T>) returns (distinct: bool)
    ensures distinct <==> NoRepeats(values)
  {
    var seen: set<T> := {};
    for n := 0 to |values|
      invariant seen == Elements(values[..n])
      invariant |seen| <= n
      invariant |seen| == n <==> NoRepeats(values[..n])
    {
      SetGrows(values, n);
      seen := seen + {values[n]};
    }
    assert values[..|values|] == values;
    distinct := |seen| == |values|;
  }

  ghost function Elements<T>(values: seq<T>): set<T> { set v | v in values }

  lemma SetGrows<T>(values: seq<T>, n: nat)
    requires n < |values|
    ensures Elements(values[..n + 1]) == Elements(values[..n]) + {values[n]}
    ensures NoRepeats(values[..n + 1]) <==> NoRepeats(values[..n]) && values[n] !in values[..n]
  {
    var a, b := values[..n], values[..n + 1];
    assert b == a + [values[n]];
    assert forall i :: 0 <= i < n ==> a[i] == b[i];
  }

  method CheckUniqueIds(i: Input) returns (ok: bool)
    ensures ok <==> UniqueIds(i)
  {
    hide Mapped;
    var a := AllDistinct(Mapped(i.artifacts, ArtifactId));
    var b := AllDistinct(Mapped(i.approvals, ApprovalId));
    var c := AllDistinct(Mapped(i.verifications, VerificationId));
    var d := AllDistinct(Mapped(i.exceptions, ExceptionId));
    if !(a && b && c && d) { return false; }
    var e := AllDistinct(Mapped(i.events, EventId));
    var f := AllDistinct(Mapped(i.events, SequenceOf));
    return e && f;
  }

  method CheckEvents(h: Host, i: Input) returns (ok: bool)
    ensures ok <==> forall e :: e in i.events ==> EventHolds(h, i.material, e)
  {
    for n := 0 to |i.events|
      invariant forall k :: 0 <= k < n ==> EventHolds(h, i.material, i.events[k])
    {
      if !EventHolds(h, i.material, i.events[n]) { return false; }
    }
    return true;
  }

  method CheckArtifacts(h: Host, i: Input) returns (ok: bool)
    ensures ok <==> forall a :: a in i.artifacts ==> ArtifactHolds(h, i.material, i.events, a)
  {
    for n := 0 to |i.artifacts|
      invariant forall k :: 0 <= k < n ==> ArtifactHolds(h, i.material, i.events, i.artifacts[k])
    {
      if !ArtifactHolds(h, i.material, i.events, i.artifacts[n]) { return false; }
    }
    return true;
  }

  method CheckApprovals(h: Host, i: Input) returns (ok: bool)
    ensures ok <==> forall a :: a in i.approvals ==> ApprovalHolds(h, i.material, i.events, a)
  {
    for n := 0 to |i.approvals|
      invariant forall k :: 0 <= k < n ==> ApprovalHolds(h, i.material, i.events, i.approvals[k])
    {
      if !ApprovalHolds(h, i.material, i.events, i.approvals[n]) { return false; }
    }
    return true;
  }

  /** The verifications, collecting the keys they use. */
  method CheckVerifications(h: Host, i: Input) returns (ok: bool, used: set<Reference>)
    ensures ok <==> forall v :: v in i.verifications ==> VerificationHolds(h, i, v)
    ensures ok ==> used == (set v | v in i.verifications :: KeyOf(v))
  {
    used := {};
    for n := 0 to |i.verifications|
      invariant forall k :: 0 <= k < n ==> VerificationHolds(h, i, i.verifications[k])
      invariant used == (set v | v in i.verifications[..n] :: KeyOf(v))
    {
      if !VerificationHolds(h, i, i.verifications[n]) { return false, used; }
      assert i.verifications[..n + 1] == i.verifications[..n] + [i.verifications[n]];
      used := used + {KeyOf(i.verifications[n])};
    }
    assert i.verifications[..|i.verifications|] == i.verifications;
    return true, used;
  }

  function ExceptionKeys(i: Input, exceptions: seq<VerificationException>): set<Reference>
  {
    set x | x in exceptions && FindReference(i.references, x.material).Some? :: FindReference(i.references, x.material).value
  }

  method CheckExceptions(h: Host, i: Input) returns (ok: bool, used: set<Reference>)
    ensures ok <==> forall x :: x in i.exceptions ==> ExceptionHolds(h, i, x)
    ensures ok ==> used == ExceptionKeys(i, i.exceptions)
  {
    used := {};
    for n := 0 to |i.exceptions|
      invariant forall k :: 0 <= k < n ==> ExceptionHolds(h, i, i.exceptions[k])
      invariant used == ExceptionKeys(i, i.exceptions[..n])
    {
      if !ExceptionHolds(h, i, i.exceptions[n]) { return false, used; }
      OneMoreKey(i, i.exceptions[..n], i.exceptions[n]);
      assert i.exceptions[..n + 1] == i.exceptions[..n] + [i.exceptions[n]];
      used := used + {FindReference(i.references, i.exceptions[n].material).value};
    }
    assert i.exceptions[..|i.exceptions|] == i.exceptions;
    return true, used;
  }

  lemma OneMoreKey(i: Input, done: seq<VerificationException>, x: VerificationException)
    requires FindReference(i.references, x.material).Some?
    ensures ExceptionKeys(i, done + [x]) == ExceptionKeys(i, done) + {FindReference(i.references, x.material).value}
  {
  }

  method FilterAccepted(events: seq<Event>) returns (accepted: seq<Event>)
    ensures accepted == AcceptedEvents(events)
  {
    accepted := [];
    var n := |events|;
    while n > 0
      invariant 0 <= n <= |events|
      invariant accepted == AcceptedEvents(events[n..])
    {
      n := n - 1;
      assert events[n..][1..] == events[n + 1..];
      if events[n].body.RunAccepted? { accepted := [events[n]] + accepted; }
    }
    assert events[0..] == events;
  }

  method CheckRequired(i: Input, required: seq<Text>) returns (ok: bool)
    ensures ok <==> forall id :: id in required ==> Satisfied(i, id)
  {
    for n := 0 to |required|
      invariant forall k :: 0 <= k < n ==> Satisfied(i, required[k])
    {
      var failed, passed := HasVerdict(i, required[n], Fail), HasVerdict(i, required[n], Pass);
      var excepted := Excepted(i, required[n]);
      if failed || (!passed && !excepted) {
        assert required[n] in required && !Satisfied(i, required[n]);
        return false;
      }
    }
    return true;
  }

  lemma UsedAreKnown(h: Host, i: Input)
    requires forall v :: v in i.verifications ==> VerificationHolds(h, i, v)
    ensures UsedKeys(i) <= set r | r in i.references
  {
    forall r | r in UsedKeys(i) ensures r in i.references {
      if v :| v in i.verifications && KeyOf(v) == r { assert VerificationHolds(h, i, v); }
    }
  }

  lemma SameSize<T>(a: set<T>, b: set<T>)
    requires a <= b
    ensures |a| == |b| <==> a == b
  {
    assert b == a + (b - a);
  }

  method CheckReferences(h: Host, i: Input) returns (ok: bool, accepted: seq<Event>)
    ensures ok <==> References(h, i)
    ensures ok ==> accepted == AcceptedEvents(i.events) && |accepted| == 1 && accepted[0].body.RunAccepted?
  {
    hide UniqueIds, EventHolds, ArtifactHolds, ApprovalHolds, VerificationHolds, ExceptionHolds, AcceptedEvents, FindReference;
    accepted := [];
    if i.events == [] { return false, accepted; }
    var unique := CheckUniqueIds(i);
    if !unique { return false, accepted; }
    var events := CheckEvents(h, i);
    if !events { return false, accepted; }
    if h.definitionDigest(i.material.definition) != i.material.definitionDigest { return false, accepted; }
    var artifacts := CheckArtifacts(h, i);
    if !artifacts { return false, accepted; }
    var approvals := CheckApprovals(h, i);
    if !approvals { return false, accepted; }
    var keys := AllDistinct(i.references);
    if !keys { return false, accepted; }
    var verifications, usedByVerifications := CheckVerifications(h, i);
    if !verifications { return false, accepted; }
    var exceptions, usedByExceptions := CheckExceptions(h, i);
    if !exceptions { return false, accepted; }
    var used, known := usedByVerifications + usedByExceptions, set r | r in i.references;
    UsedAreKnown(h, i);
    SameSize(used, known);
    if |used| != |known| { return false, accepted; }
    accepted := FilterAccepted(i.events);
    AcceptedAre(i.events);
    assert |accepted| == 1 ==> accepted[0] in accepted;
    return |accepted| == 1, accepted;
  }

  method BuildEvidenceRecord(h: Host, i: Input) returns (r: Result<EvidenceRecord, Evidence.Error>)
    ensures r == Build(h, i)
    ensures r.Ok? ==> DigestHolds(h, r.value)
  {
    hide References, Satisfied, AcceptedEvents, RecordOf;
    var ok, accepted := CheckReferences(h, i);
    if !ok { return Err(InvalidReference); }
    var satisfied := CheckRequired(i, accepted[0].body.requiredVerifierIds);
    if !satisfied { return Err(VerificationMissing); }
    if HighRisk(i.material.risk) && !StronglyVerified(i) { return Err(VerificationMissing); }
    var record := RecordOf(h, i);
    return Ok(EvidenceRecord(record, h.recordDigest(record)));
  }
}
