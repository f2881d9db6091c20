/** What the evidence builder asks of its inputs, item by item, over their own fields. */
module EvidenceInputs {
  import opened Outcomes
  import opened Utf16
  import opened RunEvents
  import opened Artifacts
  import opened Ordering
  import opened Evidence
  import opened EvidenceVouches

  /** Ids differ within every list, sequence numbers among the events, and verifier references from each other. */
  ghost predicate IdsDiffer(i: Input)
  {
    && (forall a, b :: 0 <= a < b < |i.artifacts| ==>
        i.artifacts[a].material.artifactId != i.artifacts[b].material.artifactId)
    && (forall a, b :: 0 <= a < b < |i.approvals| ==> i.approvals[a].id != i.approvals[b].id)
    && (forall a, b :: 0 <= a < b < |i.verifications| ==>
          i.verifications[a].material.verificationId != i.verifications[b].material.verificationId)
    && (forall a, b :: 0 <= a < b < |i.exceptions| ==>
          i.exceptions[a].material.exceptionId != i.exceptions[b].material.exceptionId)
    && (forall a, b :: 0 <= a < b < |i.events| ==>
          i.events[a].eventId != i.events[b].eventId && i.events[a].sequence != i.events[b].sequence)
    && forall a, b :: 0 <= a < b < |i.references| ==> i.references[a] != i.references[b]
  }

  ghost predicate EventFits(h: Host, m: Material, e: Event)
  {
    && e.tenantId == m.tenantId && e.runId == m.runId && e.definitionDigest == m.definitionDigest
    && h.definitionDigest(e.definition) == m.definitionDigest
    && (e.body.RunAccepted? ==> e.body.workOrderBindingDigest == m.workOrderBindingDigest)
  }

  ghost predicate ArtifactFits(h: Host, i: Input, a: Artifact)
  {
    exists e :: e in i.events && ArtifactFrom(h, i.material, ArtifactRef(a.material.artifactId, a.artifactDigest), a, e)
  }

  ghost predicate ApprovalFits(h: Host, i: Input, a: Approval)
  {
    exists e :: e in i.events && ApprovalFrom(h, i.material, ApprovalRef(a.id, h.bindingDigest(a.binding)), a, e)
  }

  /** The artifact that a digest finds: the first with it. */
  ghost predicate FoundArtifact(i: Input, digest: Text, a: Artifact)
  {
    exists n :: 0 <= n < |i.artifacts| && i.artifacts[n] == a && a.artifactDigest == digest
                && forall k :: 0 <= k < n ==> i.artifacts[k].artifactDigest != digest
  }

  ghost predicate VerificationFits(h: Host, i: Input, v: Verification)
  {
    exists a, e ::
      FoundArtifact(i, v.material.artifactDigest, a) && e in i.events
          && VerificationFrom(h, i, RefOfVerification(v), v, a, e)
  }

  /** The reference is for the verifier, registration and rubric of the exception, whatever its version. */
  predicate NamedBy(x: VerificationException, r: Reference)
  {
    && r.id == x.material.verifierId && r.registrationDigest == x.material.registrationDigest
    && r.rubricVersion == x.material.rubricVersion && r.rubricDigest == x.material.rubricDigest
  }

  /** The first reference that the exception names. */
  ghost predicate FoundReference(i: Input, x: VerificationException, r: Reference)
  {
    exists n :: 0 <= n < |i.references| && i.references[n] == r && NamedBy(x, r)
                && forall k :: 0 <= k < n ==> !NamedBy(x, i.references[k])
  }

  /** The verification is of the artifact and by the registered verifier that the exception is for. */
  predicate SameCheck(v: Verification, x: VerificationException)
  {
    && v.material.artifactDigest == x.material.artifactDigest && v.material.verifierId == x.material.verifierId
    && v.material.registrationDigest == x.material.registrationDigest
  }

  ghost predicate ExceptionFits(h: Host, i: Input, x: VerificationException)
  {
    && (exists a, e ::
          FoundArtifact(i, x.material.artifactDigest, a) && e in i.events
          && ExceptionFrom(h, i.material, RefOfException(x), x, a, e))
    && (forall v :: v in i.verifications ==> !SameCheck(v, x))
    && exists r :: r in i.references && NamedBy(x, r)
  }

  /** Some verification or exception uses the reference. */
  ghost predicate IsUsed(i: Input, r: Reference)
  {
    || (exists v ::
          v in i.verifications
          && r == Reference(v.material.verifierId, v.material.verifierVersion, v.material.registrationDigest,
                            v.material.rubricVersion, v.material.rubricDigest))
    || exists x :: x in i.exceptions && FoundReference(i, x, r)
  }

  /** Exactly one event accepts the run. */
  ghost predicate OneAcceptance(events: seq<Event>)
  {
    exists n :: 0 <= n < |events| && AcceptsAt(events, n)
  }

  ghost predicate AcceptsAt(events: seq<Event>, n: nat)
  {
    forall k :: 0 <= k < |events| ==> (events[k].body.RunAccepted? <==> k == n)
  }

  ghost predicate Coherent(h: Host, i: Input)
  {
    && IdsDiffer(i) && h.definitionDigest(i.material.definition) == i.material.definitionDigest
    && (forall e :: e in i.events ==> EventFits(h, i.material, e))
    && (forall a :: a in i.artifacts ==> ArtifactFits(h, i, a))
    && (forall a :: a in i.approvals ==> ApprovalFits(h, i, a))
    && (forall v :: v in i.verifications ==> VerificationFits(h, i, v))
    && (forall x :: x in i.exceptions ==> ExceptionFits(h, i, x))
    && (forall r :: r in i.references ==> IsUsed(i, r))
    && OneAcceptance(i.events)
  }

  // ---------- one check at a time ----------

  lemma IdsExactly(i: Input)
    ensures UniqueIds(i) && NoRepeats(i.references) <==> IdsDiffer(i)
  {
    hide Mapped;
  }

  lemma ArtifactExactly(h: Host, i: Input, a: Artifact)
    ensures ArtifactHolds(h, i.material, i.events, a) <==> ArtifactFits(h, i, a)
  {
    if ArtifactHolds(h, i.material, i.events, a) {
      var e :| e in i.events && Produces(e, a);
      assert ArtifactFrom(h, i.material, ArtifactRef(a.material.artifactId, a.artifactDigest), a, e);
    }
    if ArtifactFits(h, i, a) {
      var e :| e in i.events && ArtifactFrom(h, i.material, ArtifactRef(a.material.artifactId, a.artifactDigest), a, e);
      assert Produces(e, a);
    }
  }

  lemma ApprovalExactly(h: Host, i: Input, a: Approval)
    ensures ApprovalHolds(h, i.material, i.events, a) <==> ApprovalFits(h, i, a)
  {
    if ApprovalHolds(h, i.material, i.events, a) {
      var e :| e in i.events && Approves(e, a);
      assert ApprovalFrom(h, i.material, ApprovalRef(a.id, h.bindingDigest(a.binding)), a, e);
    }
    if ApprovalFits(h, i, a) {
      var e :| e in i.events && ApprovalFrom(h, i.material, ApprovalRef(a.id, h.bindingDigest(a.binding)), a, e);
      assert Approves(e, a);
    }
  }

  lemma {:induction false} FindArtifactAt(artifacts: seq<Artifact>, digest: Text) returns (n: nat)
    ensures
      match FindArtifact(artifacts, digest)
      case None => forall k :: 0 <= k < |artifacts| ==> artifacts[k].artifactDigest != digest
      case Some(a) =>
        && n < |artifacts| && artifacts[n] == a && a.artifactDigest == digest
        && forall k :: 0 <= k < n ==> artifacts[k].artifactDigest != digest
  {
    n := 0;
    if artifacts != [] && artifacts[0].artifactDigest != digest {
      var m := FindArtifactAt(artifacts[1..], digest);
      n := m + 1;
    }
  }

  lemma FoundExactly(i: Input, digest: Text, a: Artifact)
    ensures FindArtifact(i.artifacts, digest) == Some(a) <==> FoundArtifact(i, digest, a)
  {
    hide FindArtifact;
    var n := FindArtifactAt(i.artifacts, digest);
  }

  lemma VerificationExactly(h: Host, i: Input, v: Verification)
    ensures VerificationHolds(h, i, v) <==> VerificationFits(h, i, v)
  {
    hide FindArtifact, FoundArtifact;
    var digest := v.material.artifactDigest;
    if VerificationHolds(h, i, v) {
      var a := FindArtifact(i.artifacts, digest).value;
      FoundExactly(i, digest, a);
      var e :| e in i.events && Records(e, v, a.material.producingStepId);
      assert VerificationFrom(h, i, RefOfVerification(v), v, a, e);
    }
    if VerificationFits(h, i, v) {
      var a, e :| FoundArtifact(i, digest, a) && e in i.events && VerificationFrom(h, i, RefOfVerification(v), v, a, e);
      FoundExactly(i, digest, a);
      assert Records(e, v, a.material.producingStepId);
    }
  }

  lemma {:induction false} FindReferenceAt(references: seq<Reference>, x: VerificationException) returns (n: nat)
    ensures
      match FindReference(references, x.material)
      case None => forall k :: 0 <= k < |references| ==> !NamedBy(x, references[k])
      case Some(r) =>
        && n < |references| && references[n] == r && NamedBy(x, r)
        && forall k :: 0 <= k < n ==> !NamedBy(x, references[k])
  {
    n := 0;
    if references != [] && !NamedBy(x, references[0]) {
      var m := FindReferenceAt(references[1..], x);
      n := m + 1;
    }
  }

  lemma NamedExactly(i: Input, x: VerificationException)
    ensures FindReference(i.references, x.material).Some? <==> exists r :: r in i.references && NamedBy(x, r)
    ensures forall r :: FindReference(i.references, x.material) == Some(r) <==> FoundReference(i, x, r)
  {
    hide FindReference;
    var n := FindReferenceAt(i.references, x);
  }

  lemma ExceptionExactly(h: Host, i: Input, x: VerificationException)
    ensures ExceptionHolds(h, i, x) <==> ExceptionFits(h, i, x)
  {
    hide FindArtifact, FoundArtifact, FindReference, Contains, NamedBy, Names;
    NamedExactly(i, x);
    var digest := x.material.artifactDigest;
    assert forall v :: Overrides(v, x.material) <==> SameCheck(v, x);
    if ExceptionHolds(h, i, x) {
      var a := FindArtifact(i.artifacts, digest).value;
      FoundExactly(i, digest, a);
      var e :| e in i.events && Grants(h, e, x, a.material.producingStepId);
      assert ExceptionFrom(h, i.material, RefOfException(x), x, a, e);
    }
    if ExceptionFits(h, i, x) {
      var a, e :| FoundArtifact(i, digest, a) && e in i.events
          && ExceptionFrom(h, i.material, RefOfException(x), x, a, e);
      FoundExactly(i, digest, a);
      assert Grants(h, e, x, a.material.producingStepId);
    }
  }

  lemma UsedExactly(h: Host, i: Input)
    requires forall v :: v in i.verifications ==> VerificationHolds(h, i, v)
    ensures UsedKeys(i) == (set r | r in i.references) <==> forall r :: r in i.references ==> IsUsed(i, r)
  {
    hide VerificationHolds, FindReference;
    forall x { NamedExactly(i, x); }
    forall r ensures r in UsedKeys(i) <==> IsUsed(i, r) {
    }
    forall v | v in i.verifications ensures KeyOf(v) in i.references { VerifierListed(h, i, v); }
    forall r | r in UsedKeys(i) ensures r in i.references { }
  }

  lemma VerifierListed(h: Host, i: Input, v: Verification)
    requires VerificationHolds(h, i, v)
    ensures KeyOf(v) in i.references
  {
  }

  lemma {:induction false} AcceptedCount(events: seq<Event>)
    ensures |AcceptedEvents(events)| == 0 <==> forall k :: 0 <= k < |events| ==> !events[k].body.RunAccepted?
    ensures |AcceptedEvents(events)| == 1 <==> OneAcceptance(events)
  {
    if events != [] {
      var rest := events[1..];
      AcceptedCount(rest);
      assert forall k :: 0 <= k < |rest| ==> rest[k] == events[k + 1];
      if n :| 0 <= n < |rest| && AcceptsAt(rest, n) && !events[0].body.RunAccepted? { assert AcceptsAt(events, n + 1); }
      if n :| 0 < n < |events| && AcceptsAt(events, n) { assert AcceptsAt(rest, n - 1); }
      if events[0].body.RunAccepted? && |AcceptedEvents(rest)| == 0 { assert AcceptsAt(events, 0); }
      if AcceptsAt(events, 0) { assert forall k :: 1 <= k < |events| ==> !events[k].body.RunAccepted?; }
    }
  }

  /** The references are in order exactly if the inputs are coherent. */
  lemma ReferencesExactly(h: Host, i: Input)
    ensures References(h, i) <==> Coherent(h, i)
  {
    hide UniqueIds, IdsDiffer, EventHolds, ArtifactHolds, ArtifactFits, ApprovalHolds, ApprovalFits, VerificationHolds,
         VerificationFits, ExceptionHolds, ExceptionFits, UsedKeys, IsUsed, AcceptedEvents;
    IdsExactly(i);
    forall e { EventExactly(h, i, e); }
    forall a { ArtifactExactly(h, i, a); }
    forall a { ApprovalExactly(h, i, a); }
    forall v { VerificationExactly(h, i, v); }
    forall x { ExceptionExactly(h, i, x); }
    if forall v :: v in i.verifications ==> VerificationHolds(h, i, v) { UsedExactly(h, i); }
    AcceptedCount(i.events);
  }

  lemma EventExactly(h: Host, i: Input, e: Event)
    ensures EventHolds(h, i.material, e) <==> EventFits(h, i.material, e)
  {
  }

  /** A record is built exactly for coherent inputs whose one acceptance it vouches for. */
  lemma BuiltExactly(h: Host, i: Input)
    ensures
      Build(h, i).Ok? <==>
      && Coherent(h, i)
      && exists e :: e in i.events && e.body.RunAccepted?
           && (forall id :: id in e.body.requiredVerifierIds ==> Vouches(RecordOf(h, i), id))
           && (i.material.risk.High? || i.material.risk.Critical? ==> HasStrongPass(RecordOf(h, i)))
  {
    hide References, Coherent, Vouches, HasStrongPass, RecordOf, Satisfied, StronglyVerified;
    ReferencesExactly(h, i);
    if References(h, i) {
      AcceptanceThere(h, i);
      var e :| e in i.events && e.body.RunAccepted?;
      forall a | a in i.events && a.body.RunAccepted? { AcceptedExactly(h, i, a); }
    }
  }

  lemma AcceptanceThere(h: Host, i: Input)
    requires References(h, i)
    ensures exists e :: e in i.events && e.body.RunAccepted?
  {
    hide EventHolds, ArtifactHolds, ApprovalHolds, VerificationHolds, ExceptionHolds, UsedKeys, UniqueIds;
    AcceptedAre(i.events);
    assert AcceptedEvents(i.events)[0] in AcceptedEvents(i.events);
  }
}
