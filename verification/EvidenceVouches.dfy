/** What an accepted evidence record vouches for, in terms of its own references and of the items they come from. */
module EvidenceVouches {
  import opened Outcomes
  import opened Utf16
  import opened RunEvents
  import opened Artifacts
  import opened Ordering
  import opened Evidence
  import opened EvidenceOrder

  // ---------- verdicts ----------

  /** The reference is about the verifier, named by its id or by its registration digest. */
  predicate About(v: VerificationRef, id: Text) { v.verifierId == id || v.registrationDigest == id }

  predicate Excepts(x: ExceptionRef, id: Text) { x.verifierId == id || x.registrationDigest == id }

  /** No verification of the record fails the verifier, and one passes it unless an exception stands for it. */
  ghost predicate Vouches(r: RecordMaterial, id: Text)
  {
    && (forall v :: v in r.verificationRefs && About(v, id) ==> !v.status.Fail?)
    && ((exists v :: v in r.verificationRefs && About(v, id) && v.status.Pass?)
        || exists x :: x in r.exceptionRefs && Excepts(x, id))
  }

  /** A pass that rests on no model alone. */
  ghost predicate HasStrongPass(r: RecordMaterial)
  {
    exists v :: v in r.verificationRefs && v.status.Pass? && (v.method_.Deterministic? || v.method_.Human?)
  }

  lemma VerdictListed(h: Host, i: Input, v: Verification)
    requires v in i.verifications
    ensures RefOfVerification(v) in RecordOf(h, i).verificationRefs
  {
    hide Sort, Mapped;
    SortedMembers(i.verifications, RefOfVerification, TextBefore(VerificationRefKey), RefOfVerification(v));
  }

  lemma ListedVerdict(h: Host, i: Input, ref: VerificationRef) returns (v: Verification)
    requires ref in RecordOf(h, i).verificationRefs
    ensures v in i.verifications && RefOfVerification(v) == ref
  {
    hide Sort, Mapped;
    SortedMembers(i.verifications, RefOfVerification, TextBefore(VerificationRefKey), ref);
    v :| v in i.verifications && RefOfVerification(v) == ref;
  }

  lemma ExceptionListed(h: Host, i: Input, x: VerificationException)
    requires x in i.exceptions
    ensures RefOfException(x) in RecordOf(h, i).exceptionRefs
  {
    hide Sort, Mapped;
    SortedMembers(i.exceptions, RefOfException, TextBefore(ExceptionRefKey), RefOfException(x));
  }

  lemma ListedException(h: Host, i: Input, ref: ExceptionRef) returns (x: VerificationException)
    requires ref in RecordOf(h, i).exceptionRefs
    ensures x in i.exceptions && RefOfException(x) == ref
  {
    hide Sort, Mapped;
    SortedMembers(i.exceptions, RefOfException, TextBefore(ExceptionRefKey), ref);
    x :| x in i.exceptions && RefOfException(x) == ref;
  }

  lemma VerdictAlike(h: Host, i: Input, id: Text, verdict: Verdict)
    ensures HasVerdict(i, id, verdict)
            <==> exists v :: v in RecordOf(h, i).verificationRefs && About(v, id) && v.status == verdict
  {
    hide RecordOf;
    if HasVerdict(i, id, verdict) {
      var v :| v in i.verifications && v.material.status == verdict
               && IsFor(v.material.verifierId, v.material.registrationDigest, id);
      VerdictListed(h, i, v);
      assert About(RefOfVerification(v), id);
    }
    if ref :| ref in RecordOf(h, i).verificationRefs && About(ref, id) && ref.status == verdict {
      var v := ListedVerdict(h, i, ref);
    }
  }

  lemma ExceptedAlike(h: Host, i: Input, id: Text)
    ensures Excepted(i, id) <==> exists x :: x in RecordOf(h, i).exceptionRefs && Excepts(x, id)
  {
    hide RecordOf;
    if Excepted(i, id) {
      var x :| x in i.exceptions && IsFor(x.material.verifierId, x.material.registrationDigest, id);
      ExceptionListed(h, i, x);
      assert Excepts(RefOfException(x), id);
    }
    if ref :| ref in RecordOf(h, i).exceptionRefs && Excepts(ref, id) {
      var x := ListedException(h, i, ref);
    }
  }

  lemma StrongAlike(h: Host, i: Input)
    ensures StronglyVerified(i) <==> HasStrongPass(RecordOf(h, i))
  {
    hide RecordOf;
    if StronglyVerified(i) {
      var v :| v in i.verifications && v.material.status == Pass && !v.material.method_.Model?;
      VerdictListed(h, i, v);
      assert RefOfVerification(v).status.Pass?;
    }
    if ref :| ref in RecordOf(h, i).verificationRefs && ref.status.Pass? && (ref.method_.Deterministic? || ref.method_.Human?) {
      var v := ListedVerdict(h, i, ref);
    }
  }

  lemma SatisfiedVouches(h: Host, i: Input, id: Text)
    ensures Satisfied(i, id) <==> Vouches(RecordOf(h, i), id)
  {
    hide RecordOf, HasVerdict, Excepted;
    VerdictAlike(h, i, id, Fail);
    VerdictAlike(h, i, id, Pass);
    ExceptedAlike(h, i, id);
  }

  /**
   With its references in order, evidence is accepted if and only if its record vouches for each verifier that the
   one acceptance requires and, where the risk is high or critical, holds a pass by more than a model.
   */
  lemma AcceptedExactly(h: Host, i: Input, accepted: Event)
    requires References(h, i) && accepted in i.events && accepted.body.RunAccepted?
    ensures Build(h, i).Ok? <==>
            && (forall id :: id in accepted.body.requiredVerifierIds ==> Vouches(RecordOf(h, i), id))
            && (i.material.risk.High? || i.material.risk.Critical? ==> HasStrongPass(RecordOf(h, i)))
    ensures Build(h, i).Ok? ==> Build(h, i).value.material == RecordOf(h, i)
    ensures Build(h, i).Err? ==> Build(h, i) == Err(VerificationMissing)
  {
    hide RecordOf, Satisfied, StronglyVerified, References, AcceptedEvents, Vouches, HasStrongPass;
    ReferencesGive(h, i);
    AcceptedAre(i.events);
    assert accepted == AcceptedEvents(i.events)[0];
    forall id ensures Satisfied(i, id) <==> Vouches(RecordOf(h, i), id) { SatisfiedVouches(h, i, id); }
    StrongAlike(h, i);
  }

  // ---------- where each reference comes from ----------

  /** The event is among the inputs and its reference in the record. */
  ghost predicate Recorded(r: RecordMaterial, i: Input, e: Event)
  {
    e in i.events && EventRef(e.eventId, e.sequence) in r.eventRefs
  }

  lemma EventListed(h: Host, i: Input, e: Event)
    requires e in i.events
    ensures Recorded(RecordOf(h, i), i, e)
  {
    hide Sort, Mapped;
    EventsListed(h, i, RefOfEvent(e));
  }

  lemma EventsListed(h: Host, i: Input, ref: EventRef)
    ensures ref in RecordOf(h, i).eventRefs <==> exists e :: e in i.events && RefOfEvent(e) == ref
  {
    hide Sort, Mapped;
    SortPermutes(Mapped(i.events, RefOfEvent), NumberBefore(EventRefKey));
    MappedMembers(i.events, RefOfEvent, ref);
  }

  /** An artifact of the run, true to its digest and produced by a recorded event. */
  ghost predicate ArtifactFrom(h: Host, m: Material, ref: ArtifactRef, a: Artifact, e: Event)
  {
    && e.body.ArtifactProduced?
    && ref == ArtifactRef(a.material.artifactId, a.artifactDigest) && a.artifactDigest == h.artifactDigest(a.material)
    && a.material.tenantId == m.tenantId && a.material.producingRunId == m.runId
    && a.material.provenance.definitionDigest == m.definitionDigest
    && h.definitionDigest(a.material.provenance.definition) == m.definitionDigest
    && a.material.provenance.workOrderBindingDigest == m.workOrderBindingDigest
    && e.eventId == a.material.provenance.producingEventId && e.body.stepId == a.material.producingStepId
    && e.body.artifactId == ref.artifactId && e.body.artifactDigest == ref.artifactDigest
  }

  ghost predicate ArtifactGrounded(h: Host, i: Input, r: RecordMaterial, ref: ArtifactRef)
  {
    exists a, e :: a in i.artifacts && Recorded(r, i, e) && ArtifactFrom(h, r.material, ref, a, e)
  }

  /** An approval for the run and purpose, given before and expiring after the record was made, and recorded. */
  ghost predicate ApprovalFrom(h: Host, m: Material, ref: ApprovalRef, a: Approval, e: Event)
  {
    && e.body.ApprovalRecorded?
    && ref.approvalId == a.id && ref.approvalDigest == h.bindingDigest(a.binding)
    && a.binding.tenantId == m.tenantId && a.binding.runId == m.runId
    && a.binding.purposeCode == m.purposeCode
    && a.binding.purposeRegistryVersion == m.purposeRegistryVersion
    && a.binding.definitionDigest == m.definitionDigest && h.definitionDigest(a.binding.definition) == m.definitionDigest
    && a.binding.workOrderBindingDigest == m.workOrderBindingDigest
    && h.instant(a.createdAt) <= h.instant(m.createdAt) < h.instant(a.expiresAt)
    && e.body.approvalId == a.id && e.body.stepId == a.binding.stepId && e.body.decisionId == a.binding.decisionId
  }

  ghost predicate ApprovalGrounded(h: Host, i: Input, r: RecordMaterial, ref: ApprovalRef)
  {
    exists a, e :: a in i.approvals && Recorded(r, i, e) && ApprovalFrom(h, r.material, ref, a, e)
  }

  /** A verification true to its digest, of a listed artifact, by a listed verifier and recorded at that artifact's step. */
  ghost predicate VerificationFrom(h: Host, i: Input, ref: VerificationRef, v: Verification, a: Artifact, e: Event)
  {
    && e.body.VerificationRecorded?
    && ref == VerificationRef(
         v.material.verificationId, v.verificationDigest, v.material.status, v.material.artifactDigest,
         v.material.verifierId, v.material.verifierVersion, v.material.registrationDigest, v.material.method_,
         v.material.rubricVersion, v.material.rubricDigest)
    && v.verificationDigest == h.verificationDigest(v.material)
    && a.artifactDigest == ref.artifactDigest
    && Reference(ref.verifierId, ref.verifierVersion, ref.registrationDigest, ref.rubricVersion,
        ref.rubricDigest) in i.references
    && e.body.stepId == a.material.producingStepId && e.body.verificationId == ref.verificationId
    && e.body.verifierId == ref.verifierId && e.body.verdict == ref.status
    && e.body.verificationDigest == ref.verificationDigest
  }

  ghost predicate VerificationGrounded(h: Host, i: Input, r: RecordMaterial, ref: VerificationRef)
  {
    exists v, a, e ::
      v in i.verifications && a in i.artifacts && Recorded(r, i, e) && VerificationFrom(h, i, ref, v, a, e)
  }

  /** An exception of the run true to its digest, in its window when the record was made, declared and recorded. */
  ghost predicate ExceptionFrom(h: Host, m: Material, ref: ExceptionRef, x: VerificationException, a: Artifact,
          e: Event)
  {
    && e.body.VerificationExceptionRecorded?
    && ref == ExceptionRef(
         x.material.exceptionId, x.exceptionDigest, x.material.verifierId, x.material.registrationDigest,
         x.material.artifactDigest, x.material.rubricVersion, x.material.rubricDigest)
    && x.exceptionDigest == h.exceptionDigest(x.material)
    && x.material.tenantId == m.tenantId && x.material.runId == m.runId
    && a.artifactDigest == ref.artifactDigest && e.body.stepId == a.material.producingStepId
    && h.instant(x.material.issuedAt) <= h.instant(m.createdAt) < h.instant(x.material.expiresAt)
    && (exists s :: s in m.supports && Contains(s, ref.exceptionId))
    && (exists s :: s in m.doesNotProve && Contains(s, ref.exceptionId))
    && e.body.grant.exceptionId == ref.exceptionId && e.body.grant.exceptionDigest == ref.exceptionDigest
    && e.body.grant.verifierId == ref.verifierId && e.body.grant.registrationDigest == ref.registrationDigest
    && e.body.grant.artifactDigest == ref.artifactDigest && e.body.grant.rubricVersion == ref.rubricVersion
    && e.body.grant.rubricDigest == ref.rubricDigest && e.body.grant.reviewerRole == x.material.reviewerRole
    && e.body.grant.expiresAt == x.material.expiresAt && e.body.grant.reason == x.material.reason
    && h.controlsDigest(e.body.grant.controls) == h.controlsDigest(x.material.controls)
  }

  ghost predicate ExceptionGrounded(h: Host, i: Input, r: RecordMaterial, ref: ExceptionRef)
  {
    exists x, a, e ::
      x in i.exceptions && a in i.artifacts && Recorded(r, i, e) && ExceptionFrom(h, r.material, ref, x, a, e)
  }

  ghost predicate Grounded(h: Host, i: Input, r: RecordMaterial)
  {
    && (forall ref :: ref in r.artifactRefs ==> ArtifactGrounded(h, i, r, ref))
    && (forall ref :: ref in r.approvalRefs ==> ApprovalGrounded(h, i, r, ref))
    && (forall ref :: ref in r.verificationRefs ==> VerificationGrounded(h, i, r, ref))
    && (forall ref :: ref in r.exceptionRefs ==> ExceptionGrounded(h, i, r, ref))
    && forall ref :: ref in r.eventRefs ==>
         exists e :: Recorded(r, i, e) && EventRef(e.eventId, e.sequence) == ref && e.tenantId == r.material.tenantId
                     && e.runId == r.material.runId && e.definitionDigest == r.material.definitionDigest
  }

  lemma ListedArtifact(h: Host, i: Input, ref: ArtifactRef) returns (a: Artifact)
    requires ref in RecordOf(h, i).artifactRefs
    ensures a in i.artifacts && RefOfArtifact(a) == ref
  {
    hide Sort, Mapped;
    SortedMembers(i.artifacts, RefOfArtifact, TextBefore(ArtifactRefKey), ref);
    a :| a in i.artifacts && RefOfArtifact(a) == ref;
  }

  lemma ListedApproval(h: Host, i: Input, ref: ApprovalRef) returns (a: Approval)
    requires ref in RecordOf(h, i).approvalRefs
    ensures a in i.approvals && RefOfApproval(h)(a) == ref
  {
    hide Sort, Mapped;
    SortedMembers(i.approvals, RefOfApproval(h), TextBefore(ApprovalRefKey), ref);
    a :| a in i.approvals && RefOfApproval(h)(a) == ref;
  }

  lemma MaterialKept(h: Host, i: Input)
    ensures RecordOf(h, i).material == i.material
  {
  }

  lemma ArtifactsGround(h: Host, i: Input, ref: ArtifactRef)
    requires References(h, i) && ref in RecordOf(h, i).artifactRefs
    ensures ArtifactGrounded(h, i, RecordOf(h, i), ref)
  {
    hide RecordOf, UniqueIds, UsedKeys, AcceptedEvents, EventHolds, ApprovalHolds, VerificationHolds, ExceptionHolds,
         NoRepeats, Recorded;
    MaterialKept(h, i);
    var a := ListedArtifact(h, i, ref);
    assert ArtifactHolds(h, i.material, i.events, a);
    var e :| e in i.events && Produces(e, a);
    EventListed(h, i, e);
    assert ArtifactFrom(h, i.material, ref, a, e);
  }

  lemma ApprovalsGround(h: Host, i: Input, ref: ApprovalRef)
    requires References(h, i) && ref in RecordOf(h, i).approvalRefs
    ensures ApprovalGrounded(h, i, RecordOf(h, i), ref)
  {
    hide RecordOf, UniqueIds, UsedKeys, AcceptedEvents, EventHolds, ArtifactHolds, VerificationHolds, ExceptionHolds,
         NoRepeats, Recorded;
    MaterialKept(h, i);
    var a := ListedApproval(h, i, ref);
    assert ApprovalHolds(h, i.material, i.events, a);
    var e :| e in i.events && Approves(e, a);
    EventListed(h, i, e);
    assert ApprovalFrom(h, i.material, ref, a, e);
  }

  lemma VerificationsGround(h: Host, i: Input, ref: VerificationRef)
    requires References(h, i) && ref in RecordOf(h, i).verificationRefs
    ensures VerificationGrounded(h, i, RecordOf(h, i), ref)
  {
    hide RecordOf, UniqueIds, UsedKeys, AcceptedEvents, EventHolds, ArtifactHolds, ApprovalHolds, ExceptionHolds,
        NoRepeats,
         Recorded, FindArtifact;
    var v := ListedVerdict(h, i, ref);
    assert VerificationHolds(h, i, v);
    var a := FindArtifact(i.artifacts, v.material.artifactDigest).value;
    var e :| e in i.events && Records(e, v, a.material.producingStepId);
    EventListed(h, i, e);
    assert VerificationFrom(h, i, ref, v, a, e);
  }

  lemma ExceptionsGround(h: Host, i: Input, ref: ExceptionRef)
    requires References(h, i) && ref in RecordOf(h, i).exceptionRefs
    ensures ExceptionGrounded(h, i, RecordOf(h, i), ref)
  {
    hide RecordOf, UniqueIds, UsedKeys, AcceptedEvents, EventHolds, ArtifactHolds, ApprovalHolds, VerificationHolds,
         NoRepeats, Recorded, FindArtifact, FindReference, Contains, Overrides;
    MaterialKept(h, i);
    var x := ListedException(h, i, ref);
    assert ExceptionHolds(h, i, x);
    var a := FindArtifact(i.artifacts, x.material.artifactDigest).value;
    var e :| e in i.events && Grants(h, e, x, a.material.producingStepId);
    EventListed(h, i, e);
    assert ExceptionFrom(h, i.material, ref, x, a, e);
  }

  lemma EventsGround(h: Host, i: Input, ref: EventRef)
    requires References(h, i) && ref in RecordOf(h, i).eventRefs
    ensures exists e :: Recorded(RecordOf(h, i), i, e) && EventRef(e.eventId, e.sequence) == ref
              && e.tenantId == i.material.tenantId && e.runId == i.material.runId
              && e.definitionDigest == i.material.definitionDigest
  {
    hide RecordOf, UniqueIds, UsedKeys, AcceptedEvents, ArtifactHolds, ApprovalHolds, VerificationHolds, ExceptionHolds,
         NoRepeats, Recorded;
    EventsListed(h, i, ref);
    var e :| e in i.events && RefOfEvent(e) == ref;
    assert EventHolds(h, i.material, e);
    EventListed(h, i, e);
  }

  /** Every reference of an accepted record comes from an input item that is bound to its run and recorded by a listed event. */
  lemma RecordIsGrounded(h: Host, i: Input)
    requires Build(h, i).Ok?
    ensures Grounded(h, i, Build(h, i).value.material)
    ensures Build(h, i).value.material.material == i.material
  {
    hide References, Verified, AcceptedEvents, ArtifactGrounded, ApprovalGrounded, VerificationGrounded,
        ExceptionGrounded,
         Recorded, Sort, Mapped;
    var r := RecordOf(h, i);
    forall ref | ref in r.artifactRefs ensures ArtifactGrounded(h, i, r, ref) { ArtifactsGround(h, i, ref); }
    forall ref | ref in r.approvalRefs ensures ApprovalGrounded(h, i, r, ref) { ApprovalsGround(h, i, ref); }
    forall ref | ref in r.verificationRefs ensures VerificationGrounded(h, i, r, ref) { VerificationsGround(h, i, ref); }
    forall ref | ref in r.exceptionRefs ensures ExceptionGrounded(h, i, r, ref) { ExceptionsGround(h, i, ref); }
    forall ref | ref in r.eventRefs
      ensures exists e :: Recorded(r, i, e) && EventRef(e.eventId, e.sequence) == ref && e.tenantId == r.material.tenantId
                          && e.runId == r.material.runId && e.definitionDigest == r.material.definitionDigest
    {
      EventsGround(h, i, ref);
    }
  }

  // ---------- nothing is left out, and the lists are in order ----------

  /** Every input item has its reference in the record. */
  ghost predicate Complete(h: Host, i: Input, r: RecordMaterial)
  {
    && (forall a :: a in i.artifacts ==> ArtifactRef(a.material.artifactId, a.artifactDigest) in r.artifactRefs)
    && (forall e :: e in i.events ==> EventRef(e.eventId, e.sequence) in r.eventRefs)
    && (forall a :: a in i.approvals ==> ApprovalRef(a.id, h.bindingDigest(a.binding)) in r.approvalRefs)
    && (forall v :: v in i.verifications ==> RefOfVerification(v) in r.verificationRefs)
    && (forall x :: x in i.exceptions ==> RefOfException(x) in r.exceptionRefs)
  }

  /** The lists ascend by id in code-unit order, the events by sequence number. */
  ghost predicate InOrder(r: RecordMaterial)
  {
    && (forall a, b :: 0 <= a < b < |r.artifactRefs| ==> Less(r.artifactRefs[a].artifactId, r.artifactRefs[b].artifactId))
    && (forall a, b :: 0 <= a < b < |r.eventRefs| ==> r.eventRefs[a].sequence < r.eventRefs[b].sequence)
    && (forall a, b :: 0 <= a < b < |r.approvalRefs| ==> Less(r.approvalRefs[a].approvalId, r.approvalRefs[b].approvalId))
    && (forall a, b :: 0 <= a < b < |r.verificationRefs| ==>
          Less(r.verificationRefs[a].verificationId, r.verificationRefs[b].verificationId))
    && forall a, b :: 0 <= a < b < |r.exceptionRefs| ==>
        Less(r.exceptionRefs[a].exceptionId, r.exceptionRefs[b].exceptionId)
  }

  lemma SortedByText<T(!new), R(!new)>(xs: seq<T>, ref: T -> R, id: T -> Text, key: R -> Text, a: nat, b: nat)
    requires NoRepeats(Mapped(xs, id)) && (forall x :: key(ref(x)) == id(x))
        && a < b < |Sort(Mapped(xs, ref), TextBefore(key))|
    ensures var s := Sort(Mapped(xs, ref), TextBefore(key)); Less(key(s[a]), key(s[b]))
  {
    hide Sort;
    assert Mapped(Mapped(xs, ref), key) == Mapped(xs, id);
    DistinctKeys(Mapped(xs, ref), key);
    TextSeparates(Mapped(xs, ref), key);
    SortAscends(Mapped(xs, ref), TextBefore(key));
  }

  lemma SortedByNumber<T(!new), R(!new)>(xs: seq<T>, ref: T -> R, id: T -> int, key: R -> int, a: nat, b: nat)
    requires NoRepeats(Mapped(xs, id)) && (forall x :: key(ref(x)) == id(x))
        && a < b < |Sort(Mapped(xs, ref), NumberBefore(key))|
    ensures var s := Sort(Mapped(xs, ref), NumberBefore(key)); key(s[a]) < key(s[b])
  {
    hide Sort;
    assert Mapped(Mapped(xs, ref), key) == Mapped(xs, id);
    DistinctKeys(Mapped(xs, ref), key);
    NumberSeparates(Mapped(xs, ref), key);
    SortAscends(Mapped(xs, ref), NumberBefore(key));
  }

  /** An accepted record lists every input item, each list in its order. */
  lemma RecordIsComplete(h: Host, i: Input)
    requires Build(h, i).Ok?
    ensures Complete(h, i, Build(h, i).value.material) && InOrder(Build(h, i).value.material)
  {
    hide References, Verified, AcceptedEvents, UniqueIds, Sort, Mapped;
    ReferencesGive(h, i);
    forall a | a in i.artifacts { SortedMembers(i.artifacts, RefOfArtifact, TextBefore(ArtifactRefKey),
        RefOfArtifact(a)); }
    forall e | e in i.events { EventsListed(h, i, RefOfEvent(e)); }
    forall a | a in i.approvals {
      SortedMembers(i.approvals, RefOfApproval(h), TextBefore(ApprovalRefKey), RefOfApproval(h)(a));
    }
    forall v | v in i.verifications { VerdictListed(h, i, v); }
    forall x | x in i.exceptions { ExceptionListed(h, i, x); }
    RecordInOrder(h, i);
  }

  lemma RecordInOrder(h: Host, i: Input)
    requires UniqueIds(i)
    ensures InOrder(RecordOf(h, i))
  {
    hide Sort, Mapped, NoRepeats;
    var r := RecordOf(h, i);
    forall a: nat, b: nat | a < b < |r.artifactRefs| ensures Less(r.artifactRefs[a].artifactId,
        r.artifactRefs[b].artifactId) {
      SortedByText(i.artifacts, RefOfArtifact, ArtifactId, ArtifactRefKey, a, b);
    }
    forall a: nat, b: nat | a < b < |r.eventRefs| ensures r.eventRefs[a].sequence < r.eventRefs[b].sequence {
      SortedByNumber(i.events, RefOfEvent, SequenceOf, EventRefKey, a, b);
    }
    forall a: nat, b: nat | a < b < |r.approvalRefs| ensures Less(r.approvalRefs[a].approvalId,
        r.approvalRefs[b].approvalId) {
      SortedByText(i.approvals, RefOfApproval(h), ApprovalId, ApprovalRefKey, a, b);
    }
    forall a: nat, b: nat | a < b < |r.verificationRefs|
      ensures Less(r.verificationRefs[a].verificationId, r.verificationRefs[b].verificationId)
    {
      SortedByText(i.verifications, RefOfVerification, VerificationId, VerificationRefKey, a, b);
    }
    forall a: nat, b: nat | a < b < |r.exceptionRefs|
      ensures Less(r.exceptionRefs[a].exceptionId, r.exceptionRefs[b].exceptionId)
    {
      SortedByText(i.exceptions, RefOfException, ExceptionId, ExceptionRefKey, a, b);
    }
  }
}
