/** Evidence records: what the builder requires of its inputs and what it makes of them, free of input order. */
module Evidence {
  import opened Outcomes
  import opened Utf16
  import opened RunEvents
  import opened Artifacts
  import opened Ordering

  datatype Method = Deterministic | Model | Human

  datatype Risk = Low | Medium | High | Critical

  /** In every record, `rest` stands for the fields that no modelled code reads. */
  datatype Material = Material(
    tenantId: Text, runId: Text, definition: Definition, definitionDigest: Text, workOrderBindingDigest: Text,
    purposeCode: Text, purposeRegistryVersion: Text, createdAt: Text, risk: Risk, supports: seq<Text>,
    doesNotProve: seq<Text>, rest: Text)

  datatype Binding = Binding(
    tenantId: Text, runId: Text, purposeCode: Text, purposeRegistryVersion: Text, definition: Definition,
    definitionDigest: Text, workOrderBindingDigest: Text, stepId: Text, decisionId: Text, rest: Text)

  datatype Approval = Approval(id: Text, binding: Binding, createdAt: Text, expiresAt: Text, rest: Text)

  datatype VerificationMaterial = VerificationMaterial(
    verificationId: Text, verifierId: Text, verifierVersion: Text, registrationDigest: Text, method_: Method,
    artifactDigest: Text, rubricVersion: Text, rubricDigest: Text, status: Verdict, rest: Text)

  datatype Verification = Verification(verificationDigest: Text, material: VerificationMaterial)

  datatype ExceptionMaterial = ExceptionMaterial(
    exceptionId: Text, tenantId: Text, runId: Text, artifactDigest: Text, verifierId: Text, registrationDigest: Text,
    rubricVersion: Text, rubricDigest: Text, reviewerRole: Text, reason: Text, controls: seq<Text>, issuedAt: Text,
    expiresAt: Text, rest: Text)

  datatype VerificationException = VerificationException(exceptionDigest: Text, material: ExceptionMaterial)

  /** `VerifierReferenceIdentity`; its five fields are the key. */
  datatype Reference = Reference(id: Text, version: Text, registrationDigest: Text, rubricVersion: Text, rubricDigest: Text)

  datatype Input = Input(
    material: Material, artifacts: seq<Artifact>, events: seq<Event>, approvals: seq<Approval>,
    verifications: seq<Verification>, exceptions: seq<VerificationException>, references: seq<Reference>)

  datatype ArtifactRef = ArtifactRef(artifactId: Text, artifactDigest: Text)

  datatype EventRef = EventRef(eventId: Text, sequence: nat)

  datatype ApprovalRef = ApprovalRef(approvalId: Text, approvalDigest: Text)

  datatype VerificationRef = VerificationRef(
    verificationId: Text, verificationDigest: Text, status: Verdict, artifactDigest: Text, verifierId: Text,
    verifierVersion: Text, registrationDigest: Text, method_: Method, rubricVersion: Text, rubricDigest: Text)

  datatype ExceptionRef = ExceptionRef(
    exceptionId: Text, exceptionDigest: Text, verifierId: Text, registrationDigest: Text, artifactDigest: Text,
    rubricVersion: Text, rubricDigest: Text)

  datatype RecordMaterial = RecordMaterial(
    material: Material, artifactRefs: seq<ArtifactRef>, eventRefs: seq<EventRef>, approvalRefs: seq<ApprovalRef>,
    verificationRefs: seq<VerificationRef>, exceptionRefs: seq<ExceptionRef>)

  datatype EvidenceRecord = EvidenceRecord(material: RecordMaterial, evidenceDigest: Text)

  datatype Error = InvalidReference | VerificationMissing

  /** `digestCanonicalJson` on each kind of record, and `Date.parse`. */
  datatype Host = Host(
    definitionDigest: Definition -> Text, artifactDigest: ArtifactMaterial -> Text, bindingDigest: Binding -> Text,
    verificationDigest: VerificationMaterial -> Text, exceptionDigest: ExceptionMaterial -> Text,
    controlsDigest: seq<Text> -> Text, recordDigest: RecordMaterial -> Text, instant: Text -> int)

  // ---------- the checks on one item ----------

  function ArtifactId(a: Artifact): Text { a.material.artifactId }
  function ApprovalId(a: Approval): Text { a.id }
  function VerificationId(v: Verification): Text { v.material.verificationId }
  function ExceptionId(x: VerificationException): Text { x.material.exceptionId }
  function EventId(e: Event): Text { e.eventId }
  function SequenceOf(e: Event): int { e.sequence }

  predicate EventHolds(h: Host, m: Material, e: Event)
  {
    && e.tenantId == m.tenantId && e.runId == m.runId && e.definitionDigest == m.definitionDigest
    && h.definitionDigest(e.definition) == m.definitionDigest
    && (e.body.RunAccepted? ==> e.body.workOrderBindingDigest == m.workOrderBindingDigest)
  }

  predicate Produces(e: Event, a: Artifact)
  {
    && e.eventId == a.material.provenance.producingEventId
    && e.body == ArtifactProduced(a.material.producingStepId, a.material.artifactId, a.artifactDigest)
  }

  predicate ArtifactHolds(h: Host, m: Material, events: seq<Event>, a: Artifact)
  {
    && a.material.tenantId == m.tenantId && a.material.producingRunId == m.runId
    && a.artifactDigest == h.artifactDigest(a.material)
    && h.definitionDigest(a.material.provenance.definition) == m.definitionDigest
    && a.material.provenance.definitionDigest == m.definitionDigest
    && a.material.provenance.workOrderBindingDigest == m.workOrderBindingDigest
    && exists e :: e in events && Produces(e, a)
  }

  predicate Approves(e: Event, a: Approval)
  {
    e.body.ApprovalRecorded? && e.body.stepId == a.binding.stepId && e.body.approvalId == a.id
    && e.body.decisionId == a.binding.decisionId
  }

  predicate ApprovalHolds(h: Host, m: Material, events: seq<Event>, a: Approval)
  {
    && a.binding.tenantId == m.tenantId && a.binding.runId == m.runId
    && a.binding.purposeCode == m.purposeCode && a.binding.purposeRegistryVersion == m.purposeRegistryVersion
    && h.instant(a.createdAt) <= h.instant(m.createdAt) < h.instant(a.expiresAt)
    && h.definitionDigest(a.binding.definition) == m.definitionDigest
    && a.binding.definitionDigest == m.definitionDigest
    && a.binding.workOrderBindingDigest == m.workOrderBindingDigest
    && exists e :: e in events && Approves(e, a)
  }

  /** `artifacts.find` by digest: the first match. */
  function FindArtifact(artifacts: seq<Artifact>, digest: Text): (a: Option<Artifact>)
    ensures a.Some? ==> a.value in artifacts && a.value.artifactDigest == digest
    ensures a.None? ==> forall x :: x in artifacts ==> x.artifactDigest != digest
  {
    if artifacts == [] then None
    else if artifacts[0].artifactDigest == digest then Some(artifacts[0])
    else FindArtifact(artifacts[1..], digest)
  }

  function KeyOf(v: Verification): Reference
  {
    Reference(v.material.verifierId, v.material.verifierVersion, v.material.registrationDigest,
              v.material.rubricVersion, v.material.rubricDigest)
  }

  predicate Records(e: Event, v: Verification, stepId: Text)
  {
    e.body == VerificationRecorded(stepId, v.material.verificationId, v.material.verifierId, v.material.status, v.verificationDigest)
  }

  predicate VerificationHolds(h: Host, i: Input, v: Verification)
  {
    var found := FindArtifact(i.artifacts, v.material.artifactDigest);
    && found.Some? && v.verificationDigest == h.verificationDigest(v.material) && KeyOf(v) in i.references
    && exists e :: e in i.events && Records(e, v, found.value.material.producingStepId)
  }

  predicate Names(r: Reference, x: ExceptionMaterial)
  {
    r.id == x.verifierId && r.registrationDigest == x.registrationDigest
    && r.rubricVersion == x.rubricVersion && r.rubricDigest == x.rubricDigest
  }

  /** `verifierReferences.find`: the first reference that the exception names. */
  function FindReference(references: seq<Reference>, x: ExceptionMaterial): (r: Option<Reference>)
    ensures r.Some? ==> r.value in references && Names(r.value, x)
  {
    if references == [] then None
    else if Names(references[0], x) then Some(references[0])
    else FindReference(references[1..], x)
  }

  /** `text.includes(part)` */
  predicate Contains(text: Text, part: Text)
  {
    part <= text || (text != [] && Contains(text[1..], part))
  }

  /** The exception replaces a verification that was also made. */
  predicate Overrides(v: Verification, x: ExceptionMaterial)
  {
    v.material.artifactDigest == x.artifactDigest && v.material.verifierId == x.verifierId
    && v.material.registrationDigest == x.registrationDigest
  }

  predicate Grants(h: Host, e: Event, x: VerificationException, stepId: Text)
  {
    && e.body.VerificationExceptionRecorded? && e.body.stepId == stepId
    && var g, m := e.body.grant, x.material;
       && g.exceptionId == m.exceptionId && g.exceptionDigest == x.exceptionDigest && g.verifierId == m.verifierId
       && g.registrationDigest == m.registrationDigest && g.artifactDigest == m.artifactDigest
       && g.rubricVersion == m.rubricVersion && g.rubricDigest == m.rubricDigest && g.reviewerRole == m.reviewerRole
       && g.expiresAt == m.expiresAt && g.reason == m.reason && h.controlsDigest(g.controls) == h.controlsDigest(m.controls)
  }

  predicate Declared(m: Material, exceptionId: Text)
  {
    && (exists s :: s in m.supports && Contains(s, exceptionId))
    && exists s :: s in m.doesNotProve && Contains(s, exceptionId)
  }

  predicate ExceptionHolds(h: Host, i: Input, x: VerificationException)
  {
    var found := FindArtifact(i.artifacts, x.material.artifactDigest);
    && x.material.tenantId == i.material.tenantId && x.material.runId == i.material.runId
    && found.Some? && x.exceptionDigest == h.exceptionDigest(x.material)
    && h.instant(x.material.issuedAt) <= h.instant(i.material.createdAt) < h.instant(x.material.expiresAt)
    && (forall v :: v in i.verifications ==> !Overrides(v, x.material))
    && Declared(i.material, x.material.exceptionId)
    && FindReference(i.references, x.material).Some?
    && exists e :: e in i.events && Grants(h, e, x, found.value.material.producingStepId)
  }

  // ---------- the two gates ----------

  /** Every list has unique ids, and events also unique sequence numbers. */
  ghost predicate UniqueIds(i: Input)
  {
    && NoRepeats(Mapped(i.artifacts, ArtifactId)) && NoRepeats(Mapped(i.approvals, ApprovalId))
    && NoRepeats(Mapped(i.verifications, VerificationId)) && NoRepeats(Mapped(i.exceptions, ExceptionId))
    && NoRepeats(Mapped(i.events, EventId)) && NoRepeats(Mapped(i.events, SequenceOf))
  }

  /** The references that some verification or exception uses. */
  function UsedKeys(i: Input): set<Reference>
  {
    (set v | v in i.verifications :: KeyOf(v))
    + set x | x in i.exceptions && FindReference(i.references, x.material).Some? :: FindReference(i.references, x.material).value
  }

  function AcceptedEvents(events: seq<Event>): seq<Event>
  {
    if events == [] then [] else
      (if events[0].body.RunAccepted? then [events[0]] else []) + AcceptedEvents(events[1..])
  }

  /** All that makes the inputs refer to each other and to the run. */
  ghost predicate References(h: Host, i: Input)
  {
    && i.events != [] && UniqueIds(i) && NoRepeats(i.references)
    && h.definitionDigest(i.material.definition) == i.material.definitionDigest
    && (forall e :: e in i.events ==> EventHolds(h, i.material, e))
    && (forall a :: a in i.artifacts ==> ArtifactHolds(h, i.material, i.events, a))
    && (forall a :: a in i.approvals ==> ApprovalHolds(h, i.material, i.events, a))
    && (forall v :: v in i.verifications ==> VerificationHolds(h, i, v))
    && (forall x :: x in i.exceptions ==> ExceptionHolds(h, i, x))
    && UsedKeys(i) == (set r | r in i.references)
    && |AcceptedEvents(i.events)| == 1
  }

  predicate IsFor(verifierId: Text, registrationDigest: Text, required: Text)
  {
    verifierId == required || registrationDigest == required
  }

  predicate HasVerdict(i: Input, required: Text, verdict: Verdict)
  {
    exists v :: v in i.verifications && v.material.status == verdict
                && IsFor(v.material.verifierId, v.material.registrationDigest, required)
  }

  predicate Excepted(i: Input, required: Text)
  {
    exists x :: x in i.exceptions && IsFor(x.material.verifierId, x.material.registrationDigest, required)
  }

  predicate Satisfied(i: Input, required: Text)
  {
    !HasVerdict(i, required, Fail) && (HasVerdict(i, required, Pass) || Excepted(i, required))
  }

  predicate HighRisk(risk: Risk) { risk.High? || risk.Critical? }

  /** A pass by a deterministic or human method. */
  predicate StronglyVerified(i: Input)
  {
    exists v :: v in i.verifications && v.material.status == Pass && !v.material.method_.Model?
  }

  predicate Verified(i: Input, accepted: Event)
    requires accepted.body.RunAccepted?
  {
    && (forall id :: id in accepted.body.requiredVerifierIds ==> Satisfied(i, id))
    && (HighRisk(i.material.risk) ==> StronglyVerified(i))
  }

  // ---------- the record ----------

  function RefOfArtifact(a: Artifact): ArtifactRef { ArtifactRef(a.material.artifactId, a.artifactDigest) }
  function RefOfEvent(e: Event): EventRef { EventRef(e.eventId, e.sequence) }

  function RefOfVerification(v: Verification): VerificationRef
  {
    var m := v.material;
    VerificationRef(m.verificationId, v.verificationDigest, m.status, m.artifactDigest, m.verifierId, m.verifierVersion,
                    m.registrationDigest, m.method_, m.rubricVersion, m.rubricDigest)
  }

  function RefOfException(x: VerificationException): ExceptionRef
  {
    var m := x.material;
    ExceptionRef(m.exceptionId, x.exceptionDigest, m.verifierId, m.registrationDigest, m.artifactDigest,
                 m.rubricVersion, m.rubricDigest)
  }

  function RefOfApproval(h: Host): Approval -> ApprovalRef
  {
    (a: Approval) => ApprovalRef(a.id, h.bindingDigest(a.binding))
  }

  function ArtifactRefKey(r: ArtifactRef): Text { r.artifactId }
  function EventRefKey(r: EventRef): int { r.sequence }
  function ApprovalRefKey(r: ApprovalRef): Text { r.approvalId }
  function VerificationRefKey(r: VerificationRef): Text { r.verificationId }
  function ExceptionRefKey(r: ExceptionRef): Text { r.exceptionId }

  function RecordOf(h: Host, i: Input): RecordMaterial
  {
    RecordMaterial(
      i.material,
      Sort(Mapped(i.artifacts, RefOfArtifact), TextBefore(ArtifactRefKey)),
      Sort(Mapped(i.events, RefOfEvent), NumberBefore(EventRefKey)),
      Sort(Mapped(i.approvals, RefOfApproval(h)), TextBefore(ApprovalRefKey)),
      Sort(Mapped(i.verifications, RefOfVerification), TextBefore(VerificationRefKey)),
      Sort(Mapped(i.exceptions, RefOfException), TextBefore(ExceptionRefKey)))
  }

  lemma {:induction false} AcceptedAre(events: seq<Event>)
    ensures forall e :: e in AcceptedEvents(events) <==> e in events && e.body.RunAccepted?
  {
    if events != [] {
      AcceptedAre(events[1..]);
      assert events == [events[0]] + events[1..];
    }
  }

  /** What the builder answers: invalid references are reported before missing verification. */
  ghost function Build(h: Host, i: Input): Result<EvidenceRecord, Error>
  {
    if !References(h, i) then Err(InvalidReference) else
      AcceptedAre(i.events);
      var accepted := AcceptedEvents(i.events)[0];
      assert accepted in AcceptedEvents(i.events);
      if !Verified(i, accepted) then Err(VerificationMissing)
      else Ok(EvidenceRecord(RecordOf(h, i), h.recordDigest(RecordOf(h, i))))
  }

  /** `verifyEvidenceDigest` */
  predicate DigestHolds(h: Host, r: EvidenceRecord) { r.evidenceDigest == h.recordDigest(r.material) }
}
