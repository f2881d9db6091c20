/** An accepted input, of the shape the schemas ask for, whose run may not complete. */
module GateMismatch {
  import opened Outcomes
  import opened Utf16
  import opened Digests
  import opened RunEvents
  import opened RunLogs
  import opened EventShapes
  import opened Artifacts
  import opened Ordering
  import opened Evidence
  import opened EvidenceGate

  // ---------- the shape of inputs ----------

  predicate ShapedMaterial(s: Schema, m: Material)
  {
    && NoneEmpty([m.tenantId, m.runId, m.purposeCode, m.purposeRegistryVersion]) && s.time(m.createdAt)
    && s.definition(m.definition) && IsDigest(m.definitionDigest) && IsDigest(m.workOrderBindingDigest)
    && m.supports != [] && NoneEmpty(m.supports) && m.doesNotProve != [] && NoneEmpty(m.doesNotProve)
  }

  predicate ShapedArtifact(s: Schema, a: Artifact)
  {
    var m := a.material;
    && NoneEmpty([m.artifactId, m.tenantId, m.producingRunId, m.producingStepId, m.provenance.producingEventId])
    && IsDigest(a.artifactDigest) && IsDigest(m.contentDigest) && s.definition(m.provenance.definition)
    && IsDigest(m.provenance.definitionDigest) && IsDigest(m.provenance.workOrderBindingDigest)
  }

  predicate ShapedVerification(v: Verification)
  {
    var m := v.material;
    && NoneEmpty([m.verificationId, m.verifierId, m.verifierVersion, m.rubricVersion]) && IsDigest(v.verificationDigest)
    && IsDigest(m.registrationDigest) && IsDigest(m.artifactDigest) && IsDigest(m.rubricDigest)
  }

  /** The kept fields of an input without approvals and exceptions meet the schemas. */
  predicate ShapedInput(s: Schema, i: Input)
  {
    && ShapedMaterial(s, i.material) && AllShaped(s, i.events) && i.approvals == [] && i.exceptions == []
    && (forall a :: a in i.artifacts ==> ShapedArtifact(s, a)) && forall v :: v in i.verifications ==> ShapedVerification(v)
  }

  // ---------- the input ----------

  /**
   A verifier registered under one digest and reporting under another id, for a run, a host and a writer of events;
   the last three fields are the remaining fields of the evidence material, of an artifact and of a verification.
   */
  datatype Setting = Setting(
    host: Host, run: Run, writer: Writer, id: Text, registration: Text, evidence: Text, artifact: Text, verification: Text)

  ghost predicate Proper(s: Schema, c: Setting)
  {
    && ShapedRun(s, c.run) && Keeps(s, c.writer) && (forall m, n :: m != n ==> c.writer.eventId(m) != c.writer.eventId(n))
    && c.host.definitionDigest(c.run.definition) == c.run.definitionDigest
    && (forall m :: IsDigest(c.host.artifactDigest(m))) && (forall m :: IsDigest(c.host.verificationDigest(m)))
    && c.id != [] && IsDigest(c.registration) && c.id != c.registration
  }

  function Made(c: Setting): Artifact
  {
    var w, run := c.writer, c.run;
    var m := ArtifactMaterial(
      w.id, w.digest, 1, run.tenantId, run.runId, w.id,
      Provenance(run.definition, run.definitionDigest, run.workOrderBindingDigest, w.eventId(3)), c.artifact);
    Artifact(c.host.artifactDigest(m), m)
  }

  function Passed(c: Setting): Verification
  {
    var w := c.writer;
    var m := VerificationMaterial(w.id, c.id, w.id, c.registration, Deterministic, Made(c).artifactDigest, w.id, w.digest,
                                  Pass, c.verification);
    Verification(c.host.verificationDigest(m), m)
  }

  function Accepting(c: Setting): Payload { RunAccepted(c.run.workOrderId, c.run.workOrderBindingDigest, [c.registration]) }
  function Producing(c: Setting): Payload { ArtifactProduced(c.writer.id, c.writer.id, Made(c).artifactDigest) }
  function Recording(c: Setting): Payload
  {
    VerificationRecorded(c.writer.id, c.writer.id, c.id, Pass, Passed(c).verificationDigest)
  }

  function Said(c: Setting, n: nat): Payload
  {
    match n
    case 1 => Accepting(c)
    case 2 => ExecutionStarted(c.writer.id)
    case 3 => Producing(c)
    case 4 => VerificationStarted(c.writer.id)
    case _ => Recording(c)
  }

  function Written(c: Setting, n: nat): Event { EventFor(c.run, c.writer, n, Said(c, n)) }

  /** The only required verifier is named by its registration digest and passes under its other id. */
  function Log(c: Setting): seq<Event> { [Written(c, 1), Written(c, 2), Written(c, 3), Written(c, 4), Written(c, 5)] }

  function EvidenceOf(c: Setting): Input
  {
    var run, w := c.run, c.writer;
    Input(
      Material(run.tenantId, run.runId, run.definition, run.definitionDigest, run.workOrderBindingDigest,
               w.id, w.id, w.at, Low, [w.id], [w.id], c.evidence),
      [Made(c)], Log(c), [], [Passed(c)], [], [KeyOf(Passed(c))])
  }

  // ---------- it has the shape ----------

  lemma LogIsShaped(s: Schema, c: Setting)
    requires Proper(s, c)
    ensures AllShaped(s, Log(c))
  {
    forall n | 1 <= n <= 5 ensures WellShaped(s, Written(c, n)) {
      SaidIsShaped(s, c, n);
      WrittenIsShaped(s, c.run, c.writer, n, Said(c, n));
    }
    hide WellShaped, Written;
  }

  lemma SaidIsShaped(s: Schema, c: Setting, n: nat)
    requires Proper(s, c)
    ensures ShapedBody(s, Said(c, n))
  {
    assert c.run.workOrderId in [c.run.runId, c.run.tenantId, c.run.workOrderId, c.run.correlationId];
  }

  lemma EvidenceIsShaped(s: Schema, c: Setting)
    requires Proper(s, c)
    ensures ShapedInput(s, EvidenceOf(c))
  {
    hide IsDigest, Log, AllShaped;
    LogIsShaped(s, c);
    assert c.run.tenantId in [c.run.runId, c.run.tenantId, c.run.workOrderId, c.run.correlationId];
    assert c.run.runId in [c.run.runId, c.run.tenantId, c.run.workOrderId, c.run.correlationId];
  }

  // ---------- it replays ----------

  lemma NextStep(c: Setting, k: nat, q: Projection) returns (r: Projection)
    requires k < 5 && Replays(c.run, Log(c)[..k], q) && !Terminal(q.status)
    requires KindAllowed(c.run.definition.kind, Said(c, k + 1)) && Moves(q, Said(c, k + 1))
    ensures Replays(c.run, Log(c)[..k + 1], r) && r.status == Or(NextStatusFor(Said(c, k + 1)), q.status)
  {
    hide Rebuild, Terminal, KindAllowed, Moves, Refusal, After, NextStatusFor;
    var log := Log(c);
    ExactPosition(c.run, log[..k], q);
    assert log[k] == Written(c, k + 1) && log[..k + 1] == log[..k] + [log[k]];
    AdmittedStep(q, log[k]);
    r := After(q, log[k]);
    RebuildOne(q, log[k]);
    RebuildAppend(CreateRunProjection(c.run), log[..k], [log[k]]);
  }

  lemma AdmittedStep(p: Projection, e: Event)
    requires Bound(p, e) && e.sequence == p.lastSequence + 1 && !Terminal(p.status) && !e.body.RunCompleted?
    requires KindAllowed(p.run.definition.kind, e.body) && Moves(p, e.body)
    ensures Refusal(p, e).None? && After(p, e).status == Or(NextStatusFor(e.body), p.status)
  {
    hide Terminal, KindAllowed, Moves, NextStatusFor, RunEvents.Distinct;
  }

  lemma LogReplays(c: Setting) returns (p: Projection)
    ensures Replays(c.run, Log(c), p)
  {
    hide Rebuild, Log, Made, Passed;
    p := CreateRunProjection(c.run);
    NothingReplayed(c);
    AllAllowed(c);
    p := NextStep(c, 0, p);
    p := NextStep(c, 1, p);
    p := NextStep(c, 2, p);
    p := NextStep(c, 3, p);
    p := NextStep(c, 4, p);
    FiveEvents(c);
  }

  lemma NothingReplayed(c: Setting)
    ensures Replays(c.run, Log(c)[..0], CreateRunProjection(c.run))
  {
    hide Written;
    assert Log(c)[..0] == [];
  }

  lemma FiveEvents(c: Setting)
    ensures Log(c)[..5] == Log(c)
  {
    hide Written;
  }

  lemma AllAllowed(c: Setting)
    ensures forall n :: 1 <= n <= 5 ==> KindAllowed(c.run.definition.kind, Said(c, n))
  {
    hide Made, Passed;
  }

  // ---------- it is accepted ----------

  lemma EventsHold(s: Schema, c: Setting)
    requires Proper(s, c)
    ensures forall e :: e in Log(c) ==> EventHolds(c.host, EvidenceOf(c).material, e)
  {
    hide Made, Passed;
  }

  lemma ArtifactIsProduced(s: Schema, c: Setting)
    requires Proper(s, c)
    ensures ArtifactHolds(c.host, EvidenceOf(c).material, Log(c), Made(c))
  {
    assert Log(c)[2] == Written(c, 3) && Written(c, 3) in Log(c);
    hide Log;
    assert Produces(Written(c, 3), Made(c));
  }

  lemma VerificationIsRecorded(s: Schema, c: Setting)
    requires Proper(s, c)
    ensures VerificationHolds(c.host, EvidenceOf(c), Passed(c))
  {
    assert Log(c)[4] == Written(c, 5) && Written(c, 5) in Log(c);
    hide Log;
    assert FindArtifact([Made(c)], Made(c).artifactDigest) == Some(Made(c));
    assert Records(Written(c, 5), Passed(c), c.writer.id);
  }

  lemma IdsAreUnique(s: Schema, c: Setting)
    requires Proper(s, c)
    ensures UniqueIds(EvidenceOf(c)) && NoRepeats(EvidenceOf(c).references)
    ensures UsedKeys(EvidenceOf(c)) == (set r | r in EvidenceOf(c).references)
  {
    hide Mapped;
    var log, i := Log(c), EvidenceOf(c);
    assert forall k :: 0 <= k < |log| ==> log[k].eventId == c.writer.eventId(k + 1) && log[k].sequence == k + 1;
    assert forall a, b :: 0 <= a < b < |log| ==> log[a].eventId != log[b].eventId;
    hide Log, Made, Passed;
    assert i.verifications[0] in i.verifications && UsedKeys(i) == {KeyOf(Passed(c))};
  }

  lemma OneAcceptance(c: Setting)
    ensures AcceptedEvents(Log(c)) == [Written(c, 1)]
  {
    hide AcceptedEvents;
    var log := Log(c);
    assert forall k :: 1 <= k < |log| ==> !log[k].body.RunAccepted?;
    NoneAccepted(log[1..]);
    AcceptedCons(log[0], log[1..]);
    assert [log[0]] + log[1..] == log && [log[0]] + [] == [log[0]];
  }

  lemma AcceptedCons(e: Event, rest: seq<Event>)
    requires e.body.RunAccepted?
    ensures AcceptedEvents([e] + rest) == [e] + AcceptedEvents(rest)
  {
    assert ([e] + rest)[1..] == rest;
  }

  lemma {:induction false} NoneAccepted(events: seq<Event>)
    requires forall n :: 0 <= n < |events| ==> !events[n].body.RunAccepted?
    ensures AcceptedEvents(events) == []
  {
    if events != [] { NoneAccepted(events[1..]); }
  }

  lemma PassesUnderDigest(c: Setting)
    ensures Satisfied(EvidenceOf(c), c.registration)
  {
    var i := EvidenceOf(c);
    hide Log, Made;
    assert i.verifications[0] in i.verifications;
  }

  lemma EvidenceRefers(s: Schema, c: Setting)
    requires Proper(s, c)
    ensures References(c.host, EvidenceOf(c))
  {
    hide EventHolds, ArtifactHolds, VerificationHolds, ApprovalHolds, ExceptionHolds, UniqueIds, UsedKeys, AcceptedEvents,
         NoRepeats, Made, Passed, Log, Proper, Written;
    EventsHold(s, c);
    ArtifactIsProduced(s, c);
    VerificationIsRecorded(s, c);
    IdsAreUnique(s, c);
    OneAcceptance(c);
    FirstWritten(s, c);
  }

  lemma EvidenceIsAccepted(s: Schema, c: Setting)
    requires Proper(s, c)
    ensures Build(c.host, EvidenceOf(c)).Ok?
  {
    hide References, AcceptedEvents, Satisfied, Made, Passed, Log, Proper, Written, RecordOf;
    EvidenceRefers(s, c);
    OneAcceptance(c);
    PassesUnderDigest(c);
    FirstWritten(s, c);
  }

  lemma FirstWritten(s: Schema, c: Setting)
    requires Proper(s, c)
    ensures Log(c) != [] && Written(c, 1).body == Accepting(c)
    ensures c.host.definitionDigest(c.run.definition) == c.run.definitionDigest
  {
  }

  // ---------- and the run may not complete ----------

  lemma NothingClears(c: Setting)
    requires c.id != c.registration
    ensures forall e :: e in Log(c) ==> !Clears(e.body, c.registration)
  {
    hide Made, Passed;
  }

  /** For every host, run and writer the gates differ: accepted evidence leaves a required verifier uncleared. */
  lemma GatesCanDiffer(s: Schema, c: Setting) returns (i: Input, p: Projection)
    requires Proper(s, c)
    ensures ShapedInput(s, i) && Build(c.host, i).Ok?
    ensures Replays(c.run, i.events, p) && !VerifiersSatisfied(p)
  {
    hide Build, Rebuild, ShapedInput;
    i := EvidenceOf(c);
    EvidenceIsShaped(s, c);
    EvidenceIsAccepted(s, c);
    p := LogReplays(c);
    GatesAgreeExactly(c.host, i, c.run, i.events, p);
    NothingClears(c);
    assert i.events[0] == Written(c, 1) && c.registration in Said(c, 1).requiredVerifierIds;
  }
}
