/** What the event schema asks of the fields that the model keeps, and a writer of events that meet it. */
module EventShapes {
  import opened Outcomes
  import opened Utf16
  import opened Digests
  import opened RunEvents

  /** The formats that the model leaves open: dates, data classes, error codes, definitions, and the remaining fields. */
  datatype Schema = Schema(
    time: Text -> bool, dataClass: Text -> bool, failure: Text -> bool, definition: Definition -> bool,
    rest: (Payload, Text) -> bool)

  predicate NoneEmpty(texts: seq<Text>) { forall t :: t in texts ==> t != [] }

  predicate ShapedGrant(s: Schema, g: ExceptionGrant)
  {
    && NoneEmpty([g.exceptionId, g.verifierId, g.rubricVersion, g.reviewerRole, g.reason])
    && IsDigest(g.exceptionDigest) && IsDigest(g.registrationDigest) && IsDigest(g.artifactDigest) && IsDigest(g.rubricDigest)
    && s.time(g.expiresAt) && g.controls != [] && NoneEmpty(g.controls)
  }

  predicate ShapedBody(s: Schema, body: Payload)
  {
    match body
    case RunAccepted(order, binding, required) => order != [] && IsDigest(binding) && NoneEmpty(required)
    case PlanningStarted(step) => step != []
    case ExecutionStarted(step) => step != []
    case InputRequested(step, request) => step != [] && request != []
    case InputSubmitted(step, request) => step != [] && request != []
    case ApprovalRequested(step, decision) => step != [] && decision != []
    case ApprovalRecorded(step, decision, approval, _) => step != [] && decision != [] && approval != []
    case ApprovalRejected(step, decision, _) => step != [] && decision != []
    case EffectPrepared(effect) => effect != []
    case EffectDispatched(effect) => effect != []
    case EffectAcknowledged(effect) => effect != []
    case EffectUncertain(effect) => effect != []
    case EffectNeedsReconciliation(effect) => effect != []
    case EffectReconciliationRecorded(effect) => effect != []
    case EffectAbandoned(effect) => effect != []
    case ArtifactProduced(step, artifact, digest) => step != [] && artifact != [] && IsDigest(digest)
    case VerificationStarted(step) => step != []
    case VerificationRecorded(step, verification, verifier, _, digest) =>
      step != [] && verification != [] && verifier != [] && IsDigest(digest)
    case VerificationExceptionRecorded(step, grant) => step != [] && ShapedGrant(s, grant)
    case RunSuspended(step, _, effect) => step != [] && effect != Some([])
    case RunCompleted(step) => step != []
    case RunFailed(code) => s.failure(code)
    case _ => true
  }

  /** `RunEventSchema` accepts the event. */
  predicate WellShaped(s: Schema, e: Event)
  {
    && NoneEmpty([e.eventId, e.runId, e.tenantId, e.correlationId]) && e.sequence >= 1
    && s.time(e.occurredAt) && s.dataClass(e.dataClass) && s.definition(e.definition) && IsDigest(e.definitionDigest)
    && (e.prevHash.Some? ==> IsDigest(e.prevHash.value))
    && ShapedBody(s, e.body) && s.rest(e.body, e.rest)
  }

  predicate AllShaped(s: Schema, log: seq<Event>) { forall e :: e in log ==> WellShaped(s, e) }

  predicate ShapedRun(s: Schema, run: Run)
  {
    && NoneEmpty([run.runId, run.tenantId, run.workOrderId, run.correlationId]) && s.dataClass(run.dataClass)
    && s.definition(run.definition) && IsDigest(run.definitionDigest) && IsDigest(run.workOrderBindingDigest)
  }

  /** What a writer of events fills in: event ids by sequence number, a time, an identifier, a digest, the other fields. */
  datatype Writer = Writer(eventId: nat -> Text, at: Text, id: Text, digest: Text, rest: Payload -> Text)

  /** The writer keeps to the schema. */
  ghost predicate Keeps(s: Schema, w: Writer)
  {
    && (forall n :: w.eventId(n) != []) && s.time(w.at) && w.id != [] && IsDigest(w.digest)
    && forall body :: s.rest(body, w.rest(body))
  }

  function EventFor(run: Run, w: Writer, sequence: nat, body: Payload): Event
  {
    Event(w.eventId(sequence), run.runId, run.tenantId, sequence, w.at, run.correlationId, run.dataClass, run.definition,
          run.definitionDigest, None, body, w.rest(body))
  }

  lemma WrittenIsShaped(s: Schema, run: Run, w: Writer, sequence: nat, body: Payload)
    requires ShapedRun(s, run) && Keeps(s, w) && sequence >= 1 && ShapedBody(s, body)
    ensures WellShaped(s, EventFor(run, w, sequence, body))
  {
    hide ShapedBody, IsDigest;
    var e := EventFor(run, w, sequence, body);
    assert run.runId in [run.runId, run.tenantId, run.workOrderId, run.correlationId];
    assert run.tenantId in [run.runId, run.tenantId, run.workOrderId, run.correlationId];
    assert run.correlationId in [run.runId, run.tenantId, run.workOrderId, run.correlationId];
  }

  /** What the schema refuses in any event: an empty id, a sequence number of zero, or a malformed digest or date. */
  lemma MalformedIsRefused(s: Schema, e: Event)
    requires e.eventId == [] || e.runId == [] || e.tenantId == [] || e.correlationId == [] || e.sequence == 0
             || !s.time(e.occurredAt) || |e.definitionDigest| != 71 || (e.prevHash.Some? && |e.prevHash.value| != 71)
    ensures !WellShaped(s, e)
  {
    hide ShapedBody;
    var ids := [e.eventId, e.runId, e.tenantId, e.correlationId];
    assert ids[0] in ids && ids[1] in ids && ids[2] in ids && ids[3] in ids;
    assert NoneEmpty(ids) ==> ids[0] != [] && ids[1] != [] && ids[2] != [] && ids[3] != [];
  }
}
