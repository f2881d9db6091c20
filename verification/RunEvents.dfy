/** Runs, their events and the guarded reducer that folds a log into a projection. */
module RunEvents {
  import opened Outcomes
  import opened Utf16

  datatype Status =
    | Created | Accepted | Planning | Running | WaitingForInput | WaitingForApproval
    | Suspended | Verifying | Completed | Failed | Cancelled

  predicate Terminal(s: Status) { s == Completed || s == Failed || s == Cancelled }

  /** `RUN_TRANSITIONS` */
  function Transitions(s: Status): set<Status>
  {
    match s
    case Created => {Accepted, Failed}
    case Accepted => {Planning, Running, WaitingForApproval, Failed, Cancelled}
    case Planning => {Running, WaitingForInput, WaitingForApproval, Suspended, Failed, Cancelled}
    case Running => {Planning, WaitingForInput, WaitingForApproval, Verifying, Suspended, Failed, Cancelled}
    case WaitingForInput => {Planning, Failed, Cancelled}
    case WaitingForApproval => {Running, Planning, Failed, Cancelled}
    case Suspended => {Planning, Running, Verifying, Failed, Cancelled}
    case Verifying => {Completed, Planning, WaitingForInput, WaitingForApproval, Suspended, Failed, Cancelled}
    case Completed => {}
    case Failed => {}
    case Cancelled => {}
  }

  datatype Kind = Agent | Compensation

  /** A reference to an execution definition: its kind and its other fields in canonical form. */
  datatype Definition = Definition(kind: Kind, content: Text)

  datatype ResumeTarget = ResumePlanning | ResumeRunning | ResumeVerifying

  datatype ApprovalTarget = ApprovedToPlanning | ApprovedToRunning

  datatype RejectionTarget = RejectedToPlanning | RejectedToFailed | RejectedToCancelled

  datatype Verdict = Pass | Fail | NeedsReview

  datatype ExceptionGrant = ExceptionGrant(
    exceptionId: Text, exceptionDigest: Text, verifierId: Text, registrationDigest: Text, artifactDigest: Text,
    rubricVersion: Text, rubricDigest: Text, reviewerRole: Text, expiresAt: Text, reason: Text, controls: seq<Text>)

  /** The payloads, with the fields that the reducer, the replay and the evidence builder read. */
  datatype Payload =
    | RunAccepted(workOrderId: Text, workOrderBindingDigest: Text, requiredVerifierIds: seq<Text>)
    | PlanningStarted(stepId: Text)
    | ModelCallStarted
    | ModelCallCompleted
    | ExecutionStarted(stepId: Text)
    | ToolCallRequested
    | ToolCallCompleted
    | RetryScheduled
    | RetryResumed
    | InputRequested(stepId: Text, requestId: Text)
    | InputSubmitted(stepId: Text, requestId: Text)
    | ApprovalRequested(stepId: Text, decisionId: Text)
    | ApprovalRecorded(stepId: Text, decisionId: Text, approvalId: Text, approvedTo: ApprovalTarget)
    | ApprovalRejected(stepId: Text, decisionId: Text, rejectedTo: RejectionTarget)
    | EffectPrepared(effectId: Text)
    | EffectDispatched(effectId: Text)
    | EffectAcknowledged(effectId: Text)
    | EffectUncertain(effectId: Text)
    | EffectNeedsReconciliation(effectId: Text)
    | EffectReconciliationRecorded(effectId: Text)
    | EffectAbandoned(effectId: Text)
    | CompensationRequested
    | EffectCompensated
    | ArtifactProduced(stepId: Text, artifactId: Text, artifactDigest: Text)
    | VerificationStarted(stepId: Text)
    | VerificationRecorded(stepId: Text, verificationId: Text, verifierId: Text, verdict: Verdict, verificationDigest: Text)
    | VerificationExceptionRecorded(stepId: Text, grant: ExceptionGrant)
    | RunSuspended(stepId: Text, resumeTarget: ResumeTarget, suspendedEffect: Option<Text>)
    | RunCompleted(stepId: Text)
    | RunFailed(errorCode: Text)
    | RunCancelled

  /** `rest` stands for the payload fields that no modelled code reads. */
  datatype Event = Event(
    eventId: Text, runId: Text, tenantId: Text, sequence: nat, occurredAt: Text, correlationId: Text, dataClass: Text,
    definition: Definition, definitionDigest: Text, prevHash: Option<Text>, body: Payload, rest: Text)

  datatype Run = Run(
    runId: Text, tenantId: Text, workOrderId: Text, workOrderBindingDigest: Text, definition: Definition,
    definitionDigest: Text, dataClass: Text, correlationId: Text, createdAt: Text)

  datatype Projection = Projection(
    run: Run, status: Status, updatedAt: Text, lastSequence: nat, lastEventId: Option<Text>, currentStepId: Option<Text>,
    resumeTarget: Option<ResumeTarget>, waitingRequestId: Option<Text>, waitingDecisionId: Option<Text>,
    activeEffectId: Option<Text>, artifactIds: seq<Text>, verificationIds: seq<Text>, requiredVerifierIds: seq<Text>,
    passedVerifierIds: seq<Text>, exceptedVerifierIds: seq<Text>, terminalErrorCode: Option<Text>)

  datatype Error = RunTerminal | EventBinding | EventSequence | InvalidTransition | VerificationRequired

  /** `createRunProjection` of a run in status `created`. */
  function CreateRunProjection(run: Run): Projection
  {
    Projection(run, Created, run.createdAt, 0, None, None, None, None, None, None, [], [], [], [], [], None)
  }

  /** `STATE_PRESERVING_EVENTS` */
  predicate StatePreserving(s: Status, body: Payload)
  {
    match s
    case Planning =>
      body.ModelCallStarted? || body.ModelCallCompleted? || body.RetryScheduled? || body.RetryResumed?
    case Running =>
      || body.ToolCallRequested? || body.ToolCallCompleted? || body.RetryScheduled? || body.RetryResumed?
      || body.EffectPrepared? || body.EffectDispatched? || body.EffectAcknowledged? || body.EffectUncertain?
      || body.ArtifactProduced? || body.CompensationRequested? || body.EffectCompensated?
    case Suspended =>
      body.EffectNeedsReconciliation? || body.EffectReconciliationRecorded? || body.EffectAcknowledged?
    case Verifying => body.VerificationRecorded? || body.VerificationExceptionRecorded?
    case _ => false
  }

  /** `nextStatusFor` */
  function NextStatusFor(body: Payload): Option<Status>
  {
    match body
    case RunAccepted(_, _, _) => Some(Accepted)
    case PlanningStarted(_) => Some(Planning)
    case ExecutionStarted(_) => Some(Running)
    case InputRequested(_, _) => Some(WaitingForInput)
    case InputSubmitted(_, _) => Some(Planning)
    case ApprovalRequested(_, _) => Some(WaitingForApproval)
    case ApprovalRecorded(_, _, _, target) => Some(if target.ApprovedToPlanning? then Planning else Running)
    case ApprovalRejected(_, _, target) =>
      Some(match target case RejectedToPlanning => Planning case RejectedToFailed => Failed case RejectedToCancelled => Cancelled)
    case VerificationStarted(_) => Some(Verifying)
    case RunSuspended(_, _, _) => Some(Suspended)
    case RunCompleted(_) => Some(Completed)
    case RunFailed(_) => Some(Failed)
    case RunCancelled => Some(Cancelled)
    case _ => None
  }

  /** `assertKindAllowed` */
  predicate KindAllowed(kind: Kind, body: Payload)
  {
    && !(kind == Compensation
         && (body.PlanningStarted? || body.ModelCallStarted? || body.ModelCallCompleted?
             || body.InputRequested? || body.InputSubmitted? || NextStatusFor(body) == Some(Planning)))
    && !(body.CompensationRequested? && kind != Compensation)
  }

  predicate Bound(p: Projection, e: Event)
  {
    && e.runId == p.run.runId && e.tenantId == p.run.tenantId
    && e.definitionDigest == p.run.definitionDigest && e.definition == p.run.definition
  }

  /** The event moves along the transition table, or keeps a status that admits it. */
  predicate Moves(p: Projection, body: Payload)
  {
    match NextStatusFor(body)
    case None => StatePreserving(p.status, body)
    case Some(next) => next in Transitions(p.status)
  }

  predicate VerifiersSatisfied(p: Projection)
  {
    forall id :: id in p.requiredVerifierIds ==> id in p.passedVerifierIds || id in p.exceptedVerifierIds
  }

  /** The error that an event is refused with, in the order of the checks. */
  function Refusal(p: Projection, e: Event): Option<Error>
  {
    if Terminal(p.status) then Some(RunTerminal)
    else if !Bound(p, e) then Some(EventBinding)
    else if e.sequence != p.lastSequence + 1 then Some(EventSequence)
    else if !KindAllowed(p.run.definition.kind, e.body) || !Moves(p, e.body) then Some(InvalidTransition)
    else if e.body.RunCompleted? && !VerifiersSatisfied(p) then Some(VerificationRequired)
    else None
  }

  // ---------- what an event says about each field ----------

  function StepSaid(body: Payload): Option<Option<Text>>
  {
    match body
    case PlanningStarted(s) => Some(Some(s))
    case ExecutionStarted(s) => Some(Some(s))
    case InputRequested(s, _) => Some(Some(s))
    case InputSubmitted(s, _) => Some(Some(s))
    case ApprovalRequested(s, _) => Some(Some(s))
    case ApprovalRecorded(s, _, _, _) => Some(Some(s))
    case ApprovalRejected(s, _, _) => Some(Some(s))
    case VerificationStarted(s) => Some(Some(s))
    case RunSuspended(s, _, _) => Some(Some(s))
    case RunCompleted(s) => Some(Some(s))
    case _ => None
  }

  function ResumeSaid(body: Payload): Option<Option<ResumeTarget>>
  {
    match body
    case RunSuspended(_, t, _) => Some(Some(t))
    case PlanningStarted(_) => Some(None)
    case ExecutionStarted(_) => Some(None)
    case VerificationStarted(_) => Some(None)
    case _ => None
  }

  function RequestSaid(body: Payload): Option<Option<Text>>
  {
    match body
    case InputRequested(_, r) => Some(Some(r))
    case InputSubmitted(_, _) => Some(None)
    case _ => None
  }

  function DecisionSaid(body: Payload): Option<Option<Text>>
  {
    match body
    case ApprovalRequested(_, d) => Some(Some(d))
    case ApprovalRecorded(_, _, _, _) => Some(None)
    case ApprovalRejected(_, _, _) => Some(None)
    case _ => None
  }

  function EffectSaid(body: Payload): Option<Option<Text>>
  {
    match body
    case RunSuspended(_, _, e) => Some(e)
    case EffectPrepared(e) => Some(Some(e))
    case EffectAcknowledged(_) => Some(None)
    case EffectAbandoned(_) => Some(None)
    case _ => None
  }

  function FailureSaid(body: Payload): Option<Option<Text>>
  {
    match body case RunFailed(code) => Some(Some(code)) case _ => None
  }

  function ArtifactSaid(body: Payload): seq<Text> { if body.ArtifactProduced? then [body.artifactId] else [] }

  function VerificationSaid(body: Payload): seq<Text>
  {
    if body.VerificationRecorded? then [body.verificationId] else []
  }

  function PassSaid(body: Payload): seq<Text>
  {
    if body.VerificationRecorded? && body.verdict == Pass then [body.verifierId] else []
  }

  function ExceptionSaid(body: Payload): seq<Text>
  {
    if body.VerificationExceptionRecorded? then [body.grant.verifierId] else []
  }

  /** `[...new Set(s)]`: the first occurrence of each element, in order. */
  function Distinct(s: seq<Text>): (d: seq<Text>)
    ensures forall x :: x in d <==> x in s
  {
    if s == [] then [] else
      var d, x := Distinct(s[..|s| - 1]), s[|s| - 1];
      assert forall y :: y in s <==> y in s[..|s| - 1] || y == x;
      if x in d then d else d + [x]
  }

  function Or<T>(said: Option<T>, before: T): T { if said.Some? then said.value else before }

  /** The projection after an accepted event, field by field. */
  function After(p: Projection, e: Event): Projection
  {
    var b := e.body;
    Projection(
      p.run, Or(NextStatusFor(b), p.status), e.occurredAt, e.sequence, Some(e.eventId),
      Or(StepSaid(b), p.currentStepId), Or(ResumeSaid(b), p.resumeTarget),
      Or(RequestSaid(b), p.waitingRequestId), Or(DecisionSaid(b), p.waitingDecisionId),
      Or(EffectSaid(b), p.activeEffectId),
      p.artifactIds + ArtifactSaid(b), p.verificationIds + VerificationSaid(b),
      if b.RunAccepted? then b.requiredVerifierIds else p.requiredVerifierIds,
      if PassSaid(b) == [] then p.passedVerifierIds else Distinct(p.passedVerifierIds + PassSaid(b)),
      if ExceptionSaid(b) == [] then p.exceptedVerifierIds else Distinct(p.exceptedVerifierIds + ExceptionSaid(b)),
      Or(FailureSaid(b), p.terminalErrorCode))
  }

  function Reduced(p: Projection, e: Event): Result<Projection, Error>
  {
    match Refusal(p, e) case Some(error) => Err(error) case None => Ok(After(p, e))
  }

  /** `reduceRunEvent`: checks with early exits, then assignments to one fresh record. */
  method ReduceRunEvent(projection: Projection, event: Event) returns (r: Result<Projection, Error>)
    ensures r == Reduced(projection, event)
  {
    if Terminal(projection.status) { return Err(RunTerminal); }
    if event.runId != projection.run.runId || event.tenantId != projection.run.tenantId
       || event.definitionDigest != projection.run.definitionDigest || event.definition != projection.run.definition {
      return Err(EventBinding);
    }
    if event.sequence != projection.lastSequence + 1 { return Err(EventSequence); }
    var next := NextStatusFor(event.body);
    if !KindAllowed(projection.run.definition.kind, event.body) { return Err(InvalidTransition); }
    if next == None {
      if !StatePreserving(projection.status, event.body) { return Err(InvalidTransition); }
    } else if next.value !in Transitions(projection.status) {
      return Err(InvalidTransition);
    }
    if event.body.RunCompleted? {
      var satisfied := true;
      for i := 0 to |projection.requiredVerifierIds|
        invariant satisfied <==> forall j :: 0 <= j < i ==>
          var id := projection.requiredVerifierIds[j];
          id in projection.passedVerifierIds || id in projection.exceptedVerifierIds
      {
        var id := projection.requiredVerifierIds[i];
        if id !in projection.passedVerifierIds && id !in projection.exceptedVerifierIds { satisfied := false; }
      }
      if !satisfied { return Err(VerificationRequired); }
    }
    hide Distinct, Transitions, StatePreserving, KindAllowed, After;
    var base := Assign(projection, event);
    return Ok(base);
  }

  /** The first switch of `reduceRunEvent`: the events that name the current step. */
  method AssignStep(base: Projection, body: Payload) returns (r: Projection)
    ensures r == base.(currentStepId := Or(StepSaid(body), base.currentStepId))
  {
    match body {
      case PlanningStarted(s) => r := base.(currentStepId := Some(s));
      case ExecutionStarted(s) => r := base.(currentStepId := Some(s));
      case InputRequested(s, _) => r := base.(currentStepId := Some(s));
      case InputSubmitted(s, _) => r := base.(currentStepId := Some(s));
      case ApprovalRequested(s, _) => r := base.(currentStepId := Some(s));
      case ApprovalRecorded(s, _, _, _) => r := base.(currentStepId := Some(s));
      case ApprovalRejected(s, _, _) => r := base.(currentStepId := Some(s));
      case VerificationStarted(s) => r := base.(currentStepId := Some(s));
      case RunSuspended(s, _, _) => r := base.(currentStepId := Some(s));
      case RunCompleted(s) => r := base.(currentStepId := Some(s));
      case _ => r := base;
    }
  }

  /** The second half of `reduceRunEvent`: a fresh record, then the fields that the event speaks of. */
  method Assign(projection: Projection, event: Event) returns (base: Projection)
    ensures base == After(projection, event)
  {
    hide Distinct, StepSaid, NextStatusFor;
    var next := NextStatusFor(event.body);
    base := projection.(
      status := if next.Some? then next.value else projection.status,
      lastSequence := event.sequence, lastEventId := Some(event.eventId), updatedAt := event.occurredAt);
    base := AssignStep(base, event.body);
    match event.body {
      case RunAccepted(_, _, required) => base := base.(requiredVerifierIds := required);
      case InputRequested(_, request) => base := base.(waitingRequestId := Some(request));
      case InputSubmitted(_, _) => base := base.(waitingRequestId := None);
      case ApprovalRequested(_, decision) => base := base.(waitingDecisionId := Some(decision));
      case ApprovalRecorded(_, _, _, _) => base := base.(waitingDecisionId := None);
      case ApprovalRejected(_, _, _) => base := base.(waitingDecisionId := None);
      case RunSuspended(_, target, effect) => base := base.(resumeTarget := Some(target), activeEffectId := effect);
      case PlanningStarted(_) => base := base.(resumeTarget := None);
      case ExecutionStarted(_) => base := base.(resumeTarget := None);
      case VerificationStarted(_) => base := base.(resumeTarget := None);
      case EffectPrepared(effect) => base := base.(activeEffectId := Some(effect));
      case EffectAcknowledged(_) => base := base.(activeEffectId := None);
      case EffectAbandoned(_) => base := base.(activeEffectId := None);
      case ArtifactProduced(_, artifact, _) => base := base.(artifactIds := base.artifactIds + [artifact]);
      case VerificationRecorded(_, verification, verifier, verdict, _) =>
        base := base.(verificationIds := base.verificationIds + [verification]);
        if verdict == Pass {
          base := base.(passedVerifierIds := Distinct(base.passedVerifierIds + [verifier]));
        }
      case VerificationExceptionRecorded(_, grant) =>
        base := base.(exceptedVerifierIds := Distinct(base.exceptedVerifierIds + [grant.verifierId]));
      case RunFailed(code) => base := base.(terminalErrorCode := Some(code));
      case _ =>
    }
    assert projection.artifactIds + [] == projection.artifactIds;
    assert projection.verificationIds + [] == projection.verificationIds;
  }

  /** `rebuildRunProjection`: the left fold of the reducer, stopped by the first error. */
  function Rebuild(initial: Projection, log: seq<Event>): Result<Projection, Error>
  {
    if log == [] then Ok(initial) else
      match Rebuild(initial, log[..|log| - 1])
      case Err(error) => Err(error)
      case Ok(p) => Reduced(p, log[|log| - 1])
  }
}
