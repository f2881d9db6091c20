/** Which events a run accepts, kind by kind, and what comes back from suspensions and waits. */
module RunAcceptance {
  import opened Outcomes
  import opened Utf16
  import opened RunEvents

  /** The next event of the run, bound to it. */
  predicate NextEvent(p: Projection, e: Event)
  {
    && e.runId == p.run.runId && e.tenantId == p.run.tenantId && e.definition == p.run.definition
    && e.definitionDigest == p.run.definitionDigest && e.sequence == p.lastSequence + 1
  }

  predicate Open(s: Status) { s != Completed && s != Failed && s != Cancelled }

  /** Planning may begin. */
  predicate MayPlan(p: Projection)
  {
    p.run.definition.kind == Agent
    && p.status in {Accepted, Running, WaitingForInput, WaitingForApproval, Suspended, Verifying}
  }

  predicate MayRun(s: Status) { s in {Accepted, Planning, WaitingForApproval, Suspended} }

  predicate IsCleared(p: Projection, id: Text) { id in p.passedVerifierIds || id in p.exceptedVerifierIds }

  /** What a run accepts, by the kind of event. */
  predicate Accepts(p: Projection, body: Payload)
  {
    match body
    case RunAccepted(_, _, _) => p.status == Created
    case PlanningStarted(_) => MayPlan(p)
    case ModelCallStarted => p.run.definition.kind == Agent && p.status == Planning
    case ModelCallCompleted => p.run.definition.kind == Agent && p.status == Planning
    case ExecutionStarted(_) => MayRun(p.status)
    case ToolCallRequested => p.status == Running
    case ToolCallCompleted => p.status == Running
    case RetryScheduled => p.status in {Planning, Running}
    case RetryResumed => p.status in {Planning, Running}
    case InputRequested(_, _) => p.run.definition.kind == Agent && p.status in {Planning, Running, Verifying}
    case InputSubmitted(_, _) => MayPlan(p)
    case ApprovalRequested(_, _) => p.status in {Accepted, Planning, Running, Verifying}
    case ApprovalRecorded(_, _, _, target) =>
      (match target case ApprovedToPlanning => MayPlan(p) case ApprovedToRunning => MayRun(p.status))
    case ApprovalRejected(_, _, target) =>
      (match target
       case RejectedToPlanning => MayPlan(p)
       case RejectedToFailed => Open(p.status)
       case RejectedToCancelled => Open(p.status) && p.status != Created)
    case EffectPrepared(_) => p.status == Running
    case EffectDispatched(_) => p.status == Running
    case EffectAcknowledged(_) => p.status in {Running, Suspended}
    case EffectUncertain(_) => p.status == Running
    case EffectNeedsReconciliation(_) => p.status == Suspended
    case EffectReconciliationRecorded(_) => p.status == Suspended
    case EffectAbandoned(_) => false
    case CompensationRequested => p.run.definition.kind == Compensation && p.status == Running
    case EffectCompensated => p.status == Running
    case ArtifactProduced(_, _, _) => p.status == Running
    case VerificationStarted(_) => p.status in {Running, Suspended}
    case VerificationRecorded(_, _, _, _, _) => p.status == Verifying
    case VerificationExceptionRecorded(_, _) => p.status == Verifying
    case RunSuspended(_, _, _) => p.status in {Planning, Running, Verifying}
    case RunCompleted(_) => p.status == Verifying && forall id :: id in p.requiredVerifierIds ==> IsCleared(p, id)
    case RunFailed(_) => Open(p.status)
    case RunCancelled => Open(p.status) && p.status != Created
  }

  /** The reducer accepts exactly the next event of the run, of a kind that its status and its kind of run allow. */
  lemma AcceptedExactly(p: Projection, e: Event)
    ensures Reduced(p, e).Ok? <==> NextEvent(p, e) && Accepts(p, e.body)
  {
    hide Distinct, After, Accepts, KindAllowed, Moves, VerifiersSatisfied;
    AdmitsExactly(p, e.body);
    OnlyWhileOpen(p, e.body);
  }

  predicate Admits(p: Projection, body: Payload)
  {
    KindAllowed(p.run.definition.kind, body) && Moves(p, body) && (body.RunCompleted? ==> VerifiersSatisfied(p))
  }

  /** Only agent runs plan, and no open run enters a status that the table of its own status leaves out. */
  lemma AdmitsExactly(p: Projection, body: Payload)
    ensures !Terminal(p.status) ==> (Admits(p, body) <==> Accepts(p, body))
  {
    if NextStatusFor(body).Some? { AdmitsMoves(p, body); } else { AdmitsWork(p, body); }
  }

  lemma AdmitsMoves(p: Projection, body: Payload)
    requires NextStatusFor(body).Some?
    ensures !Terminal(p.status) ==> (Admits(p, body) <==> Accepts(p, body))
  {
    hide StatePreserving;
  }

  lemma AdmitsWork(p: Projection, body: Payload)
    requires NextStatusFor(body).None?
    ensures !Terminal(p.status) ==> (Admits(p, body) <==> Accepts(p, body))
  {
    hide Transitions;
  }

  lemma OnlyWhileOpen(p: Projection, body: Payload)
    ensures Accepts(p, body) ==> !Terminal(p.status)
  {
  }

  /** Why an event is refused: the run has ended, the event is another run's, out of turn, unproved, or not admitted. */
  lemma RefusedExactly(p: Projection, e: Event)
    ensures
      var bound := e.runId == p.run.runId && e.tenantId == p.run.tenantId && e.definition == p.run.definition
                   && e.definitionDigest == p.run.definitionDigest;
      var unproved := e.body.RunCompleted? && p.status == Verifying;
      var r := Reduced(p, e);
      if !Open(p.status) then r == Err(RunTerminal)
      else if !bound then r == Err(EventBinding)
      else if e.sequence != p.lastSequence + 1 then r == Err(EventSequence)
      else if Accepts(p, e.body) then r.Ok?
      else r == Err(if unproved then VerificationRequired else InvalidTransition)
  {
    hide Distinct, After, Accepts, Moves, KindAllowed, VerifiersSatisfied;
    AcceptedExactly(p, e);
    CompletionAdmitted(p, e.body);
  }

  lemma CompletionAdmitted(p: Projection, body: Payload)
    ensures body.RunCompleted? ==> KindAllowed(p.run.definition.kind, body) && (Moves(p, body) <==> p.status == Verifying)
  {
  }

  lemma Taken(p: Projection, e: Event)
    requires NextEvent(p, e) && Accepts(p, e.body)
    ensures Reduced(p, e) == Ok(After(p, e))
  {
    hide Distinct, After, Accepts, Refusal, NextEvent;
    AcceptedExactly(p, e);
  }

  // ---------- suspending and waiting ----------

  /** The working status that a suspension comes back to. */
  function Working(t: ResumeTarget): Status
  {
    match t case ResumePlanning => Planning case ResumeRunning => Running case ResumeVerifying => Verifying
  }

  /** The event that starts the work of a status again. */
  function Starting(t: ResumeTarget, stepId: Text): Payload
  {
    match t
    case ResumePlanning => PlanningStarted(stepId)
    case ResumeRunning => ExecutionStarted(stepId)
    case ResumeVerifying => VerificationStarted(stepId)
  }

  /** Everything that neither suspending, resuming, asking nor answering may change. */
  predicate SameWork(p: Projection, q: Projection)
  {
    && q.run == p.run && q.artifactIds == p.artifactIds && q.verificationIds == p.verificationIds
    && q.requiredVerifierIds == p.requiredVerifierIds && q.passedVerifierIds == p.passedVerifierIds
    && q.exceptedVerifierIds == p.exceptedVerifierIds && q.terminalErrorCode == p.terminalErrorCode
  }

  /** A working run is parked with its target and effect. */
  lemma Suspends(p: Projection, t: ResumeTarget, e: Event)
    requires p.status == Working(t)
    requires NextEvent(p, e) && e.body.RunSuspended? && e.body.resumeTarget == t
    ensures
      var s := Reduced(p, e);
      && s.Ok? && s.value.status == Suspended && s.value.resumeTarget == Some(t)
      && s.value.activeEffectId == e.body.suspendedEffect && s.value.currentStepId == Some(e.body.stepId)
      && SameWork(p, s.value)
      && s.value.waitingRequestId == p.waitingRequestId && s.value.waitingDecisionId == p.waitingDecisionId
  {
    hide Distinct, Refusal, NextEvent, Reduced;
    Taken(p, e);
  }

  /** A suspended run starts any work that its kind of run does. */
  lemma Resumes(p: Projection, t: ResumeTarget, step: Text, e: Event)
    requires p.status == Suspended && (p.run.definition.kind == Compensation ==> t != ResumePlanning)
    requires NextEvent(p, e) && e.body == Starting(t, step)
    ensures
      var q := Reduced(p, e);
      && q.Ok? && q.value.status == Working(t) && q.value.resumeTarget == None
      && q.value.activeEffectId == p.activeEffectId && q.value.currentStepId == Some(step)
      && SameWork(p, q.value)
      && q.value.waitingRequestId == p.waitingRequestId && q.value.waitingDecisionId == p.waitingDecisionId
  {
    hide Distinct, Refusal, NextEvent, Reduced;
    Taken(p, e);
  }

  /** Suspending and then starting the work of the target comes back to the status that was left. */
  lemma SuspendAndResume(p: Projection, t: ResumeTarget, step: Text, e: Event, f: Event)
    requires p.status == Working(t) && (p.run.definition.kind == Compensation ==> t != ResumePlanning)
    requires NextEvent(p, e) && e.body.RunSuspended? && e.body.resumeTarget == t
    requires f.body == Starting(t, step)
    ensures Reduced(p, e).Ok?
    ensures
      NextEvent(Reduced(p, e).value, f) ==>
        var q := Reduced(Reduced(p, e).value, f);
        q.Ok? && q.value.status == p.status && q.value.resumeTarget == None && SameWork(p, q.value)
  {
    hide NextEvent, Reduced;
    Suspends(p, t, e);
    if NextEvent(Reduced(p, e).value, f) { Resumes(Reduced(p, e).value, t, step, f); }
  }

  /** An agent asks while it plans, runs or verifies, and goes back to planning with the answer. */
  lemma AskAndAnswer(p: Projection, e: Event, f: Event)
    requires p.run.definition.kind == Agent && p.status in {Planning, Running, Verifying}
    requires NextEvent(p, e) && e.body.InputRequested?
    ensures
      var s := Reduced(p, e);
      && s.Ok? && s.value.status == WaitingForInput && s.value.waitingRequestId == Some(e.body.requestId)
      && s.value.currentStepId == Some(e.body.stepId) && SameWork(p, s.value)
      && s.value.resumeTarget == p.resumeTarget && s.value.activeEffectId == p.activeEffectId
      && s.value.waitingDecisionId == p.waitingDecisionId
    ensures
      var s := Reduced(p, e);
      NextEvent(s.value, f) && f.body.InputSubmitted? ==>
        var q := Reduced(s.value, f);
        && q.Ok? && q.value.status == Planning && q.value.waitingRequestId == None
        && q.value.currentStepId == Some(f.body.stepId) && SameWork(p, q.value)
        && q.value.resumeTarget == p.resumeTarget && q.value.activeEffectId == p.activeEffectId
        && q.value.waitingDecisionId == p.waitingDecisionId
  {
    hide Distinct, Refusal, NextEvent, Reduced;
    Taken(p, e);
    if NextEvent(After(p, e), f) && Accepts(After(p, e), f.body) { Taken(After(p, e), f); }
  }

  /** Where a decision sends the run. */
  function DecidedStatus(body: Payload): Status
    requires body.ApprovalRecorded? || body.ApprovalRejected?
  {
    match body
    case ApprovalRecorded(_, _, _, ApprovedToPlanning) => Planning
    case ApprovalRecorded(_, _, _, ApprovedToRunning) => Running
    case ApprovalRejected(_, _, RejectedToPlanning) => Planning
    case ApprovalRejected(_, _, RejectedToFailed) => Failed
    case ApprovalRejected(_, _, RejectedToCancelled) => Cancelled
  }

  /** A run asks for a decision from every status that works, and before any work. */
  lemma AsksForDecision(p: Projection, e: Event)
    requires p.status in {Accepted, Planning, Running, Verifying}
    requires NextEvent(p, e) && e.body.ApprovalRequested?
    ensures
      var s := Reduced(p, e);
      && s.Ok? && s.value.status == WaitingForApproval && s.value.waitingDecisionId == Some(e.body.decisionId)
      && s.value.currentStepId == Some(e.body.stepId) && SameWork(p, s.value)
      && s.value.resumeTarget == p.resumeTarget && s.value.activeEffectId == p.activeEffectId
      && s.value.waitingRequestId == p.waitingRequestId
  {
    hide Distinct, Refusal, NextEvent, Reduced;
    Taken(p, e);
  }

  /** A decision sends the waiting run where it says; only a compensation run cannot be sent back to plan. */
  lemma Decides(p: Projection, e: Event)
    requires p.status == WaitingForApproval && NextEvent(p, e)
    requires e.body.ApprovalRecorded? || e.body.ApprovalRejected?
    ensures Reduced(p, e).Ok? <==> DecidedStatus(e.body) != Planning || p.run.definition.kind == Agent
    ensures
      Reduced(p, e).Ok? ==>
        var q := Reduced(p, e).value;
        && q.status == DecidedStatus(e.body) && q.waitingDecisionId == None
        && q.currentStepId == Some(e.body.stepId) && SameWork(p, q)
        && q.resumeTarget == p.resumeTarget && q.activeEffectId == p.activeEffectId
        && q.waitingRequestId == p.waitingRequestId
  {
    hide Distinct, Refusal;
    AcceptedExactly(p, e);
  }
}
