/** Which logs can be continued to completion, by events that the schema accepts. */
module RunProgress {
  import opened Outcomes
  import opened Utf16
  import opened RunEvents
  import opened RunLogs
  import opened EventShapes

  lemma TakeStep(s: Schema, w: Writer, p: Projection, body: Payload) returns (e: Event, q: Projection)
    requires ShapedRun(s, p.run) && Keeps(s, w) && ShapedBody(s, body)
    requires !Terminal(p.status) && KindAllowed(p.run.definition.kind, body) && Moves(p, body)
    requires body.RunCompleted? ==> VerifiersSatisfied(p)
    ensures Reduced(p, e) == Ok(q) && WellShaped(s, e) && e.body == body && q == After(p, e)
    ensures q.run == p.run && q.status == Or(NextStatusFor(body), p.status)
    ensures q.waitingDecisionId == Or(DecisionSaid(body), p.waitingDecisionId)
    ensures q.waitingRequestId == Or(RequestSaid(body), p.waitingRequestId)
    ensures q.requiredVerifierIds == if body.RunAccepted? then body.requiredVerifierIds else p.requiredVerifierIds
  {
    hide Terminal, KindAllowed, Moves, NextStatusFor, DecisionSaid, RequestSaid, Distinct, ShapedRun, ShapedBody, Keeps,
         WellShaped, VerifiersSatisfied;
    e := EventFor(p.run, w, p.lastSequence + 1, body);
    WrittenIsShaped(s, p.run, w, p.lastSequence + 1, body);
    q := After(p, e);
  }

  lemma RebuildTwo(p: Projection, e: Event, f: Event)
    requires Reduced(p, e).Ok?
    ensures Rebuild(p, [e, f]) == Reduced(Reduced(p, e).value, f)
  {
    hide Reduced;
    RebuildOne(p, e);
    RebuildOne(Reduced(p, e).value, f);
    RebuildAppend(p, [e], [f]);
    assert [e] + [f] == [e, f];
  }

  /** The body that a run is accepted with. */
  function Acceptance(run: Run): Payload { RunAccepted(run.workOrderId, run.workOrderBindingDigest, []) }

  /** A decision id is left behind: leaving by `ExecutionStarted` keeps the id of a decision nobody waits for. */
  lemma StaleDecision(s: Schema, w: Writer, run: Run, decisionId: Text) returns (log: seq<Event>, p: Projection)
    requires ShapedRun(s, run) && Keeps(s, w) && decisionId != []
    ensures Replays(run, log, p) && AllShaped(s, log)
    ensures p.status == Running && p.waitingDecisionId == Some(decisionId)
  {
    hide Reduced, Rebuild, After, ShapedRun, Keeps, WellShaped;
    var p0 := CreateRunProjection(run);
    WriterNames(s, w);
    ShapedAcceptance(s, run);
    var e1, p1 := TakeStep(s, w, p0, Acceptance(run));
    var e2, p2 := TakeStep(s, w, p1, ApprovalRequested(w.id, decisionId));
    var e3, p3 := TakeStep(s, w, p2, ExecutionStarted(w.id));
    RebuildOne(p0, e1);
    RebuildTwo(p1, e2, e3);
    RebuildAppend(p0, [e1], [e2, e3]);
    log, p := [e1] + [e2, e3], p3;
  }

  lemma WriterNames(s: Schema, w: Writer)
    requires Keeps(s, w)
    ensures w.id != []
  {
  }

  lemma ShapedAcceptance(s: Schema, run: Run)
    requires ShapedRun(s, run)
    ensures ShapedBody(s, Acceptance(run))
  {
    assert run.workOrderId in [run.runId, run.tenantId, run.workOrderId, run.correlationId];
  }

  /** The same of a request: leaving by `PlanningStarted` keeps the id of an input nobody waits for. */
  lemma StaleRequest(s: Schema, w: Writer, run: Run, requestId: Text) returns (log: seq<Event>, p: Projection)
    requires ShapedRun(s, run) && Keeps(s, w) && requestId != [] && run.definition.kind == Agent
    ensures Replays(run, log, p) && AllShaped(s, log)
    ensures p.status == Planning && p.waitingRequestId == Some(requestId)
  {
    hide Reduced, Rebuild, After, ShapedRun, Keeps, WellShaped;
    var p0 := CreateRunProjection(run);
    WriterNames(s, w);
    ShapedAcceptance(s, run);
    var e1, p1 := TakeStep(s, w, p0, Acceptance(run));
    var e2, p2 := TakeStep(s, w, p1, PlanningStarted(w.id));
    var e3, p3 := TakeStep(s, w, p2, InputRequested(w.id, requestId));
    var e4, p4 := TakeStep(s, w, p3, PlanningStarted(w.id));
    RebuildTwo(p0, e1, e2);
    RebuildTwo(p2, e3, e4);
    RebuildAppend(p0, [e1, e2], [e3, e4]);
    log, p := [e1, e2] + [e3, e4], p4;
  }

  ghost predicate Completes(p: Projection, more: seq<Event>)
  {
    more != [] && Rebuild(p, more).Ok? && Rebuild(p, more).value.status == Completed
  }

  /** The statuses a run is stuck in: a compensation run may not leave the wait for input. */
  predicate Stuck(p: Projection)
  {
    Terminal(p.status) || (p.run.definition.kind == Compensation && p.status == WaitingForInput)
  }

  /** A body that brings the run one status closer to verification. */
  function Towards(run: Run, s: Status, step: Text): Payload
  {
    match s
    case Created => Acceptance(run)
    case WaitingForInput => PlanningStarted(step)
    case Running => VerificationStarted(step)
    case Suspended => VerificationStarted(step)
    case _ => ExecutionStarted(step)
  }

  function Distance(s: Status): nat
  {
    match s
    case Verifying => 0
    case Running => 1
    case Suspended => 1
    case Accepted => 2
    case Planning => 2
    case WaitingForApproval => 2
    case _ => 3
  }

  lemma StepTowards(s: Schema, w: Writer, p: Projection) returns (e: Event)
    requires ShapedRun(s, p.run) && Keeps(s, w) && NoneEmpty(p.requiredVerifierIds)
    requires !Stuck(p) && p.status != Verifying
    ensures Reduced(p, e).Ok? && WellShaped(s, e)
    ensures var q := Reduced(p, e).value;
            !Stuck(q) && Distance(q.status) < Distance(p.status) && q.run == p.run && NoneEmpty(q.requiredVerifierIds)
  {
    hide Reduced, ShapedRun, Keeps, WellShaped;
    assert ShapedBody(s, Towards(p.run, p.status, w.id)) by { ShapedTowards(s, w, p); }
    assert Moves(p, Towards(p.run, p.status, w.id)) && KindAllowed(p.run.definition.kind, Towards(p.run, p.status, w.id));
    var q;
    e, q := TakeStep(s, w, p, Towards(p.run, p.status, w.id));
  }

  lemma ShapedTowards(s: Schema, w: Writer, p: Projection)
    requires ShapedRun(s, p.run) && Keeps(s, w)
    ensures ShapedBody(s, Towards(p.run, p.status, w.id))
  {
    ShapedAcceptance(s, p.run);
  }

  lemma {:induction false} ToVerifying(s: Schema, w: Writer, p: Projection) returns (more: seq<Event>)
    requires ShapedRun(s, p.run) && Keeps(s, w) && NoneEmpty(p.requiredVerifierIds) && !Stuck(p)
    ensures Rebuild(p, more).Ok? && AllShaped(s, more)
    ensures var q := Rebuild(p, more).value;
            q.status == Verifying && q.run == p.run && NoneEmpty(q.requiredVerifierIds)
    decreases Distance(p.status)
  {
    if p.status == Verifying {
      more := [];
    } else {
      hide Reduced, ShapedRun, Keeps, WellShaped;
      var e := StepTowards(s, w, p);
      var q := Reduced(p, e).value;
      var rest := ToVerifying(s, w, q);
      RebuildOne(p, e);
      RebuildAppend(p, [e], rest);
      more := [e] + rest;
    }
  }

  lemma PassOne(s: Schema, w: Writer, p: Projection, id: Text) returns (e: Event)
    requires ShapedRun(s, p.run) && Keeps(s, w) && id != [] && p.status == Verifying
    ensures Reduced(p, e).Ok? && WellShaped(s, e)
    ensures var q := Reduced(p, e).value;
            q.status == Verifying && q.run == p.run && q.requiredVerifierIds == p.requiredVerifierIds
            && (forall v :: v in q.passedVerifierIds <==> v in p.passedVerifierIds || v == id)
  {
    hide Reduced, After, Distinct, ShapedRun, ShapedBody, Keeps, WellShaped;
    var body := VerificationRecorded(w.id, w.id, id, Pass, w.digest);
    PassShaped(s, w, id);
    var q;
    e, q := TakeStep(s, w, p, body);
    ListsAfter(p, e);
    assert PassSaid(body) == [id];
  }

  lemma PassShaped(s: Schema, w: Writer, id: Text)
    requires Keeps(s, w) && id != []
    ensures ShapedBody(s, VerificationRecorded(w.id, w.id, id, Pass, w.digest)) && ShapedBody(s, RunCompleted(w.id))
  {
  }

  lemma {:induction false} PassAll(s: Schema, w: Writer, p: Projection, ids: seq<Text>) returns (more: seq<Event>)
    requires ShapedRun(s, p.run) && Keeps(s, w) && NoneEmpty(ids) && p.status == Verifying
    ensures Rebuild(p, more).Ok? && AllShaped(s, more)
    ensures var q := Rebuild(p, more).value;
            q.status == Verifying && q.run == p.run && q.requiredVerifierIds == p.requiredVerifierIds
            && forall v :: v in ids || v in p.passedVerifierIds ==> v in q.passedVerifierIds
    decreases |ids|
  {
    if ids == [] {
      more := [];
    } else {
      hide Reduced, Distinct, ShapedRun, Keeps, WellShaped;
      assert ids[0] in ids && forall t :: t in ids[1..] ==> t in ids;
      var e := PassOne(s, w, p, ids[0]);
      var q := Reduced(p, e).value;
      var rest := PassAll(s, w, q, ids[1..]);
      RebuildOne(p, e);
      RebuildAppend(p, [e], rest);
      more := [e] + rest;
    }
  }

  lemma CompleteNow(s: Schema, w: Writer, p: Projection) returns (e: Event)
    requires ShapedRun(s, p.run) && Keeps(s, w) && p.status == Verifying && VerifiersSatisfied(p)
    ensures Reduced(p, e).Ok? && Reduced(p, e).value.status == Completed && WellShaped(s, e)
  {
    hide Reduced, After, VerifiersSatisfied, ShapedRun, ShapedBody, Keeps, WellShaped;
    PassShaped(s, w, [0]);
    var q;
    e, q := TakeStep(s, w, p, RunCompleted(w.id));
  }

  lemma FinishVerifying(s: Schema, w: Writer, p: Projection) returns (more: seq<Event>)
    requires ShapedRun(s, p.run) && Keeps(s, w) && NoneEmpty(p.requiredVerifierIds) && p.status == Verifying
    ensures Completes(p, more) && AllShaped(s, more)
  {
    hide Reduced, Rebuild, ShapedRun, Keeps, WellShaped;
    var passes := PassAll(s, w, p, p.requiredVerifierIds);
    var q := Rebuild(p, passes).value;
    var done := CompleteNow(s, w, q);
    RebuildOne(q, done);
    RebuildAppend(p, passes, [done]);
    more := passes + [done];
  }

  lemma StuckStep(p: Projection, e: Event)
    requires Stuck(p) && Reduced(p, e).Ok?
    ensures Terminal(Reduced(p, e).value.status) && Reduced(p, e).value.status != Completed
  {
    hide Distinct;
  }

  lemma StuckStaysOpen(p: Projection, more: seq<Event>)
    requires Stuck(p)
    ensures !Completes(p, more)
  {
    if Completes(p, more) {
      hide Reduced, Rebuild;
      assert more == [more[0]] + more[1..];
      RebuildOne(p, more[0]);
      RebuildAppend(p, [more[0]], more[1..]);
      StuckStep(p, more[0]);
      var q := Reduced(p, more[0]).value;
      TerminalIsFinal(q, more[1..]);
    }
  }

  lemma TerminalIsFinal(p: Projection, more: seq<Event>)
    requires Terminal(p.status)
    ensures Rebuild(p, more).Ok? ==> Rebuild(p, more) == Ok(p)
  {
    if more != [] {
      assert more == [more[0]] + more[1..];
      RebuildOne(p, more[0]);
      RebuildAppend(p, [more[0]], more[1..]);
    }
  }

  /** Completion is out of reach of all events exactly when the run is stuck; else events of the schema reach it. */
  lemma Progress(s: Schema, w: Writer, p: Projection)
    requires ShapedRun(s, p.run) && Keeps(s, w) && NoneEmpty(p.requiredVerifierIds)
    ensures !Stuck(p) <==> exists more :: Completes(p, more)
    ensures !Stuck(p) ==> exists more :: Completes(p, more) && AllShaped(s, more)
  {
    if Stuck(p) {
      forall more ensures !Completes(p, more) { StuckStaysOpen(p, more); }
    } else {
      hide Rebuild, ShapedRun, Keeps, WellShaped;
      var a := ToVerifying(s, w, p);
      var q := Rebuild(p, a).value;
      var b := FinishVerifying(s, w, q);
      RebuildAppend(p, a, b);
      assert Completes(p, a + b) && AllShaped(s, a + b);
    }
  }

  /** The verifiers that a well-shaped log requires have non-empty ids. */
  lemma RequiredAreShaped(s: Schema, run: Run, log: seq<Event>, p: Projection)
    requires Replays(run, log, p) && AllShaped(s, log)
    ensures NoneEmpty(p.requiredVerifierIds)
  {
    hide Rebuild;
    ExactRequired(run, log, p);
    if log != [] { assert log[0] in log && ShapedBody(s, log[0].body); }
  }

  /** A continuation of the log that ends in `RunCompleted`. */
  ghost predicate CompletingContinuation(run: Run, log: seq<Event>, more: seq<Event>)
  {
    && more != [] && Rebuild(CreateRunProjection(run), log + more).Ok?
    && more[|more| - 1].body.RunCompleted?
  }

  lemma ContinuationCompletes(run: Run, log: seq<Event>, p: Projection, more: seq<Event>)
    requires Replays(run, log, p)
    ensures CompletingContinuation(run, log, more) <==> Completes(p, more)
  {
    hide Rebuild;
    RebuildAppend(CreateRunProjection(run), log, more);
    if more != [] && Rebuild(p, more).Ok? { TerminalAtEnd(run, log + more, Rebuild(p, more).value); }
  }

  /** From every log of events of the schema, either the run has ended or such events continue it to `RunCompleted`. */
  lemma EveryOpenRunCanComplete(s: Schema, w: Writer, run: Run, log: seq<Event>, p: Projection)
    requires ShapedRun(s, run) && Keeps(s, w) && AllShaped(s, log) && Replays(run, log, p)
    ensures !Terminal(p.status) <==> exists more :: CompletingContinuation(run, log, more)
    ensures !Terminal(p.status) ==> exists more :: CompletingContinuation(run, log, more) && AllShaped(s, log + more)
  {
    ExactPosition(run, log, p);
    if run.definition.kind == Compensation { CompensationNeverPlans(run, log, p); }
    RequiredAreShaped(s, run, log, p);
    Progress(s, w, p);
    hide Rebuild, ShapedRun, Keeps, WellShaped;
    forall more ensures CompletingContinuation(run, log, more) <==> Completes(p, more) {
      ContinuationCompletes(run, log, p, more);
    }
    if !Terminal(p.status) {
      var more :| Completes(p, more) && AllShaped(s, more);
      assert CompletingContinuation(run, log, more) && AllShaped(s, log + more);
    }
  }
}
