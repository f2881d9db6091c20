/** What the fields of a replayed projection mean, in terms of the events of its log. */
module RunFields {
  import opened Outcomes
  import opened Utf16
  import opened RunEvents
  import opened RunLogs

  /** A field is what an event said about it, and nothing has spoken about it since. */
  ghost predicate SaidSince<T>(log: seq<Event>, said: Payload -> Option<Option<T>>, i: nat, value: T)
    requires i < |log|
  {
    said(log[i].body) == Some(Some(value)) && forall j :: i < j < |log| ==> said(log[j].body).None?
  }

  lemma {:induction false} LatestExactly<T>(log: seq<Event>, said: Payload -> Option<Option<T>>, value: T)
    ensures Latest(log, said) == Some(value) <==> exists i: nat :: i < |log| && SaidSince(log, said, i, value)
    decreases |log|
  {
    if log != [] {
      var before, last := log[..|log| - 1], log[|log| - 1].body;
      LatestExactly(before, said, value);
      if said(last).Some? {
        if said(last).value == Some(value) { assert SaidSince(log, said, |log| - 1, value); }
      } else {
        if i: nat :| i < |before| && SaidSince(before, said, i, value) { assert SaidSince(log, said, i, value); }
        if i: nat :| i < |log| && SaidSince(log, said, i, value) { assert SaidSince(before, said, i, value); }
      }
    }
  }

  /** The event makes the effect the active one. */
  predicate Activates(body: Payload, effectId: Text)
  {
    body == EffectPrepared(effectId) || (body.RunSuspended? && body.suspendedEffect == Some(effectId))
  }

  /** The event speaks of the active effect. */
  predicate Settles(body: Payload) { body.EffectPrepared? || body.RunSuspended? || body.EffectAcknowledged? }

  /** The effect was made active at `i`, and nothing since then prepared, parked or acknowledged one. */
  ghost predicate ActiveSince(log: seq<Event>, i: nat, effectId: Text)
    requires i < |log|
  {
    Activates(log[i].body, effectId) && forall j :: i < j < |log| ==> !Settles(log[j].body)
  }

  lemma EffectNamed(body: Payload, effectId: Text)
    ensures !body.EffectAbandoned? ==> (EffectSaid(body).Some? <==> Settles(body))
    ensures EffectSaid(body) == Some(Some(effectId)) <==> Activates(body, effectId)
  {
  }

  /** An effect is active exactly between the event that prepares or parks it and the next of its kind. */
  lemma ActiveEffectExactly(run: Run, log: seq<Event>, p: Projection, effectId: Text)
    requires Replays(run, log, p)
    ensures p.activeEffectId == Some(effectId) <==> exists i: nat :: i < |log| && ActiveSince(log, i, effectId)
  {
    hide Rebuild, Activates, Settles, EffectSaid;
    LogShape(run, log, p);
    ExactPointers(run, log, p);
    LatestExactly(log, EffectSaid, effectId);
    forall i: nat | i < |log|
      ensures SaidSince(log, EffectSaid, i, effectId) <==> ActiveSince(log, i, effectId)
    {
      EffectNamed(log[i].body, effectId);
      forall j | 0 <= j < |log| ensures EffectSaid(log[j].body).Some? <==> Settles(log[j].body) {
        assert InPlace(run, log, j);
        EffectNamed(log[j].body, effectId);
      }
    }
  }

  /** The event starts planning, execution or verification. */
  predicate Starts(body: Payload) { body.PlanningStarted? || body.ExecutionStarted? || body.VerificationStarted? }

  ghost predicate ParkedSince(log: seq<Event>, i: nat, target: ResumeTarget)
    requires i < |log|
  {
    && log[i].body.RunSuspended? && log[i].body.resumeTarget == target
    && forall j :: i < j < |log| ==> !log[j].body.RunSuspended? && !Starts(log[j].body)
  }

  /** A resume target stands from the suspension that names it until work is started or the run parked again. */
  lemma ResumeTargetExactly(run: Run, log: seq<Event>, p: Projection, target: ResumeTarget)
    requires Replays(run, log, p)
    ensures p.resumeTarget == Some(target) <==> exists i: nat :: i < |log| && ParkedSince(log, i, target)
  {
    hide Rebuild;
    ExactPointers(run, log, p);
    LatestExactly(log, ResumeSaid, target);
    forall i: nat | i < |log|
      ensures SaidSince(log, ResumeSaid, i, target) <==> ParkedSince(log, i, target)
    {
      forall j | 0 <= j < |log|
        ensures ResumeSaid(log[j].body).None? <==> !log[j].body.RunSuspended? && !Starts(log[j].body)
      {
      }
    }
  }

  /** The event names a step that the projection keeps: every change of status but acceptance and two endings. */
  predicate NamesStep(body: Payload)
  {
    NextStatusFor(body).Some? && !body.RunAccepted? && !body.RunFailed? && !body.RunCancelled?
  }

  lemma StepNamed(body: Payload, stepId: Text)
    ensures StepSaid(body).Some? <==> NamesStep(body)
    ensures NamesStep(body) ==> (StepSaid(body) == Some(Some(stepId)) <==> body.stepId == stepId)
  {
  }

  ghost predicate AtStepSince(log: seq<Event>, i: nat, stepId: Text)
    requires i < |log|
  {
    NamesStep(log[i].body) && log[i].body.stepId == stepId && forall j :: i < j < |log| ==> !NamesStep(log[j].body)
  }

  /** The current step is the one named by the latest change of status that names one. */
  lemma CurrentStepExactly(run: Run, log: seq<Event>, p: Projection, stepId: Text)
    requires Replays(run, log, p)
    ensures p.currentStepId == Some(stepId) <==> exists i: nat :: i < |log| && AtStepSince(log, i, stepId)
  {
    hide Rebuild, NamesStep, StepSaid;
    ExactPointers(run, log, p);
    LatestExactly(log, StepSaid, stepId);
    forall i: nat | i < |log|
      ensures SaidSince(log, StepSaid, i, stepId) <==> AtStepSince(log, i, stepId)
    {
      StepNamed(log[i].body, stepId);
      forall j | 0 <= j < |log| ensures StepSaid(log[j].body).None? <==> !NamesStep(log[j].body) {
        StepNamed(log[j].body, stepId);
      }
    }
  }

  lemma FailureEnds(p: Projection, e: Event)
    requires Refusal(p, e).None?
    ensures !Terminal(p.status) && (e.body.RunFailed? ==> Ends(e.body))
  {
  }

  /** An error code stands exactly on a run that an event has failed, and it is the code of that event. */
  lemma {:induction false} ErrorCodeExactly(run: Run, log: seq<Event>, p: Projection)
    requires Replays(run, log, p)
    ensures
      p.terminalErrorCode ==
      if log != [] && log[|log| - 1].body.RunFailed? then Some(log[|log| - 1].body.errorCode) else None
    decreases |log|
  {
    if log != [] {
      hide Rebuild, Distinct, Refusal, NextStatusFor, Transitions;
      var q := LastStep(run, log, p);
      ErrorCodeExactly(run, log[..|log| - 1], q);
      TerminalAtEnd(run, log[..|log| - 1], q);
      FailureEnds(q, log[|log| - 1]);
    }
  }

  /** The artifacts and verifications are those of the events that record them, in their order. */
  lemma Recorded(p: Projection, e: Event)
    requires Reduced(p, e).Ok?
    ensures
      Reduced(p, e).value.artifactIds ==
      match e.body case ArtifactProduced(_, id, _) => p.artifactIds + [id] case _ => p.artifactIds
    ensures
      Reduced(p, e).value.verificationIds ==
      match e.body case VerificationRecorded(_, id, _, _, _) => p.verificationIds + [id] case _ => p.verificationIds
  {
    hide Refusal, Distinct;
    assert p.artifactIds + [] == p.artifactIds && p.verificationIds + [] == p.verificationIds;
  }

  lemma {:induction false} Collected(log: seq<Event>, said: Payload -> seq<Text>, x: Text)
    ensures x in Collect(log, said) <==> exists i :: 0 <= i < |log| && x in said(log[i].body)
    decreases |log|
  {
    if log != [] {
      var before, n := log[..|log| - 1], |log| - 1;
      Collected(before, said, x);
      assert forall i :: 0 <= i < n ==> before[i] == log[i];
      if i :| 0 <= i < n && x in said(before[i].body) { assert x in said(log[i].body); }
    }
  }

  /** A verifier has passed exactly if a recorded verification of it passed, and is excepted exactly by a recorded grant. */
  lemma ClearedExactly(run: Run, log: seq<Event>, p: Projection, id: Text)
    requires Replays(run, log, p)
    ensures
      id in p.passedVerifierIds <==>
      exists i :: 0 <= i < |log| && log[i].body.VerificationRecorded? && log[i].body.verifierId == id
          && log[i].body.verdict == Pass
    ensures
      id in p.exceptedVerifierIds <==>
      exists i :: 0 <= i < |log| && log[i].body.VerificationExceptionRecorded? && log[i].body.grant.verifierId == id
  {
    hide Rebuild;
    ExactLists(run, log, p);
    Collected(log, PassSaid, id);
    Collected(log, ExceptionSaid, id);
  }
}
