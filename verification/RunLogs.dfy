/** What holds of every log that the reducer accepts. */
module RunLogs {
  import opened Outcomes
  import opened Utf16
  import opened RunEvents

  ghost predicate Replays(run: Run, log: seq<Event>, p: Projection)
  {
    Rebuild(CreateRunProjection(run), log) == Ok(p)
  }

  lemma LastStep(run: Run, log: seq<Event>, p: Projection) returns (q: Projection)
    requires Replays(run, log, p) && log != []
    ensures Replays(run, log[..|log| - 1], q)
    ensures Refusal(q, log[|log| - 1]).None? && p == After(q, log[|log| - 1])
  {
    q := Rebuild(CreateRunProjection(run), log[..|log| - 1]).value;
  }

  // ---------- the projection is a function of the log ----------

  /** What the latest event that speaks about a field says; nothing at the start. */
  function Latest<T>(log: seq<Event>, said: Payload -> Option<Option<T>>): Option<T>
  {
    if log == [] then None else Or(said(log[|log| - 1].body), Latest(log[..|log| - 1], said))
  }

  function Collect(log: seq<Event>, said: Payload -> seq<Text>): seq<Text>
  {
    if log == [] then [] else Collect(log[..|log| - 1], said) + said(log[|log| - 1].body)
  }

  function Required(log: seq<Event>): seq<Text>
  {
    if log != [] && log[0].body.RunAccepted? then log[0].body.requiredVerifierIds else []
  }

  ghost predicate Pointers(log: seq<Event>, p: Projection)
  {
    && p.currentStepId == Latest(log, StepSaid) && p.resumeTarget == Latest(log, ResumeSaid)
    && p.waitingRequestId == Latest(log, RequestSaid) && p.waitingDecisionId == Latest(log, DecisionSaid)
    && p.activeEffectId == Latest(log, EffectSaid) && p.terminalErrorCode == Latest(log, FailureSaid)
  }

  ghost predicate Lists(log: seq<Event>, p: Projection)
  {
    && p.artifactIds == Collect(log, ArtifactSaid) && p.verificationIds == Collect(log, VerificationSaid)
    && p.passedVerifierIds == Distinct(Collect(log, PassSaid))
    && p.exceptedVerifierIds == Distinct(Collect(log, ExceptionSaid))
    && p.requiredVerifierIds == Required(log)
  }

  ghost predicate Position(run: Run, log: seq<Event>, p: Projection)
  {
    && p.run == run && p.lastSequence == |log|
    && p.lastEventId == (if log == [] then None else Some(log[|log| - 1].eventId))
    && p.updatedAt == (if log == [] then run.createdAt else log[|log| - 1].occurredAt)
  }

  lemma {:induction false} ExactPointers(run: Run, log: seq<Event>, p: Projection)
    requires Replays(run, log, p)
    ensures Pointers(log, p)
    decreases |log|
  {
    if log != [] {
      hide StepSaid, ResumeSaid, RequestSaid, DecisionSaid, EffectSaid, FailureSaid, Distinct, Rebuild, Refusal;
      var q := LastStep(run, log, p);
      ExactPointers(run, log[..|log| - 1], q);
    }
  }

  lemma {:induction false} DistinctTwice(s: seq<Text>)
    ensures Distinct(Distinct(s)) == Distinct(s)
    decreases |s|
  {
    if s != [] {
      var d, x := Distinct(s[..|s| - 1]), s[|s| - 1];
      DistinctTwice(s[..|s| - 1]);
      if x !in d { assert (d + [x])[..|d|] == d; }
    }
  }

  lemma DistinctAppend(s: seq<Text>, x: Text)
    ensures Distinct(Distinct(s) + [x]) == Distinct(s + [x])
  {
    DistinctTwice(s);
    assert (Distinct(s) + [x])[..|Distinct(s)|] == Distinct(s);
    assert (s + [x])[..|s|] == s;
  }

  lemma CollectDistinct(log: seq<Event>, said: Payload -> seq<Text>)
    requires log != [] && |said(log[|log| - 1].body)| <= 1
    ensures var d, more := Distinct(Collect(log[..|log| - 1], said)), said(log[|log| - 1].body);
            Distinct(Collect(log, said)) == if more == [] then d else Distinct(d + more)
  {
    var before, more := Collect(log[..|log| - 1], said), said(log[|log| - 1].body);
    if more == [] {
      assert before + more == before;
    } else {
      assert more == [more[0]];
      DistinctAppend(before, more[0]);
    }
  }

  lemma {:induction false} ExactRequired(run: Run, log: seq<Event>, p: Projection)
    requires Replays(run, log, p)
    ensures p.requiredVerifierIds == Required(log)
    decreases |log|
  {
    if log != [] {
      var q := LastStep(run, log, p);
      ExactRequired(run, log[..|log| - 1], q);
      AcceptedFirst(run, log, p);
      hide Distinct, Rebuild, Refusal;
      assert log[..|log| - 1] != [] ==> log[..|log| - 1][0] == log[0];
    }
  }

  lemma ListsAfter(p: Projection, e: Event)
    ensures var q, b := After(p, e), e.body;
            && q.artifactIds == p.artifactIds + ArtifactSaid(b)
            && q.verificationIds == p.verificationIds + VerificationSaid(b)
            && q.passedVerifierIds == (if PassSaid(b) == [] then p.passedVerifierIds
                                       else Distinct(p.passedVerifierIds + PassSaid(b)))
            && q.exceptedVerifierIds == (if ExceptionSaid(b) == [] then p.exceptedVerifierIds
                                         else Distinct(p.exceptedVerifierIds + ExceptionSaid(b)))
  {
    hide Distinct, ArtifactSaid, VerificationSaid, PassSaid, ExceptionSaid;
  }

  lemma {:induction false} ExactLists(run: Run, log: seq<Event>, p: Projection)
    requires Replays(run, log, p)
    ensures Lists(log, p)
    decreases |log|
  {
    ExactRequired(run, log, p);
    if log != [] {
      hide Distinct, Rebuild, Refusal, After, ArtifactSaid, VerificationSaid;
      var q := LastStep(run, log, p);
      ExactLists(run, log[..|log| - 1], q);
      ListsAfter(q, log[|log| - 1]);
      CollectDistinct(log, PassSaid);
      CollectDistinct(log, ExceptionSaid);
      hide Required;
    }
  }

  lemma {:induction false} ExactPosition(run: Run, log: seq<Event>, p: Projection)
    requires Replays(run, log, p)
    ensures Position(run, log, p)
    decreases |log|
  {
    if log != [] {
      hide Rebuild, Distinct;
      var q := LastStep(run, log, p);
      ExactPosition(run, log[..|log| - 1], q);
    }
  }

  // ---------- statuses ----------

  /** The event leads to a terminal status. */
  predicate Ends(body: Payload) { NextStatusFor(body).Some? && Terminal(NextStatusFor(body).value) }

  lemma StatusStep(p: Projection, e: Event)
    requires Refusal(p, e).None?
    ensures !Terminal(p.status) && After(p, e).status == Or(NextStatusFor(e.body), p.status)
    ensures NextStatusFor(e.body).Some? ==> NextStatusFor(e.body).value in Transitions(p.status)
    ensures NextStatusFor(e.body).None? ==> StatePreserving(p.status, e.body)
  {
    hide NextStatusFor, Transitions, StatePreserving, Terminal, KindAllowed, VerifiersSatisfied, Distinct;
  }

  lemma NothingLeadsToCreated(s: Status)
    ensures Created !in Transitions(s)
  {
  }

  lemma CompletedBy(body: Payload)
    ensures NextStatusFor(body) == Some(Completed) <==> body.RunCompleted?
  {
  }

  lemma CreatedOnlyBefore(run: Run, log: seq<Event>, p: Projection)
    requires Replays(run, log, p)
    ensures p.status == Created <==> log == []
    decreases |log|
  {
    if log != [] {
      hide Rebuild, After, Refusal, NextStatusFor, Transitions;
      var q := LastStep(run, log, p);
      CreatedOnlyBefore(run, log[..|log| - 1], q);
      StatusStep(q, log[|log| - 1]);
      NothingLeadsToCreated(q.status);
    }
  }

  lemma TerminalAtEnd(run: Run, log: seq<Event>, p: Projection)
    requires Replays(run, log, p)
    ensures Terminal(p.status) <==> log != [] && Ends(log[|log| - 1].body)
    ensures p.status == Completed <==> log != [] && log[|log| - 1].body.RunCompleted?
  {
    if log != [] {
      hide Rebuild, After, Refusal, NextStatusFor, Transitions, StatePreserving;
      var q := LastStep(run, log, p);
      StatusStep(q, log[|log| - 1]);
      CompletedBy(log[|log| - 1].body);
    }
  }

  /** Acceptance happens in the created status only, so it is the first event. */
  lemma AcceptedFirst(run: Run, log: seq<Event>, p: Projection)
    requires Replays(run, log, p) && log != []
    ensures log[|log| - 1].body.RunAccepted? ==> |log| == 1
    ensures |log| == 1 ==> log[0].body.RunAccepted? || (Ends(log[0].body) && p.status == Failed)
  {
    hide Rebuild, Distinct;
    var q := LastStep(run, log, p);
    CreatedOnlyBefore(run, log[..|log| - 1], q);
  }

  lemma {:induction false} PrefixReplays(run: Run, log: seq<Event>, p: Projection, i: nat) returns (q: Projection)
    requires Replays(run, log, p) && i <= |log|
    ensures Replays(run, log[..i], q)
    decreases |log|
  {
    if i == |log| {
      assert log[..i] == log;
      q := p;
    } else {
      var before := LastStep(run, log, p);
      q := PrefixReplays(run, log[..|log| - 1], before, i);
      assert log[..|log| - 1][..i] == log[..i];
    }
  }

  /** One event of an accepted log, where it stands. */
  ghost predicate InPlace(run: Run, log: seq<Event>, i: nat)
    requires i < |log|
  {
    var e := log[i];
    && e.sequence == i + 1 && e.runId == run.runId && e.tenantId == run.tenantId
    && e.definition == run.definition && e.definitionDigest == run.definitionDigest
    && (e.body.RunAccepted? ==> i == 0)
    && (i == 0 ==> e.body.RunAccepted? || Ends(e.body))
    && (Ends(e.body) ==> i == |log| - 1)
    && !e.body.EffectAbandoned?
    && KindAllowed(run.definition.kind, e.body)
  }

  /**
   Every accepted log is numbered from one, bound to its run, opened by its only acceptance (or by a
   failure that also ends it) and closed by its only terminal event.
   */
  lemma LogShape(run: Run, log: seq<Event>, p: Projection)
    requires Replays(run, log, p)
    ensures forall i :: 0 <= i < |log| ==> InPlace(run, log, i)
    ensures |log| >= 2 ==> log[0].body.RunAccepted?
  {
    forall i | 0 <= i < |log| ensures InPlace(run, log, i) { StandsInPlace(run, log, p, i); }
    assert |log| >= 2 ==> InPlace(run, log, 0);
  }

  lemma StandsInPlace(run: Run, log: seq<Event>, p: Projection, i: nat)
    requires Replays(run, log, p) && i < |log|
    ensures InPlace(run, log, i)
  {
    hide Rebuild, After, KindAllowed, Transitions, StatePreserving, NextStatusFor, Terminal, Ends;
    var after := PrefixReplays(run, log, p, i + 1);
    var upTo := log[..i + 1];
    assert upTo[|upTo| - 1] == log[i] && upTo[..i] == log[..i];
    var before := LastStep(run, upTo, after);
    ExactPosition(run, upTo[..i], before);
    AcceptedFirst(run, upTo, after);
    TerminalAtEnd(run, upTo, after);
    AdmittedBody(before, log[i]);
    if i + 1 < |log| {
      var next := PrefixReplays(run, log, p, i + 2);
      var q := LastStep(run, log[..i + 2], next);
      assert log[..i + 2][..i + 1] == upTo;
    }
  }

  lemma AdmittedBody(p: Projection, e: Event)
    requires Refusal(p, e).None?
    ensures !e.body.EffectAbandoned? && KindAllowed(p.run.definition.kind, e.body)
  {
    hide KindAllowed;
  }

  // ---------- completion ----------

  /** The event passes or excepts the verifier. */
  predicate Clears(body: Payload, verifierId: Text)
  {
    || (body.VerificationRecorded? && body.verdict == Pass && body.verifierId == verifierId)
    || (body.VerificationExceptionRecorded? && body.grant.verifierId == verifierId)
  }

  lemma {:induction false} CollectedFrom(log: seq<Event>, said: Payload -> seq<Text>, x: Text)
    requires x in Collect(log, said)
    ensures exists i :: 0 <= i < |log| && x in said(log[i].body)
    decreases |log|
  {
    if x in said(log[|log| - 1].body) {
    } else {
      var init := log[..|log| - 1];
      CollectedFrom(init, said, x);
      var i :| 0 <= i < |init| && x in said(init[i].body);
      assert log[i] == init[i];
    }
  }

  /** A run completes exactly at `RunCompleted`, and only with every verifier required at acceptance cleared before. */
  lemma CompletionSafety(run: Run, log: seq<Event>, p: Projection)
    requires Replays(run, log, p)
    ensures p.status == Completed <==> log != [] && log[|log| - 1].body.RunCompleted?
    ensures p.status == Completed ==> |log| >= 2 && log[0].body.RunAccepted?
    ensures p.status == Completed ==>
      forall v :: v in log[0].body.requiredVerifierIds ==>
        exists i :: 0 < i < |log| - 1 && Clears(log[i].body, v)
  {
    hide Rebuild, Distinct;
    TerminalAtEnd(run, log, p);
    if p.status == Completed {
      LogShape(run, log, p);
      AcceptedFirst(run, log, p);
      assert |log| >= 2 by {
        assert InPlace(run, log, 0);
      }
      var q := LastStep(run, log, p);
      var init := log[..|log| - 1];
      ExactLists(run, init, q);
      assert init[0] == log[0];
      forall v | v in log[0].body.requiredVerifierIds
        ensures exists i :: 0 < i < |log| - 1 && Clears(log[i].body, v)
      {
        ClearedBefore(init, q, v);
        var i :| 0 <= i < |init| && Clears(init[i].body, v);
        assert log[i] == init[i];
      }
    }
  }

  lemma ClearedBefore(log: seq<Event>, p: Projection, v: Text)
    requires Lists(log, p) && VerifiersSatisfied(p) && v in p.requiredVerifierIds
    ensures exists i :: 0 <= i < |log| && Clears(log[i].body, v)
  {
    if v in p.passedVerifierIds {
      CollectedFrom(log, PassSaid, v);
      var i :| 0 <= i < |log| && v in PassSaid(log[i].body);
      assert Clears(log[i].body, v);
    } else {
      CollectedFrom(log, ExceptionSaid, v);
      var i :| 0 <= i < |log| && v in ExceptionSaid(log[i].body);
      assert Clears(log[i].body, v);
    }
  }

  // ---------- waiting and suspension ----------

  /** A run waits exactly while its last event is a request, for what that asked; a suspended run can resume. */
  lemma WaitingFor(run: Run, log: seq<Event>, p: Projection)
    requires Replays(run, log, p)
    ensures p.status == WaitingForInput <==> log != [] && log[|log| - 1].body.InputRequested?
    ensures p.status == WaitingForInput ==> p.waitingRequestId == Some(log[|log| - 1].body.requestId)
    ensures p.status == WaitingForApproval <==> log != [] && log[|log| - 1].body.ApprovalRequested?
    ensures p.status == WaitingForApproval ==> p.waitingDecisionId == Some(log[|log| - 1].body.decisionId)
    ensures p.status == Suspended ==> p.resumeTarget.Some?
    decreases |log|
  {
    if log != [] {
      hide Rebuild, Distinct;
      var q := LastStep(run, log, p);
      WaitingFor(run, log[..|log| - 1], q);
    }
  }

  /**
   An id outlives its wait exactly when the latest event about it is a request and a later event ended the wait
   without an answer.
   */
  lemma LeftBehindExactly(run: Run, log: seq<Event>, p: Projection)
    requires Replays(run, log, p)
    ensures p.waitingDecisionId.Some? && p.status != WaitingForApproval
            <==> log != [] && Latest(log, DecisionSaid).Some? && !log[|log| - 1].body.ApprovalRequested?
    ensures p.waitingRequestId.Some? && p.status != WaitingForInput
            <==> log != [] && Latest(log, RequestSaid).Some? && !log[|log| - 1].body.InputRequested?
  {
    hide Rebuild, DecisionSaid, RequestSaid;
    WaitingFor(run, log, p);
    ExactPointers(run, log, p);
  }

  /** A compensation run calls no model and asks for no input. */
  lemma CompensationNeverPlans(run: Run, log: seq<Event>, p: Projection)
    requires Replays(run, log, p) && run.definition.kind == Compensation
    ensures p.status != Planning && p.status != WaitingForInput
    decreases |log|
  {
    if log != [] {
      hide Rebuild, Distinct;
      var q := LastStep(run, log, p);
      ExactPosition(run, log[..|log| - 1], q);
      CompensationNeverPlans(run, log[..|log| - 1], q);
    }
  }

  // ---------- logs in two parts ----------

  lemma {:induction false} RebuildAppend(p: Projection, a: seq<Event>, b: seq<Event>)
    ensures Rebuild(p, a).Ok? ==> Rebuild(p, a + b) == Rebuild(Rebuild(p, a).value, b)
    ensures Rebuild(p, a).Err? ==> Rebuild(p, a + b).Err?
    decreases |b|
  {
    hide Reduced;
    if b == [] {
      assert a + b == a;
    } else {
      RebuildAppend(p, a, b[..|b| - 1]);
      assert (a + b)[..|a + b| - 1] == a + b[..|b| - 1];
    }
  }

  lemma RebuildOne(p: Projection, e: Event)
    ensures Rebuild(p, [e]) == Reduced(p, e)
  {
    assert [e][..0] == [];
    assert Rebuild(p, []) == Ok(p);
  }
}
