/** The evidence gate against the completion check of the reducer: when accepted evidence completes its run. */
module EvidenceGate {
  import opened Outcomes
  import opened Utf16
  import opened RunEvents
  import opened RunLogs
  import opened Artifacts
  import opened Ordering
  import opened Evidence
  import opened EvidenceOrder

  /** The local registry's verifiers: the id is the registration digest. */
  ghost predicate RegistryIds(i: Input)
  {
    && (forall v :: v in i.verifications ==> v.material.verifierId == v.material.registrationDigest)
    && forall x :: x in i.exceptions ==> x.material.verifierId == x.material.registrationDigest
  }

  lemma PassClears(h: Host, i: Input, v: Verification)
    requires VerificationHolds(h, i, v) && v.material.status == Pass
    ensures exists e :: e in i.events && Clears(e.body, v.material.verifierId)
  {
    var step := FindArtifact(i.artifacts, v.material.artifactDigest).value.material.producingStepId;
    var e :| e in i.events && Records(e, v, step);
    assert Clears(e.body, v.material.verifierId);
  }

  lemma ExceptionClears(h: Host, i: Input, x: VerificationException)
    requires ExceptionHolds(h, i, x)
    ensures exists e :: e in i.events && Clears(e.body, x.material.verifierId)
  {
    hide FindReference, Declared, Overrides;
    var step := FindArtifact(i.artifacts, x.material.artifactDigest).value.material.producingStepId;
    var e :| e in i.events && Grants(h, e, x, step);
    assert Clears(e.body, x.material.verifierId);
  }

  lemma {:induction false} CollectsAll(log: seq<Event>, said: Payload -> seq<Text>, x: Text, e: Event)
    requires e in log && x in said(e.body)
    ensures x in Collect(log, said)
    decreases |log|
  {
    if e != log[|log| - 1] { CollectsAll(log[..|log| - 1], said, x, e); }
  }

  lemma ClearedInProjection(log: seq<Event>, p: Projection, v: Text)
    requires Lists(log, p)
    ensures (v in p.passedVerifierIds || v in p.exceptedVerifierIds) <==> exists e :: e in log && Clears(e.body, v)
  {
    if e :| e in log && Clears(e.body, v) {
      if e.body.VerificationRecorded? { CollectsAll(log, PassSaid, v, e); } else { CollectsAll(log, ExceptionSaid, v, e); }
    }
    if v in p.passedVerifierIds {
      CollectedFrom(log, PassSaid, v);
      var i :| 0 <= i < |log| && v in PassSaid(log[i].body);
      assert log[i] in log && Clears(log[i].body, v);
    } else if v in p.exceptedVerifierIds {
      CollectedFrom(log, ExceptionSaid, v);
      var i :| 0 <= i < |log| && v in ExceptionSaid(log[i].body);
      assert log[i] in log && Clears(log[i].body, v);
    }
  }

  /** Where the log replays, the one acceptance among its events is the first. */
  lemma AcceptanceIsFirst(run: Run, log: seq<Event>, p: Projection, accepted: Event)
    requires Replays(run, log, p) && accepted in log && accepted.body.RunAccepted?
    ensures log[0] == accepted && p.requiredVerifierIds == accepted.body.requiredVerifierIds
  {
    hide Rebuild;
    LogShape(run, log, p);
    ExactLists(run, log, p);
    var n :| 0 <= n < |log| && log[n] == accepted;
    assert InPlace(run, log, n);
  }

  /** Some listed event passes or excepts the verifier under this very id. */
  ghost predicate ClearedByEvent(i: Input, id: Text)
  {
    exists e :: e in i.events && Clears(e.body, id)
  }

  /** A listed passing verification, or a listed exception, carries this very id as its verifier id. */
  predicate NamedClear(i: Input, id: Text)
  {
    || (exists v :: v in i.verifications && v.material.status == Pass && v.material.verifierId == id)
    || exists x :: x in i.exceptions && x.material.verifierId == id
  }

  /**
   The exact condition: for accepted evidence of a replayed log, the completion check of the reducer is met if and
   only if a listed event clears each verifier required at acceptance under its own id.
   */
  lemma GatesAgreeExactly(h: Host, i: Input, run: Run, log: seq<Event>, p: Projection)
    requires Build(h, i).Ok? && Replays(run, log, p) && forall e :: e in i.events <==> e in log
    ensures log != [] && log[0].body.RunAccepted?
    ensures VerifiersSatisfied(p) <==> forall id :: id in log[0].body.requiredVerifierIds ==> ClearedByEvent(i, id)
  {
    hide References, Satisfied, AcceptedEvents, RecordOf, Rebuild, Clears, Lists;
    AcceptedAre(i.events);
    ReferencesGive(h, i);
    var accepted := AcceptedEvents(i.events)[0];
    assert accepted in AcceptedEvents(i.events);
    AcceptanceIsFirst(run, log, p, accepted);
    ExactLists(run, log, p);
    forall id ensures ClearedByEvent(i, id) <==> id in p.passedVerifierIds || id in p.exceptedVerifierIds {
      ClearedInProjection(log, p, id);
    }
  }

  /** What a caller can see in the two lists is enough. */
  lemma NamedIsCleared(h: Host, i: Input, id: Text)
    requires References(h, i) && NamedClear(i, id)
    ensures ClearedByEvent(i, id)
  {
    hide VerificationHolds, ExceptionHolds, Clears, UniqueIds, AcceptedEvents, UsedKeys, ArtifactHolds, ApprovalHolds,
         EventHolds;
    if v :| v in i.verifications && v.material.status == Pass && v.material.verifierId == id {
      PassClears(h, i, v);
    } else {
      var x :| x in i.exceptions && x.material.verifierId == id;
      ExceptionClears(h, i, x);
    }
  }

  /** Evidence that names each required verifier by its id satisfies the completion check of the reducer. */
  lemma NamedEvidenceCompletes(h: Host, i: Input, run: Run, log: seq<Event>, p: Projection)
    requires Build(h, i).Ok? && Replays(run, log, p) && forall e :: e in i.events <==> e in log
    requires forall id :: id in p.requiredVerifierIds ==> NamedClear(i, id)
    ensures VerifiersSatisfied(p)
  {
    hide References, Satisfied, AcceptedEvents, RecordOf, Rebuild, NamedClear, ClearedByEvent;
    GatesAgreeExactly(h, i, run, log, p);
    ExactRequired(run, log, p);
    forall id | id in log[0].body.requiredVerifierIds ensures ClearedByEvent(i, id) { NamedIsCleared(h, i, id); }
  }

  /** Where every id is a registration digest, as in the local registry, accepted evidence names each by its id. */
  lemma EvidenceGateRefinesReducerGate(h: Host, i: Input, run: Run, log: seq<Event>, p: Projection)
    requires Build(h, i).Ok? && RegistryIds(i)
    requires Replays(run, log, p) && forall e :: e in i.events <==> e in log
    ensures VerifiersSatisfied(p)
  {
    hide References, AcceptedEvents, RecordOf, Rebuild;
    AcceptedAre(i.events);
    ReferencesGive(h, i);
    var accepted := AcceptedEvents(i.events)[0];
    assert accepted in AcceptedEvents(i.events);
    AcceptanceIsFirst(run, log, p, accepted);
    NamedEvidenceCompletes(h, i, run, log, p);
  }
}
