/** The read-only replay of a stored run: sequence, hash chain, projection and artifacts. */
module Replay {
  import opened Outcomes
  import opened Utf16
  import opened Sha256
  import opened Digests
  import opened RunEvents
  import opened RunLogs
  import opened Artifacts

  datatype Found = Found(artifact: Artifact, content: seq<Byte>)

  /** `digestCanonicalJson` on the three kinds of record, and the host's artifact store. */
  datatype Host = Host(
    eventDigest: Event -> Text, projectionDigest: Projection -> Text, materialDigest: ArtifactMaterial -> Text,
    readArtifact: Text -> Option<Found>)

  datatype Reason =
    | RunNotTerminal | FirstEventNotRunAccepted | RunIdentityBinding | SequenceBroken | HashChainBroken
    | Refused(error: Error) | ProjectionDigestDiffers | ArtifactMissing | ArtifactDigestWrong

  datatype ChainStatus = NotPresent | Verified | Partial

  datatype ArtifactReport = ArtifactReport(artifactId: Text, artifactDigest: Text, contentDigest: Text)

  datatype Report = Report(
    eventCount: nat, storedDigest: Text, replayedDigest: Text, declaredLinks: nat, chain: ChainStatus,
    artifacts: seq<ArtifactReport>)

  // ---------- what the replay checks ----------

  predicate Identified(stored: Projection, e: Event)
  {
    && e.body.RunAccepted?
    && e.runId == stored.run.runId && e.tenantId == stored.run.tenantId
    && e.body.workOrderId == stored.run.workOrderId
    && e.body.workOrderBindingDigest == stored.run.workOrderBindingDigest
    && e.definitionDigest == stored.run.definitionDigest
    && e.dataClass == stored.run.dataClass && e.correlationId == stored.run.correlationId
  }

  /** The link of event `i` to its predecessor, where one is declared. */
  predicate Linked(host: Host, log: seq<Event>, i: nat)
    requires i < |log|
  {
    log[i].prevHash.Some? ==> i > 0 && log[i].prevHash.value == host.eventDigest(log[i - 1])
  }

  predicate ChainHolds(host: Host, log: seq<Event>)
  {
    forall i :: 0 <= i < |log| ==> log[i].sequence == i + 1 && Linked(host, log, i)
  }

  /** The first fault of the chain, from event `i` on. */
  function ChainFault(host: Host, log: seq<Event>, i: nat): Option<Reason>
    requires i <= |log|
    decreases |log| - i
  {
    if i == |log| then None
    else if log[i].sequence != i + 1 then Some(SequenceBroken)
    else if !Linked(host, log, i) then Some(HashChainBroken)
    else ChainFault(host, log, i + 1)
  }

  predicate Genuine(host: Host, runId: Text, stored: Projection, id: Text, found: Found)
  {
    var m := found.artifact.material;
    && m.artifactId == id && m.tenantId == stored.run.tenantId && m.producingRunId == runId
    && m.byteSize == |found.content| && m.contentDigest == DigestBytes(found.content)
    && found.artifact.artifactDigest == host.materialDigest(m)
  }

  predicate ArtifactHolds(host: Host, runId: Text, stored: Projection, id: Text)
  {
    host.readArtifact(id).Some? && Genuine(host, runId, stored, id, host.readArtifact(id).value)
  }

  function ArtifactFault(host: Host, runId: Text, stored: Projection, ids: seq<Text>): Option<Reason>
  {
    if ids == [] then None
    else if host.readArtifact(ids[0]).None? then Some(ArtifactMissing)
    else if !ArtifactHolds(host, runId, stored, ids[0]) then Some(ArtifactDigestWrong)
    else ArtifactFault(host, runId, stored, ids[1..])
  }

  function ReportOf(found: Found, id: Text): ArtifactReport
  {
    ArtifactReport(id, found.artifact.artifactDigest, found.artifact.material.contentDigest)
  }

  function ArtifactReports(host: Host, ids: seq<Text>): seq<ArtifactReport>
    requires forall id :: id in ids ==> host.readArtifact(id).Some?
  {
    seq(|ids|, i requires 0 <= i < |ids| => ReportOf(host.readArtifact(ids[i]).value, ids[i]))
  }

  function DeclaredLinks(log: seq<Event>): nat
  {
    if log == [] then 0 else DeclaredLinks(log[..|log| - 1]) + if log[|log| - 1].prevHash.Some? then 1 else 0
  }

  function ChainStatusOf(log: seq<Event>): ChainStatus
  {
    if |log| <= 1 || forall i :: 0 <= i < |log| ==> log[i].prevHash.None? then NotPresent
    else if forall i :: 1 <= i < |log| ==> log[i].prevHash.Some? then Verified
    else Partial
  }

  function Replayed(stored: Projection, log: seq<Event>): Result<Projection, Error>
  {
    Rebuild(CreateRunProjection(stored.run), log)
  }

  /** Why the replay is refused, if it is: the first failing check. */
  function Fault(host: Host, runId: Text, stored: Projection, log: seq<Event>): Option<Reason>
  {
    if !Terminal(stored.status) then Some(RunNotTerminal)
    else if log == [] || !log[0].body.RunAccepted? then Some(FirstEventNotRunAccepted)
    else if !Identified(stored, log[0]) then Some(RunIdentityBinding)
    else if ChainFault(host, log, 0).Some? then ChainFault(host, log, 0)
    else match Replayed(stored, log)
      case Err(error) => Some(Refused(error))
      case Ok(replayed) =>
        if host.projectionDigest(stored) != host.projectionDigest(replayed) then Some(ProjectionDigestDiffers)
        else ArtifactFault(host, runId, stored, replayed.artifactIds)
  }

  /** What an accepted replay reports. */
  function ReportFor(host: Host, stored: Projection, log: seq<Event>): Report
    requires Replayed(stored, log).Ok?
    requires forall id :: id in Replayed(stored, log).value.artifactIds ==> host.readArtifact(id).Some?
  {
    var replayed := Replayed(stored, log).value;
    Report(|log|, host.projectionDigest(stored), host.projectionDigest(replayed), DeclaredLinks(log), ChainStatusOf(log),
           ArtifactReports(host, replayed.artifactIds))
  }

  // ---------- the loops ----------

  method CheckChain(host: Host, log: seq<Event>) returns (fault: Option<Reason>)
    ensures fault == ChainFault(host, log, 0)
  {
    var index := 0;
    while index < |log|
      invariant 0 <= index <= |log|
      invariant ChainFault(host, log, 0) == ChainFault(host, log, index)
    {
      var current := log[index];
      if current.sequence != index + 1 { return Some(SequenceBroken); }
      if index == 0 && current.prevHash.Some? { return Some(HashChainBroken); }
      if current.prevHash.Some? && index > 0 {
        if current.prevHash.value != host.eventDigest(log[index - 1]) { return Some(HashChainBroken); }
      }
      index := index + 1;
    }
    return None;
  }

  method CheckArtifacts(host: Host, runId: Text, stored: Projection, ids: seq<Text>)
    returns (r: Result<seq<ArtifactReport>, Reason>)
    ensures match ArtifactFault(host, runId, stored, ids)
            case Some(reason) => r == Err(reason)
            case None => (forall id :: id in ids ==> ArtifactHolds(host, runId, stored, id))
                         && r == Ok(ArtifactReports(host, ids))
  {
    hide DigestBytes;
    var artifacts: seq<ArtifactReport> := [];
    var i := 0;
    while i < |ids|
      invariant 0 <= i <= |ids|
      invariant ArtifactFault(host, runId, stored, ids) == ArtifactFault(host, runId, stored, ids[i..])
      invariant forall j :: 0 <= j < i ==> ArtifactHolds(host, runId, stored, ids[j])
      invariant |artifacts| == i
      invariant forall j :: 0 <= j < i ==> artifacts[j] == ReportOf(host.readArtifact(ids[j]).value, ids[j])
    {
      assert ids[i..][1..] == ids[i + 1..];
      var found := host.readArtifact(ids[i]);
      if found.None? { return Err(ArtifactMissing); }
      if !Genuine(host, runId, stored, ids[i], found.value) { return Err(ArtifactDigestWrong); }
      artifacts := artifacts + [ReportOf(found.value, ids[i])];
      i := i + 1;
    }
    assert artifacts == ArtifactReports(host, ids);
    return Ok(artifacts);
  }

  method CountLinks(log: seq<Event>) returns (declared: nat)
    ensures declared == DeclaredLinks(log)
  {
    declared := 0;
    for i := 0 to |log|
      invariant declared == DeclaredLinks(log[..i])
    {
      assert log[..i + 1][..i] == log[..i];
      if log[i].prevHash.Some? { declared := declared + 1; }
    }
    assert log[..|log|] == log;
  }

  /** `commandReplay` */
  method CommandReplay(host: Host, runId: Text, stored: Projection, log: seq<Event>) returns (r: Result<Report, Reason>)
    ensures match Fault(host, runId, stored, log)
            case Some(reason) => r == Err(reason)
            case None =>
              var replayed := Replayed(stored, log).value;
              && (forall id :: id in replayed.artifactIds ==> ArtifactHolds(host, runId, stored, id))
              && r == Ok(ReportFor(host, stored, log))
  {
    hide ArtifactFault, ChainFault, Rebuild, ArtifactHolds, ChainStatusOf;
    if !Terminal(stored.status) { return Err(RunNotTerminal); }
    if log == [] || !log[0].body.RunAccepted? { return Err(FirstEventNotRunAccepted); }
    if !Identified(stored, log[0]) { return Err(RunIdentityBinding); }
    var broken := CheckChain(host, log);
    if broken.Some? { return Err(broken.value); }
    var rebuilt := Rebuild(CreateRunProjection(stored.run), log);
    if rebuilt.Err? { return Err(Refused(rebuilt.error)); }
    var replayed := rebuilt.value;
    var storedDigest, replayedDigest := host.projectionDigest(stored), host.projectionDigest(replayed);
    if storedDigest != replayedDigest { return Err(ProjectionDigestDiffers); }
    var artifacts := CheckArtifacts(host, runId, stored, replayed.artifactIds);
    if artifacts.Err? { return Err(artifacts.error); }
    var declared := CountLinks(log);
    return Ok(Report(|log|, storedDigest, replayedDigest, declared, ChainStatusOf(log), artifacts.value));
  }

  // ---------- what an accepted replay proves ----------

  lemma {:induction false} NoChainFault(host: Host, log: seq<Event>, i: nat)
    requires i <= |log|
    ensures ChainFault(host, log, i).None?
            <==> forall j :: i <= j < |log| ==> log[j].sequence == j + 1 && Linked(host, log, j)
    decreases |log| - i
  {
    if i < |log| { NoChainFault(host, log, i + 1); }
  }

  lemma {:induction false} NoArtifactFault(host: Host, runId: Text, stored: Projection, ids: seq<Text>)
    ensures ArtifactFault(host, runId, stored, ids).None?
            <==> forall id :: id in ids ==> ArtifactHolds(host, runId, stored, id)
  {
    hide ArtifactHolds;
    if ids != [] {
      NoArtifactFault(host, runId, stored, ids[1..]);
      assert ids == [ids[0]] + ids[1..];
      assert ArtifactHolds(host, runId, stored, ids[0]) ==> host.readArtifact(ids[0]).Some? by {
        HeldIsFound(host, runId, stored, ids[0]);
      }
    }
  }

  lemma HeldIsFound(host: Host, runId: Text, stored: Projection, id: Text)
    ensures ArtifactHolds(host, runId, stored, id) ==> host.readArtifact(id).Some?
  {
  }

  /** The replay accepts exactly the runs that satisfy every check. */
  lemma AcceptedReplay(host: Host, runId: Text, stored: Projection, log: seq<Event>)
    ensures Fault(host, runId, stored, log).None? <==>
            && Terminal(stored.status) && log != [] && Identified(stored, log[0]) && ChainHolds(host, log)
            && exists p :: Replays(stored.run, log, p) && host.projectionDigest(stored) == host.projectionDigest(p)
                           && forall id :: id in p.artifactIds ==> ArtifactHolds(host, runId, stored, id)
  {
    hide Rebuild, ArtifactHolds, ArtifactFault, ChainFault, Linked;
    NoChainFault(host, log, 0);
    if Replayed(stored, log).Ok? {
      NoArtifactFault(host, runId, stored, Replayed(stored, log).value.artifactIds);
    }
  }

  /** The store has the artifact, of the tenant and run, with the size and the digests of its content and material. */
  ghost predicate Held(host: Host, tenantId: Text, runId: Text, id: Text)
  {
    exists a, content ::
      && host.readArtifact(id) == Some(Found(a, content)) && a.material.artifactId == id
      && a.material.tenantId == tenantId && a.material.producingRunId == runId && a.material.byteSize == |content|
      && a.material.contentDigest == DigestBytes(content) && a.artifactDigest == host.materialDigest(a.material)
  }

  lemma HeldExactly(host: Host, runId: Text, stored: Projection, id: Text)
    ensures ArtifactHolds(host, runId, stored, id) <==> Held(host, stored.run.tenantId, runId, id)
  {
    hide DigestBytes;
    if ArtifactHolds(host, runId, stored, id) {
      var found := host.readArtifact(id).value;
      assert host.readArtifact(id) == Some(Found(found.artifact, found.content));
    }
  }

  /** The replay accepts exactly, in the fields of its inputs. */
  lemma AcceptedByFields(host: Host, runId: Text, stored: Projection, log: seq<Event>)
    ensures
      Fault(host, runId, stored, log).None? <==>
      && (stored.status == Completed || stored.status == Failed || stored.status == Cancelled)
      && log != [] && log[0].body.RunAccepted? && log[0].runId == stored.run.runId
          && log[0].tenantId == stored.run.tenantId
      && log[0].body.workOrderId == stored.run.workOrderId
      && log[0].body.workOrderBindingDigest == stored.run.workOrderBindingDigest
      && log[0].definitionDigest == stored.run.definitionDigest && log[0].dataClass == stored.run.dataClass
      && log[0].correlationId == stored.run.correlationId && log[0].prevHash.None?
      && (forall i :: 0 <= i < |log| ==> log[i].sequence == i + 1)
      && (forall i :: 0 < i < |log| && log[i].prevHash.Some? ==> log[i].prevHash.value == host.eventDigest(log[i - 1]))
      && exists p :: Replays(stored.run, log, p) && host.projectionDigest(stored) == host.projectionDigest(p)
                     && forall id :: id in p.artifactIds ==> Held(host, stored.run.tenantId, runId, id)
  {
    hide Rebuild, ArtifactHolds, Held, ArtifactFault, ChainFault;
    AcceptedReplay(host, runId, stored, log);
    forall id { HeldExactly(host, runId, stored, id); }
    if log != [] {
      assert Linked(host, log, 0) <==> log[0].prevHash.None?;
      forall i | 0 < i < |log|
        ensures Linked(host, log, i) <==> (log[i].prevHash.Some? ==>
            log[i].prevHash.value == host.eventDigest(log[i - 1]))
      {
      }
    }
  }

  /** Two different events of the logs with one digest. */
  ghost predicate EventCollision(host: Host, a: seq<Event>, b: seq<Event>)
  {
    exists x, y :: x in a && y in b && x != y && host.eventDigest(x) == host.eventDigest(y)
  }

  lemma {:induction false} EqualFrom(host: Host, a: seq<Event>, b: seq<Event>, i: nat)
    requires |a| == |b| && i < |a| && a[|a| - 1] == b[|a| - 1] && !EventCollision(host, a, b)
    requires forall j :: 1 <= j < |a| ==> a[j].prevHash.Some? && Linked(host, a, j) && Linked(host, b, j)
    ensures a[i..] == b[i..]
    decreases |a| - i
  {
    if i + 1 < |a| {
      EqualFrom(host, a, b, i + 1);
      assert a[i + 1] == a[i + 1..][0] && b[i + 1] == b[i + 1..][0];
      assert a[i] in a && b[i] in b;
      assert a[i] == b[i];
      assert a[i..] == [a[i]] + a[i + 1..] && b[i..] == [b[i]] + b[i + 1..];
    }
  }

  /** A fully verified chain fixes the whole log by its last event, unless two events collide. */
  lemma ChainIntegrity(host: Host, a: seq<Event>, b: seq<Event>)
    requires ChainHolds(host, a) && ChainHolds(host, b)
    requires ChainStatusOf(a) == Verified && ChainStatusOf(b) == Verified
    requires a[|a| - 1] == b[|b| - 1]
    ensures a == b || EventCollision(host, a, b)
  {
    if !EventCollision(host, a, b) {
      assert a[|a| - 1].sequence == |a| && b[|b| - 1].sequence == |b|;
      EqualFrom(host, a, b, 0);
      assert a[0..] == a && b[0..] == b;
    }
  }

  /** Two accepted replays that report a verified chain and end alike replayed the same log to the same projection. */
  lemma VerifiedReplaysAgree(host: Host, runId: Text, s: Projection, a: seq<Event>, t: Projection, b: seq<Event>)
    requires Fault(host, runId, s, a).None? && Fault(host, runId, t, b).None?
    requires ChainStatusOf(a) == Verified && ChainStatusOf(b) == Verified && a[|a| - 1] == b[|b| - 1]
    requires s.run == t.run && !EventCollision(host, a, b)
    ensures a == b && host.projectionDigest(s) == host.projectionDigest(t)
  {
    hide Rebuild, ArtifactHolds, ArtifactFault, ChainFault, ChainHolds;
    AcceptedReplay(host, runId, s, a);
    AcceptedReplay(host, runId, t, b);
    ChainIntegrity(host, a, b);
  }

  /** A stored run that replays as completed has every required verifier cleared, unless its digest collides. */
  lemma ReplayedCompletionIsSafe(host: Host, runId: Text, stored: Projection, log: seq<Event>)
    requires Fault(host, runId, stored, log).None? && stored.status == Completed
    requires stored != Replayed(stored, log).value
             ==> host.projectionDigest(stored) != host.projectionDigest(Replayed(stored, log).value)
    ensures |log| >= 2 && log[|log| - 1].body.RunCompleted?
    ensures forall v :: v in log[0].body.requiredVerifierIds ==>
              exists i :: 0 < i < |log| - 1 && Clears(log[i].body, v)
    ensures stored.artifactIds == Collect(log, ArtifactSaid)
    ensures forall id :: id in Collect(log, ArtifactSaid) ==> ArtifactHolds(host, runId, stored, id)
  {
    hide Rebuild, ArtifactHolds, ArtifactFault, ChainFault, ChainHolds, Clears;
    AcceptedReplay(host, runId, stored, log);
    CompletionSafety(stored.run, log, stored);
    ExactLists(stored.run, log, stored);
  }

  /** The positions of the events that declare a link to their predecessor. */
  function LinkPositions(log: seq<Event>): set<nat> { set i: nat | i < |log| && log[i].prevHash.Some? }

  lemma {:induction false} LinksCounted(log: seq<Event>)
    ensures DeclaredLinks(log) == |LinkPositions(log)|
    decreases |log|
  {
    if log != [] {
      var n := |log| - 1;
      LinksCounted(log[..n]);
      assert LinkPositions(log) == LinkPositions(log[..n]) + if log[n].prevHash.Some? then {n} else {};
    }
  }

  /** A link at every event but the first is one fewer than the events, and no accepted chain has more. */
  lemma LinksOfChain(host: Host, log: seq<Event>)
    requires ChainHolds(host, log) && log != []
    ensures DeclaredLinks(log) < |log|
    ensures ChainStatusOf(log) == Verified <==> |log| > 1 && DeclaredLinks(log) == |log| - 1
    ensures ChainStatusOf(log) == NotPresent <==> |log| == 1 || DeclaredLinks(log) == 0
  {
    assert Linked(host, log, 0);
    LinksBounded(log);
  }

  lemma {:induction false} LinksBounded(log: seq<Event>)
    requires log != [] && log[0].prevHash.None?
    ensures DeclaredLinks(log) < |log|
    ensures DeclaredLinks(log) == |log| - 1 <==> forall i :: 1 <= i < |log| ==> log[i].prevHash.Some?
    ensures DeclaredLinks(log) == 0 <==> forall i :: 0 <= i < |log| ==> log[i].prevHash.None?
    decreases |log|
  {
    var n := |log| - 1;
    if n > 0 {
      LinksBounded(log[..n]);
      assert forall i :: 0 <= i < n ==> log[..n][i] == log[i];
    } else {
      assert DeclaredLinks(log[..0]) == 0;
    }
  }

  /**
   The report of an accepted replay: the events and links counted, one digest for both projections, and for each artifact
   of the log, in order, digests that its content and its material have.
   */
  lemma ReportIsTrue(host: Host, runId: Text, stored: Projection, log: seq<Event>)
    requires Fault(host, runId, stored, log).None?
    ensures
      && Replayed(stored, log).Ok?
      && (forall id :: id in Replayed(stored, log).value.artifactIds ==> host.readArtifact(id).Some?)
      && var r := ReportFor(host, stored, log);
         && r.eventCount == |log| && r.eventCount == Replayed(stored, log).value.lastSequence
         && r.storedDigest == r.replayedDigest == host.projectionDigest(stored)
         && r.declaredLinks == |set i: nat | i < |log| && log[i].prevHash.Some?|
         && (r.chain == Verified <==> |log| > 1 && r.declaredLinks == |log| - 1)
         && (r.chain == NotPresent <==> |log| == 1 || r.declaredLinks == 0)
         && |r.artifacts| == |Collect(log, ArtifactSaid)|
         && forall i :: 0 <= i < |r.artifacts| ==>
              TrueArtifact(host, stored.run.tenantId, runId, Collect(log, ArtifactSaid)[i], r.artifacts[i])
  {
    hide Rebuild, ArtifactHolds, ArtifactFault, ChainFault, ChainStatusOf, DeclaredLinks, ChainHolds, ArtifactReports;
    AcceptedReplay(host, runId, stored, log);
    var p := Replayed(stored, log).value;
    assert Replays(stored.run, log, p);
    NoArtifactFault(host, runId, stored, p.artifactIds);
    ExactLists(stored.run, log, p);
    ExactPosition(stored.run, log, p);
    LinksCounted(log);
    LinksOfChain(host, log);
    forall id | id in p.artifactIds ensures host.readArtifact(id).Some? { HeldIsFound(host, runId, stored, id); }
    ReportedArtifacts(host, runId, stored, p.artifactIds);
  }

  /** The report of an artifact that the store holds for the run. */
  ghost predicate TrueArtifact(host: Host, tenantId: Text, runId: Text, id: Text, report: ArtifactReport)
  {
    exists a, content ::
      && host.readArtifact(id) == Some(Found(a, content)) && report.artifactId == id == a.material.artifactId
      && a.material.tenantId == tenantId && a.material.producingRunId == runId && a.material.byteSize == |content|
      && report.contentDigest == DigestBytes(content) && report.artifactDigest == host.materialDigest(a.material)
  }

  lemma ReportedArtifacts(host: Host, runId: Text, stored: Projection, ids: seq<Text>)
    requires forall id :: id in ids ==> ArtifactHolds(host, runId, stored, id) && host.readArtifact(id).Some?
    ensures |ArtifactReports(host, ids)| == |ids|
    ensures forall i :: 0 <= i < |ids| ==>
              TrueArtifact(host, stored.run.tenantId, runId, ids[i], ArtifactReports(host, ids)[i])
  {
    hide DigestBytes;
    forall i | 0 <= i < |ids|
      ensures TrueArtifact(host, stored.run.tenantId, runId, ids[i], ArtifactReports(host, ids)[i])
    {
      var found := host.readArtifact(ids[i]).value;
      assert Genuine(host, runId, stored, ids[i], found);
      assert host.readArtifact(ids[i]) == Some(Found(found.artifact, found.content));
    }
  }
}
