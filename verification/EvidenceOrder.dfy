/** The evidence builder does not depend on the order of its inputs, and its records are closed. */
module EvidenceOrder {
  import opened Outcomes
  import opened Utf16
  import opened RunEvents
  import opened Artifacts
  import opened Ordering
  import opened Evidence

  /** The same inputs, listed in any order; verifier references keep theirs. */
  ghost predicate Reordered(i: Input, j: Input)
  {
    && i.material == j.material && i.references == j.references
    && Permutation(i.artifacts, j.artifacts) && Permutation(i.events, j.events)
    && Permutation(i.approvals, j.approvals) && Permutation(i.verifications, j.verifications)
    && Permutation(i.exceptions, j.exceptions)
  }

  ghost predicate SameMembers(i: Input, j: Input)
  {
    && i.material == j.material && i.references == j.references
    && (forall x :: x in i.artifacts <==> x in j.artifacts) && (forall x :: x in i.events <==> x in j.events)
    && (forall x :: x in i.approvals <==> x in j.approvals) && (forall x :: x in i.verifications <==> x in j.verifications)
    && (forall x :: x in i.exceptions <==> x in j.exceptions)
  }

  lemma ReorderedMembers(i: Input, j: Input)
    requires Reordered(i, j)
    ensures SameMembers(i, j) && |i.events| == |j.events|
  {
    PermutationMembers(i.artifacts, j.artifacts);
    PermutationMembers(i.events, j.events);
    PermutationMembers(i.approvals, j.approvals);
    PermutationMembers(i.verifications, j.verifications);
    PermutationMembers(i.exceptions, j.exceptions);
  }

  /** No two of the artifacts have different materials with one digest. */
  ghost predicate NoCollision(h: Host, artifacts: seq<Artifact>)
  {
    forall a, b :: a in artifacts && b in artifacts && h.artifactDigest(a.material) == h.artifactDigest(b.material) ==>
      a.material == b.material
  }

  ghost predicate DigestsHold(h: Host, artifacts: seq<Artifact>)
  {
    forall a :: a in artifacts ==> a.artifactDigest == h.artifactDigest(a.material)
  }

  /** `find` by digest is unambiguous: it picks the same artifact from any ordering. */
  lemma FindIsUnambiguous(h: Host, xs: seq<Artifact>, ys: seq<Artifact>, digest: Text)
    requires forall a :: a in xs <==> a in ys
    requires DigestsHold(h, xs) && NoCollision(h, xs)
    ensures FindArtifact(xs, digest) == FindArtifact(ys, digest)
  {
    hide FindArtifact;
    var a, b := FindArtifact(xs, digest), FindArtifact(ys, digest);
    if a.Some? && b.Some? { assert a.value in xs && b.value in xs; }
  }

  lemma VerificationsHoldAlike(h: Host, i: Input, j: Input, v: Verification)
    requires SameMembers(i, j) && DigestsHold(h, i.artifacts) && NoCollision(h, i.artifacts)
    ensures VerificationHolds(h, i, v) == VerificationHolds(h, j, v)
  {
    hide FindArtifact, DigestsHold, NoCollision;
    FindIsUnambiguous(h, i.artifacts, j.artifacts, v.material.artifactDigest);
  }

  lemma ExceptionsHoldAlike(h: Host, i: Input, j: Input, x: VerificationException)
    requires SameMembers(i, j) && DigestsHold(h, i.artifacts) && NoCollision(h, i.artifacts)
    ensures ExceptionHolds(h, i, x) == ExceptionHolds(h, j, x)
  {
    hide FindArtifact, FindReference, DigestsHold, NoCollision, Grants, Declared, Overrides;
    FindIsUnambiguous(h, i.artifacts, j.artifacts, x.material.artifactDigest);
  }

  lemma UniqueIdsAlike(i: Input, j: Input)
    requires Reordered(i, j)
    ensures UniqueIds(i) == UniqueIds(j)
  {
    hide Mapped, Permutation, NoRepeats;
    MapPermutes(i.artifacts, j.artifacts, ArtifactId);
    MapPermutes(i.approvals, j.approvals, ApprovalId);
    MapPermutes(i.verifications, j.verifications, VerificationId);
    MapPermutes(i.exceptions, j.exceptions, ExceptionId);
    MapPermutes(i.events, j.events, EventId);
    MapPermutes(i.events, j.events, SequenceOf);
    PermutationDistinct(Mapped(i.artifacts, ArtifactId), Mapped(j.artifacts, ArtifactId));
    PermutationDistinct(Mapped(i.approvals, ApprovalId), Mapped(j.approvals, ApprovalId));
    PermutationDistinct(Mapped(i.verifications, VerificationId), Mapped(j.verifications, VerificationId));
    PermutationDistinct(Mapped(i.exceptions, ExceptionId), Mapped(j.exceptions, ExceptionId));
    PermutationDistinct(Mapped(i.events, EventId), Mapped(j.events, EventId));
    PermutationDistinct(Mapped(i.events, SequenceOf), Mapped(j.events, SequenceOf));
  }

  lemma {:induction false} AcceptedCount(events: seq<Event>)
    ensures multiset(AcceptedEvents(events)) <= multiset(events)
    ensures forall e: Event :: e.body.RunAccepted? ==> multiset(AcceptedEvents(events))[e] == multiset(events)[e]
    ensures forall e: Event :: !e.body.RunAccepted? ==> multiset(AcceptedEvents(events))[e] == 0
  {
    if events != [] {
      AcceptedCount(events[1..]);
      assert multiset(events) == multiset{events[0]} + multiset(events[1..]) by {
        assert events == [events[0]] + events[1..];
      }
    }
  }

  lemma AcceptedAlike(xs: seq<Event>, ys: seq<Event>)
    requires Permutation(xs, ys)
    ensures Permutation(AcceptedEvents(xs), AcceptedEvents(ys))
    ensures |AcceptedEvents(xs)| == |AcceptedEvents(ys)|
    ensures |AcceptedEvents(xs)| == 1 ==> AcceptedEvents(xs) == AcceptedEvents(ys)
  {
    hide AcceptedEvents;
    var a, b := AcceptedEvents(xs), AcceptedEvents(ys);
    AcceptedCount(xs);
    AcceptedCount(ys);
    assert multiset(a) == multiset(b);
    PermutationMembers(a, b);
    if |a| == 1 {
      assert a[0] in b;
    }
  }

  lemma ArtifactDigestsHold(h: Host, i: Input)
    requires forall a :: a in i.artifacts ==> ArtifactHolds(h, i.material, i.events, a)
    ensures DigestsHold(h, i.artifacts)
  {
    forall a | a in i.artifacts ensures a.artifactDigest == h.artifactDigest(a.material) {
      assert ArtifactHolds(h, i.material, i.events, a);
    }
  }

  lemma ReferencesReorder(h: Host, i: Input, j: Input)
    requires Reordered(i, j) && NoCollision(h, i.artifacts) && References(h, i)
    ensures References(h, j)
  {
    hide UniqueIds, EventHolds, ArtifactHolds, ApprovalHolds, VerificationHolds, ExceptionHolds, AcceptedEvents,
         FindReference, NoCollision, Permutation, NoRepeats;
    ReorderedMembers(i, j);
    UniqueIdsAlike(i, j);
    AcceptedAlike(i.events, j.events);
    ArtifactDigestsHold(h, i);
    forall a | a in j.artifacts ensures ArtifactHolds(h, j.material, j.events, a) {
      ArtifactAlike(h, i, j, a);
    }
    forall b | b in j.approvals ensures ApprovalHolds(h, j.material, j.events, b) { ApprovalAlike(h, i, j, b); }
    forall v | v in j.verifications ensures VerificationHolds(h, j, v) { VerificationsHoldAlike(h, i, j, v); }
    forall x | x in j.exceptions ensures ExceptionHolds(h, j, x) { ExceptionsHoldAlike(h, i, j, x); }
    UsedAlike(i, j);
  }

  lemma ArtifactAlike(h: Host, i: Input, j: Input, a: Artifact)
    requires SameMembers(i, j)
    ensures ArtifactHolds(h, i.material, i.events, a) == ArtifactHolds(h, j.material, j.events, a)
  {
    hide Produces;
  }

  lemma ApprovalAlike(h: Host, i: Input, j: Input, a: Approval)
    requires SameMembers(i, j)
    ensures ApprovalHolds(h, i.material, i.events, a) == ApprovalHolds(h, j.material, j.events, a)
  {
    hide Approves;
  }

  lemma UsedAlike(i: Input, j: Input)
    requires SameMembers(i, j)
    ensures UsedKeys(i) == UsedKeys(j)
  {
    hide FindReference, KeyOf;
  }

  lemma VerifiedAlike(i: Input, j: Input, accepted: Event)
    requires SameMembers(i, j) && accepted.body.RunAccepted?
    ensures Verified(i, accepted) == Verified(j, accepted)
  {
    hide IsFor, HasVerdict, Excepted;
    forall id ensures Excepted(i, id) == Excepted(j, id) && HasVerdict(i, id, Pass) == HasVerdict(j, id, Pass)
                      && HasVerdict(i, id, Fail) == HasVerdict(j, id, Fail) {
      VerdictsAlike(i, j, id);
    }
  }

  lemma VerdictsAlike(i: Input, j: Input, id: Text)
    requires SameMembers(i, j)
    ensures Excepted(i, id) == Excepted(j, id)
    ensures HasVerdict(i, id, Pass) == HasVerdict(j, id, Pass) && HasVerdict(i, id, Fail) == HasVerdict(j, id, Fail)
  {
    hide IsFor;
  }

  /** References sorted by an id that is unique in the listed items come out the same from any ordering. */
  lemma SortedAlike<T(!new), R(!new)>(xs: seq<T>, ys: seq<T>, ref: T -> R, id: T -> Text, key: R -> Text)
    requires Permutation(xs, ys) && NoRepeats(Mapped(xs, id)) && forall x :: key(ref(x)) == id(x)
    ensures Sort(Mapped(xs, ref), TextBefore(key)) == Sort(Mapped(ys, ref), TextBefore(key))
  {
    hide Sort, TextBefore, Permutation;
    assert Mapped(Mapped(xs, ref), key) == Mapped(xs, id);
    DistinctKeys(Mapped(xs, ref), key);
    TextSeparates(Mapped(xs, ref), key);
    MapPermutes(xs, ys, ref);
    SortSame(Mapped(xs, ref), Mapped(ys, ref), TextBefore(key));
  }

  lemma EventsSortedAlike(xs: seq<Event>, ys: seq<Event>)
    requires Permutation(xs, ys) && NoRepeats(Mapped(xs, SequenceOf))
    ensures Sort(Mapped(xs, RefOfEvent), NumberBefore(EventRefKey)) == Sort(Mapped(ys, RefOfEvent), NumberBefore(EventRefKey))
  {
    hide Sort, NumberBefore, Permutation;
    assert Mapped(Mapped(xs, RefOfEvent), EventRefKey) == Mapped(xs, SequenceOf);
    DistinctKeys(Mapped(xs, RefOfEvent), EventRefKey);
    NumberSeparates(Mapped(xs, RefOfEvent), EventRefKey);
    MapPermutes(xs, ys, RefOfEvent);
    SortSame(Mapped(xs, RefOfEvent), Mapped(ys, RefOfEvent), NumberBefore(EventRefKey));
  }

  lemma RecordAlike(h: Host, i: Input, j: Input)
    requires Reordered(i, j) && UniqueIds(i)
    ensures RecordOf(h, i) == RecordOf(h, j)
  {
    hide Sort, Mapped, TextBefore, NumberBefore, Permutation, NoRepeats;
    SortedAlike(i.artifacts, j.artifacts, RefOfArtifact, ArtifactId, ArtifactRefKey);
    EventsSortedAlike(i.events, j.events);
    SortedAlike(i.approvals, j.approvals, RefOfApproval(h), ApprovalId, ApprovalRefKey);
    SortedAlike(i.verifications, j.verifications, RefOfVerification, VerificationId, VerificationRefKey);
    SortedAlike(i.exceptions, j.exceptions, RefOfException, ExceptionId, ExceptionRefKey);
  }

  lemma ReorderedBack(i: Input, j: Input)
    requires Reordered(i, j)
    ensures Reordered(j, i)
  {
  }

  /** Reordering the inputs changes neither success nor the error, the record or its digest. */
  lemma OrderIndependent(h: Host, i: Input, j: Input)
    requires Reordered(i, j) && NoCollision(h, i.artifacts)
    ensures Build(h, i) == Build(h, j)
  {
    hide References, Verified, AcceptedEvents, RecordOf, Permutation;
    ReorderedMembers(i, j);
    assert NoCollision(h, j.artifacts);
    if References(h, i) {
      ReferencesReorder(h, i, j);
    } else if References(h, j) {
      ReorderedBack(i, j);
      ReferencesReorder(h, j, i);
    }
    if References(h, i) {
      AcceptedAlike(i.events, j.events);
      assert UniqueIds(i) && |AcceptedEvents(i.events)| == 1 by { ReferencesGive(h, i); }
      AcceptedAre(i.events);
      assert AcceptedEvents(i.events)[0] in AcceptedEvents(i.events);
      VerifiedAlike(i, j, AcceptedEvents(i.events)[0]);
      RecordAlike(h, i, j);
    }
  }

  lemma ReferencesGive(h: Host, i: Input)
    requires References(h, i)
    ensures UniqueIds(i) && |AcceptedEvents(i.events)| == 1
  {
  }

  // ---------- what a record vouches for ----------

  /** The references of a record are closed: what a verification or exception is about is listed too. */
  ghost predicate Closed(r: RecordMaterial)
  {
    && (forall v :: v in r.verificationRefs ==> exists a :: a in r.artifactRefs && a.artifactDigest == v.artifactDigest)
    && (forall x :: x in r.exceptionRefs ==> exists a :: a in r.artifactRefs && a.artifactDigest == x.artifactDigest)
    && (forall x, v :: x in r.exceptionRefs && v in r.verificationRefs ==>
          !(x.artifactDigest == v.artifactDigest && x.verifierId == v.verifierId && x.registrationDigest == v.registrationDigest))
  }

  lemma MappedMembers<T, U>(xs: seq<T>, f: T -> U, y: U)
    ensures y in Mapped(xs, f) <==> exists x :: x in xs && f(x) == y
  {
    if y in Mapped(xs, f) {
      var i :| 0 <= i < |xs| && Mapped(xs, f)[i] == y;
      assert xs[i] in xs;
    }
    if x :| x in xs && f(x) == y {
      var i :| 0 <= i < |xs| && xs[i] == x;
      assert Mapped(xs, f)[i] == y;
    }
  }

  lemma SortedMembers<T(!new), U(!new)>(xs: seq<T>, f: T -> U, before: (U, U) -> bool, y: U)
    ensures y in Sort(Mapped(xs, f), before) <==> exists x :: x in xs && f(x) == y
  {
    hide Sort, Mapped;
    SortPermutes(Mapped(xs, f), before);
    MappedMembers(xs, f, y);
  }

  lemma ArtifactListed(h: Host, i: Input, digest: Text)
    requires FindArtifact(i.artifacts, digest).Some?
    ensures exists a :: a in RecordOf(h, i).artifactRefs && a.artifactDigest == digest
  {
    hide Sort, Mapped, FindArtifact;
    var a := FindArtifact(i.artifacts, digest).value;
    SortedMembers(i.artifacts, RefOfArtifact, TextBefore(ArtifactRefKey), RefOfArtifact(a));
  }

  lemma RecordIsClosed(h: Host, i: Input)
    requires Build(h, i).Ok?
    ensures Closed(Build(h, i).value.material)
  {
    hide Sort, Mapped, FindArtifact, FindReference, UniqueIds, AcceptedEvents, Verified, Declared, Grants, Overrides;
    var r := RecordOf(h, i);
    forall v | v in r.verificationRefs
      ensures exists a :: a in r.artifactRefs && a.artifactDigest == v.artifactDigest
    {
      SortedMembers(i.verifications, RefOfVerification, TextBefore(VerificationRefKey), v);
      var x :| x in i.verifications && RefOfVerification(x) == v;
      assert VerificationHolds(h, i, x);
      ArtifactListed(h, i, v.artifactDigest);
    }
    forall x | x in r.exceptionRefs
      ensures exists a :: a in r.artifactRefs && a.artifactDigest == x.artifactDigest
    {
      SortedMembers(i.exceptions, RefOfException, TextBefore(ExceptionRefKey), x);
      var y :| y in i.exceptions && RefOfException(y) == x;
      assert ExceptionHolds(h, i, y);
      ArtifactListed(h, i, x.artifactDigest);
    }
    NoOverrides(h, i);
  }

  /** No exception stands beside a verification of the same artifact by the same verifier. */
  lemma NoOverrides(h: Host, i: Input)
    requires forall x :: x in i.exceptions ==> ExceptionHolds(h, i, x)
    ensures forall x, v :: x in RecordOf(h, i).exceptionRefs && v in RecordOf(h, i).verificationRefs ==>
      !(x.artifactDigest == v.artifactDigest && x.verifierId == v.verifierId && x.registrationDigest == v.registrationDigest)
  {
    hide Sort, Mapped, FindArtifact, FindReference, Declared, Grants;
    forall x, v | x in RecordOf(h, i).exceptionRefs && v in RecordOf(h, i).verificationRefs
      ensures !(x.artifactDigest == v.artifactDigest && x.verifierId == v.verifierId && x.registrationDigest == v.registrationDigest)
    {
      SortedMembers(i.exceptions, RefOfException, TextBefore(ExceptionRefKey), x);
      SortedMembers(i.verifications, RefOfVerification, TextBefore(VerificationRefKey), v);
      var y :| y in i.exceptions && RefOfException(y) == x;
      var w :| w in i.verifications && RefOfVerification(w) == v;
      assert ExceptionHolds(h, i, y) && !Overrides(w, y.material);
    }
  }
}
