/** The store as the source has it: nested maps and three claim indexes, updated in place. */
module ReservationStores {
  import opened Outcomes
  import opened Utf16
  import opened Keys
  import opened Reservations

  /** Why one more claim by `key` is refused. */
  function ClaimRefusal(claims: map<Text, Text>, key: Text, id: Text, maximum: int): Option<Error>
  {
    if key in claims then (if claims[key] == id then None else Some(BindingMismatch))
    else if |claims| >= maximum then Some(ClaimExhausted)
    else None
  }

  /** Subject, then authorization key, to reservation id. */
  type Entries = map<Key, map<Text, Text>>

  function Lookup(e: Entries, tenant: Text, subject: Text): map<Text, Text>
  {
    if Key(tenant, subject) in e then e[Key(tenant, subject)] else map[]
  }

  function Entered(e: Entries, tenant: Text, subject: Text, key: Text, id: Text): Entries
  {
    e[Key(tenant, subject) := Lookup(e, tenant, subject)[key := id]]
  }

  function EnteredAll(e: Entries, tenant: Text, subjects: seq<Text>, key: Text, id: Text): Entries
  {
    if subjects == [] then e
    else Entered(EnteredAll(e, tenant, subjects[..|subjects| - 1], key, id), tenant, subjects[|subjects| - 1], key, id)
  }

  /** Entering a list of subjects, repeated or not, claims each of them once and touches no other. */
  lemma {:induction false} EnteredOnce(e: Entries, tenant: Text, subjects: seq<Text>, key: Text, id: Text,
          t: Text, x: Text)
    ensures Lookup(EnteredAll(e, tenant, subjects, key, id), t, x)
            == if t == tenant && x in subjects then Lookup(e, t, x)[key := id] else Lookup(e, t, x)
    decreases |subjects|
  {
    if subjects != [] {
      var n := |subjects| - 1;
      EnteredOnce(e, tenant, subjects[..n], key, id, t, x);
      assert subjects == subjects[..n] + [subjects[n]];
    }
  }

  class ClaimIndex {
    var entries: Entries

    constructor ()
      ensures entries == map[]
    {
      entries := map[];
    }

    function Of(tenant: Text, subject: Text): map<Text, Text>
      reads this
    {
      Lookup(entries, tenant, subject)
    }

    method ReserveClaim(tenant: Text, subject: Text, key: Text, id: Text, maximum: int)
      returns (r: Option<Error>)
      modifies this
      ensures r == ClaimRefusal(old(Of(tenant, subject)), key, id, maximum)
      ensures r.Some? ==> entries == old(entries)
      ensures r.None? ==> entries == Entered(old(entries), tenant, subject, key, id)
    {
      var claims := Of(tenant, subject);
      if key in claims {
        if claims[key] != id { return Some(BindingMismatch); }
        assert claims[key := id] == claims;
        assert entries == Entered(entries, tenant, subject, key, id);
        return None;
      }
      if |claims| >= maximum { return Some(ClaimExhausted); }
      entries := entries[Key(tenant, subject) := claims[key := id]];
      return None;
    }

    method AssertClaimAvailable(tenant: Text, subject: Text, key: Text, id: Text, maximum: int)
      returns (r: Option<Error>)
      ensures r == ClaimRefusal(Of(tenant, subject), key, id, maximum)
    {
      var claims := Of(tenant, subject);
      if key in claims && claims[key] != id { return Some(BindingMismatch); }
      if key !in claims && |claims| >= maximum { return Some(ClaimExhausted); }
      return None;
    }
  }

  /** The index entry of a subject: the stored reservations that use it, with their ids. */
  function Claims(s: Store, tenant: Text, uses: (Reservation, Text) -> bool, subject: Text): map<Text, Text>
  {
    map k | k in OfTenant(s, tenant) && uses(OfTenant(s, tenant)[k], subject) :: OfTenant(s, tenant)[k].id
  }

  lemma ClaimsAreUsers(s: Store, tenant: Text, uses: (Reservation, Text) -> bool, subject: Text)
    ensures Claims(s, tenant, uses, subject).Keys == Users(s, tenant, uses, subject)
    ensures |Claims(s, tenant, uses, subject)| == |Users(s, tenant, uses, subject)|
  {
    assert Claims(s, tenant, uses, subject).Keys == Users(s, tenant, uses, subject);
    MapSize(Claims(s, tenant, uses, subject));
  }

  lemma {:induction false} MapSize(m: map<Text, Text>)
    ensures |m| == |m.Keys|
  {
    if m != map[] {
      var k :| k in m;
      MapSize(m - {k});
      assert (m - {k}).Keys == m.Keys - {k};
    }
  }

  lemma AddedClaim(s: Store, r: Reservation, uses: (Reservation, Text) -> bool, t: Text, x: Text)
    requires r.key !in OfTenant(s, r.tenant)
    ensures Claims(s[r.tenant := OfTenant(s, r.tenant)[r.key := r]], t, uses, x)
            == if t == r.tenant && uses(r, x) then Claims(s, t, uses, x)[r.key := r.id] else Claims(s, t, uses, x)
  {
  }

  lemma ReplacedClaims(s: Store, tenant: Text, used: Reservation, uses: (Reservation, Text) -> bool, t: Text, x: Text)
    requires used.key in OfTenant(s, tenant) && used.id == OfTenant(s, tenant)[used.key].id
    requires uses(used, x) == uses(OfTenant(s, tenant)[used.key], x)
    ensures Claims(Replaced(s, tenant, used), t, uses, x) == Claims(s, t, uses, x)
  {
  }

  /** Entering a new reservation's subjects keeps an index the projection of the stored reservations. */
  lemma StillProjects(s: Store, r: Reservation, uses: (Reservation, Text) -> bool, e: Entries, subjects: seq<Text>)
    requires r.key !in OfTenant(s, r.tenant)
    requires forall t, x :: Lookup(e, t, x) == Claims(s, t, uses, x)
    requires forall x :: uses(r, x) <==> x in subjects
    ensures var s', e' := s[r.tenant := OfTenant(s, r.tenant)[r.key := r]], EnteredAll(e, r.tenant, subjects, r.key, r.id);
            forall t, x :: Lookup(e', t, x) == Claims(s', t, uses, x)
  {
    hide Lookup, Claims;
    var s', e' := s[r.tenant := OfTenant(s, r.tenant)[r.key := r]], EnteredAll(e, r.tenant, subjects, r.key, r.id);
    forall t, x ensures Lookup(e', t, x) == Claims(s', t, uses, x) {
      EnteredOnce(e, r.tenant, subjects, r.key, r.id, t, x);
      AddedClaim(s, r, uses, t, x);
    }
  }

  function Approvals(r: Reservation): seq<Text> { if r.approvalId.Some? then [r.approvalId.value] else [] }

  lemma RoomForClaim(limits: Limits, s: Store, r: Reservation, i: nat)
    requires HasRoom(limits, s, r) && r.key !in OfTenant(s, r.tenant) && i < |r.secretRefIds|
    ensures var claims, limit := Claims(s, r.tenant, UsesSecret, r.secretRefIds[i]), limits.secret(r.tenant, r.secretRefIds[i]);
            limit.Some? && ClaimRefusal(claims, r.key, r.id, limit.value).None?
  {
    hide Claims;
    ClaimsAreUsers(s, r.tenant, UsesSecret, r.secretRefIds[i]);
    NotYetClaimed(s, r, UsesSecret, r.secretRefIds[i]);
    assert Room(s, r.tenant, UsesSecret, r.secretRefIds[i], limits.secret(r.tenant, r.secretRefIds[i]));
  }

  class ReservationStore {
    const limits: Limits
    var reservations: Store
    const grantClaims: ClaimIndex
    const approvalClaims: ClaimIndex
    const secretClaims: ClaimIndex

    constructor (limits: Limits)
      ensures Valid() && this.limits == limits && reservations == map[]
      ensures fresh(grantClaims) && fresh(approvalClaims) && fresh(secretClaims)
    {
      this.limits, reservations := limits, map[];
      grantClaims := new ClaimIndex();
      approvalClaims := new ClaimIndex();
      secretClaims := new ClaimIndex();
    }

    ghost predicate Indexes(index: ClaimIndex, uses: (Reservation, Text) -> bool)
      reads this`reservations, index
    {
      forall t, x :: index.Of(t, x) == Claims(reservations, t, uses, x)
    }

    /** The three indexes are exactly the projections of the stored reservations. */
    ghost predicate Valid()
      reads this, grantClaims, approvalClaims, secretClaims
    {
      && grantClaims != approvalClaims && grantClaims != secretClaims && approvalClaims != secretClaims
      && Filed(reservations)
      && Indexes(grantClaims, UsesGrant) && Indexes(approvalClaims, UsesApproval) && Indexes(secretClaims, UsesSecret)
    }

    method SecretLimitsKnown(r: Reservation) returns (known: bool)
      ensures known <==> forall i :: 0 <= i < |r.secretRefIds| ==> Known(limits.secret(r.tenant, r.secretRefIds[i]))
      ensures !known ==> !SecretsHaveRoom(limits, reservations, r)
    {
      for i := 0 to |r.secretRefIds|
        invariant forall j :: 0 <= j < i ==> Known(limits.secret(r.tenant, r.secretRefIds[j]))
      {
        if !Known(limits.secret(r.tenant, r.secretRefIds[i])) { return false; }
      }
      return true;
    }

    /** The check phase: all limits are known and every claim is available. */
    method CheckClaims(r: Reservation) returns (refusal: Option<Error>)
      requires Valid() && r.key !in OfTenant(reservations, r.tenant)
      ensures refusal == if HasRoom(limits, reservations, r) then None else Some(ClaimExhausted)
    {
      var grantLimit := limits.grant(r.tenant, r.grantId);
      if !Known(grantLimit) { return Some(ClaimExhausted); }
      var approvalLimit := if r.approvalId.Some? then limits.approval(r.tenant, r.approvalId.value) else None;
      if r.approvalId.Some? && !Known(approvalLimit) { return Some(ClaimExhausted); }
      var known := SecretLimitsKnown(r);
      if !known { return Some(ClaimExhausted); }
      hide Users, Claims, SecretsHaveRoom;
      ClaimsAreUsers(reservations, r.tenant, UsesGrant, r.grantId);
      refusal := grantClaims.AssertClaimAvailable(r.tenant, r.grantId, r.key, r.id, grantLimit.value);
      NotYetClaimed(reservations, r, UsesGrant, r.grantId);
      if refusal.Some? { return; }
      if r.approvalId.Some? {
        ClaimsAreUsers(reservations, r.tenant, UsesApproval, r.approvalId.value);
        NotYetClaimed(reservations, r, UsesApproval, r.approvalId.value);
        refusal := approvalClaims.AssertClaimAvailable(r.tenant, r.approvalId.value, r.key, r.id, approvalLimit.value);
        if refusal.Some? { return; }
      }
      refusal := CheckSecrets(r);
    }

    method CheckSecrets(r: Reservation) returns (refusal: Option<Error>)
      requires Indexes(secretClaims, UsesSecret) && r.key !in OfTenant(reservations, r.tenant)
      requires forall i :: 0 <= i < |r.secretRefIds| ==> Known(limits.secret(r.tenant, r.secretRefIds[i]))
      ensures refusal == if SecretsHaveRoom(limits, reservations, r) then None else Some(ClaimExhausted)
    {
      hide Users, Claims;
      for i := 0 to |r.secretRefIds|
        invariant forall j :: 0 <= j < i ==>
          Room(reservations, r.tenant, UsesSecret, r.secretRefIds[j], limits.secret(r.tenant, r.secretRefIds[j]))
      {
        ClaimsAreUsers(reservations, r.tenant, UsesSecret, r.secretRefIds[i]);
        NotYetClaimed(reservations, r, UsesSecret, r.secretRefIds[i]);
        refusal := secretClaims.AssertClaimAvailable(
          r.tenant, r.secretRefIds[i], r.key, r.id, limits.secret(r.tenant, r.secretRefIds[i]).value);
        if refusal.Some? { return; }
      }
      return None;
    }

    /** The commit phase for secrets; a secret named twice is claimed once. */
    method CommitSecrets(r: Reservation) returns (refusal: Option<Error>)
      requires Indexes(secretClaims, UsesSecret)
      requires r.key !in OfTenant(reservations, r.tenant) && HasRoom(limits, reservations, r)
      modifies secretClaims
      ensures refusal.None?
      ensures secretClaims.entries == EnteredAll(old(secretClaims.entries), r.tenant, r.secretRefIds, r.key, r.id)
    {
      hide Users, Claims, HasRoom, OfTenant, Lookup;
      for i := 0 to |r.secretRefIds|
        invariant secretClaims.entries == EnteredAll(old(secretClaims.entries), r.tenant, r.secretRefIds[..i], r.key, r.id)
      {
        var subject := r.secretRefIds[i];
        assert r.secretRefIds[..i + 1][..i] == r.secretRefIds[..i];
        RoomForClaim(limits, reservations, r, i);
        EnteredOnce(old(secretClaims.entries), r.tenant, r.secretRefIds[..i], r.key, r.id, r.tenant, subject);
        assert Claims(reservations, r.tenant, UsesSecret, subject) == old(secretClaims.Of(r.tenant, subject));
        refusal := secretClaims.ReserveClaim(r.tenant, subject, r.key, r.id, limits.secret(r.tenant, subject).value);
        if refusal.Some? { return; }
      }
      assert r.secretRefIds[..|r.secretRefIds|] == r.secretRefIds;
      return None;
    }

    /** The commit phase: every claim is entered, and the checks repeated on the way cannot fail. */
    method CommitClaims(r: Reservation) returns (refusal: Option<Error>)
      requires Valid() && r.key !in OfTenant(reservations, r.tenant) && HasRoom(limits, reservations, r)
      modifies grantClaims, approvalClaims, secretClaims
      ensures refusal.None?
      ensures grantClaims.entries == EnteredAll(old(grantClaims.entries), r.tenant, [r.grantId], r.key, r.id)
      ensures approvalClaims.entries == EnteredAll(old(approvalClaims.entries), r.tenant, Approvals(r), r.key, r.id)
      ensures secretClaims.entries == EnteredAll(old(secretClaims.entries), r.tenant, r.secretRefIds, r.key, r.id)
    {
      hide Users, Claims;
      ClaimsAreUsers(reservations, r.tenant, UsesGrant, r.grantId);
      NotYetClaimed(reservations, r, UsesGrant, r.grantId);
      var grantLimit := limits.grant(r.tenant, r.grantId);
      refusal := grantClaims.ReserveClaim(r.tenant, r.grantId, r.key, r.id, grantLimit.value);
      if refusal.Some? { return; }
      if r.approvalId.Some? {
        ClaimsAreUsers(reservations, r.tenant, UsesApproval, r.approvalId.value);
        NotYetClaimed(reservations, r, UsesApproval, r.approvalId.value);
        var approvalLimit := limits.approval(r.tenant, r.approvalId.value);
        refusal := approvalClaims.ReserveClaim(r.tenant, r.approvalId.value, r.key, r.id, approvalLimit.value);
        if refusal.Some? { return; }
      }
      refusal := CommitSecrets(r);
    }

    method Reserve(r: Reservation, at: int) returns (answer: Result<Reservation, Error>)
      requires Valid()
      modifies this, grantClaims, approvalClaims, secretClaims
      ensures Valid()
      ensures (answer, reservations) == Reservations.Reserve(limits, old(reservations), r, at)
      ensures answer.Err? ==>
        && grantClaims.entries == old(grantClaims.entries) && approvalClaims.entries == old(approvalClaims.entries)
        && secretClaims.entries == old(secretClaims.entries)
    {
      if r.state != Reserved { return Err(BindingMismatch); }
      if at >= r.expiresAt { return Err(Expired); }
      var mine := if r.tenant in reservations then reservations[r.tenant] else map[];
      if r.key in mine {
        if mine[r.key] != r { return Err(BindingMismatch); }
        return Ok(mine[r.key]);
      }
      if exists k :: k in mine && mine[k].id == r.id { return Err(Duplicate); }
      hide HasRoom, Claims, Lookup, EnteredAll, Entered;
      var refusal := CheckClaims(r);
      if refusal.Some? { return Err(refusal.value); }
      refusal := CommitClaims(r);
      if refusal.Some? { return Err(ClaimExhausted); }
      ghost var before := reservations;
      reservations := reservations[r.tenant := mine[r.key := r]];
      StillProjects(before, r, UsesGrant, old(grantClaims.entries), [r.grantId]);
      StillProjects(before, r, UsesApproval, old(approvalClaims.entries), Approvals(r));
      StillProjects(before, r, UsesSecret, old(secretClaims.entries), r.secretRefIds);
      FiledAgain(before, r);
      return Ok(r);
    }

    method Consume(tenant: Text, key: Text, at: int) returns (answer: Result<Reservation, Error>)
      requires Valid()
      modifies this`reservations
      ensures Valid()
      ensures (answer, reservations) == Reservations.Consume(old(reservations), tenant, key, at)
    {
      if tenant !in reservations || key !in reservations[tenant] { return Err(BindingMismatch); }
      var existing := reservations[tenant][key];
      if existing.state.Consumed? { return Ok(existing); }
      if at >= existing.expiresAt { return Err(Expired); }
      var consumed := existing.(state := Consumed(at));
      ghost var before := reservations;
      reservations := reservations[tenant := reservations[tenant][key := consumed]];
      hide Claims;
      assert reservations == Replaced(before, tenant, consumed);
      ReplacedFiled(before, tenant, consumed);
      forall t, x
        ensures Claims(reservations, t, UsesGrant, x) == Claims(before, t, UsesGrant, x)
        ensures Claims(reservations, t, UsesApproval, x) == Claims(before, t, UsesApproval, x)
        ensures Claims(reservations, t, UsesSecret, x) == Claims(before, t, UsesSecret, x)
      {
        ReplacedClaims(before, tenant, consumed, UsesGrant, t, x);
        ReplacedClaims(before, tenant, consumed, UsesApproval, t, x);
        ReplacedClaims(before, tenant, consumed, UsesSecret, t, x);
      }
      return Ok(consumed);
    }
  }

  lemma NotYetClaimed(s: Store, r: Reservation, uses: (Reservation, Text) -> bool, subject: Text)
    requires r.key !in OfTenant(s, r.tenant)
    ensures r.key !in Claims(s, r.tenant, uses, subject)
  {
  }
}
