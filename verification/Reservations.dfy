/** The in-memory authorization reservation store: what reservations promise, on values. */
module Reservations {
  import opened Outcomes
  import opened Utf16

  datatype ReservationState = Reserved | Consumed(at: int) | Lapsed | Revoked

  /** `rest` stands for the bindings that the store only compares. */
  datatype Reservation = Reservation(
    id: Text, key: Text, tenant: Text, grantId: Text, approvalId: Option<Text>, secretRefIds: seq<Text>,
    state: ReservationState, expiresAt: int, rest: Text)

  datatype Error = BindingMismatch | Expired | ClaimExhausted | Duplicate

  /** The fixed maximum uses of each grant, approval and secret; none when it is unknown. */
  datatype Limits = Limits(
    grant: (Text, Text) -> Option<int>, approval: (Text, Text) -> Option<int>, secret: (Text, Text) -> Option<int>)

  /** Tenant, then authorization key. */
  type Store = map<Text, map<Text, Reservation>>

  function OfTenant(s: Store, tenant: Text): map<Text, Reservation>
  {
    if tenant in s then s[tenant] else map[]
  }

  predicate UsesGrant(r: Reservation, grantId: Text) { r.grantId == grantId }

  predicate UsesApproval(r: Reservation, approvalId: Text) { r.approvalId == Some(approvalId) }

  predicate UsesSecret(r: Reservation, secretRefId: Text) { secretRefId in r.secretRefIds }

  /** The keys of the tenant's reservations that use the subject. */
  function Users(s: Store, tenant: Text, uses: (Reservation, Text) -> bool, subject: Text): set<Text>
  {
    set k | k in OfTenant(s, tenant) && uses(OfTenant(s, tenant)[k], subject)
  }

  predicate Known(limit: Option<int>) { limit.Some? && limit.value >= 1 }

  /** One more use stays within the limit. */
  predicate Room(s: Store, tenant: Text, uses: (Reservation, Text) -> bool, subject: Text, limit: Option<int>)
  {
    Known(limit) && |Users(s, tenant, uses, subject)| < limit.value
  }

  predicate SecretsHaveRoom(limits: Limits, s: Store, r: Reservation)
  {
    forall i :: 0 <= i < |r.secretRefIds| ==>
      Room(s, r.tenant, UsesSecret, r.secretRefIds[i], limits.secret(r.tenant, r.secretRefIds[i]))
  }

  predicate HasRoom(limits: Limits, s: Store, r: Reservation)
  {
    && Room(s, r.tenant, UsesGrant, r.grantId, limits.grant(r.tenant, r.grantId))
    && (r.approvalId.Some? ==>
          Room(s, r.tenant, UsesApproval, r.approvalId.value, limits.approval(r.tenant, r.approvalId.value)))
    && SecretsHaveRoom(limits, s, r)
  }

  predicate IdTaken(s: Store, tenant: Text, id: Text)
  {
    exists k :: k in OfTenant(s, tenant) && OfTenant(s, tenant)[k].id == id
  }

  /** `reserve`: the reservation answered and the store after it. A failure changes nothing. */
  function Reserve(limits: Limits, s: Store, r: Reservation, at: int): (Result<Reservation, Error>, Store)
  {
    var mine := OfTenant(s, r.tenant);
    if r.state != Reserved then (Err(BindingMismatch), s)
    else if at >= r.expiresAt then (Err(Expired), s)
    else if r.key in mine then
      if mine[r.key] == r then (Ok(r), s) else (Err(BindingMismatch), s)
    else if IdTaken(s, r.tenant, r.id) then (Err(Duplicate), s)
    else if !HasRoom(limits, s, r) then (Err(ClaimExhausted), s)
    else (Ok(r), s[r.tenant := mine[r.key := r]])
  }

  /** `consume` */
  function Consume(s: Store, tenant: Text, key: Text, at: int): (Result<Reservation, Error>, Store)
  {
    var mine := OfTenant(s, tenant);
    if key !in mine then (Err(BindingMismatch), s)
    else if mine[key].state.Consumed? then (Ok(mine[key]), s)
    else if at >= mine[key].expiresAt then (Err(Expired), s)
    else
      var used := mine[key].(state := Consumed(at));
      (Ok(used), s[tenant := mine[key := used]])
  }

  // ---------- what every run of the store keeps ----------

  /** Filed under their own tenant and key, with an id of their own, reserved or consumed. */
  ghost predicate Filed(s: Store)
  {
    && (forall t, k :: t in s && k in s[t] ==> s[t][k].tenant == t && s[t][k].key == k)
    && forall t, k, j :: t in s && k in s[t] && j in s[t] && s[t][k].id == s[t][j].id ==> k == j
  }

  ghost predicate WithinLimit(s: Store, uses: (Reservation, Text) -> bool, limit: (Text, Text) -> Option<int>)
  {
    forall t, x :: Users(s, t, uses, x) == {} || (limit(t, x).Some? && |Users(s, t, uses, x)| <= limit(t, x).value)
  }

  ghost predicate Sound(limits: Limits, s: Store)
  {
    && Filed(s) && WithinLimit(s, UsesGrant, limits.grant) && WithinLimit(s, UsesApproval, limits.approval)
    && WithinLimit(s, UsesSecret, limits.secret)
  }

  lemma AddedUser(s: Store, r: Reservation, uses: (Reservation, Text) -> bool, t: Text, x: Text)
    requires r.key !in OfTenant(s, r.tenant)
    ensures var s' := s[r.tenant := OfTenant(s, r.tenant)[r.key := r]];
            && Users(s', t, uses, x)
               == Users(s, t, uses, x) + (if t == r.tenant && uses(r, x) then {r.key} else {})
            && |Users(s', t, uses, x)| == |Users(s, t, uses, x)| + (if t == r.tenant && uses(r, x) then 1 else 0)
  {
    var s' := s[r.tenant := OfTenant(s, r.tenant)[r.key := r]];
    assert Users(s', t, uses, x) == Users(s, t, uses, x) + (if t == r.tenant && uses(r, x) then {r.key} else {});
  }

  lemma AddedWithinLimit(s: Store, r: Reservation, uses: (Reservation, Text) -> bool,
          limit: (Text, Text) -> Option<int>)
    requires r.key !in OfTenant(s, r.tenant) && WithinLimit(s, uses, limit)
    requires forall x :: uses(r, x) ==> Room(s, r.tenant, uses, x, limit(r.tenant, x))
    ensures WithinLimit(s[r.tenant := OfTenant(s, r.tenant)[r.key := r]], uses, limit)
  {
    hide Users;
    forall t, x { AddedUser(s, r, uses, t, x); }
  }

  lemma ReserveKeepsSound(limits: Limits, s: Store, r: Reservation, at: int)
    requires Sound(limits, s)
    ensures Sound(limits, Reserve(limits, s, r, at).1)
  {
    if Reserve(limits, s, r, at).1 != s {
      hide WithinLimit, Users, Room;
      assert Filed(Reserve(limits, s, r, at).1) by { FiledAgain(s, r); }
      AddedWithinLimit(s, r, UsesGrant, limits.grant);
      AddedWithinLimit(s, r, UsesApproval, limits.approval);
      AddedWithinLimit(s, r, UsesSecret, limits.secret);
    }
  }

  lemma FiledAgain(s: Store, r: Reservation)
    requires Filed(s) && !IdTaken(s, r.tenant, r.id)
    ensures Filed(s[r.tenant := OfTenant(s, r.tenant)[r.key := r]])
  {
  }

  lemma ConsumeKeepsSound(limits: Limits, s: Store, tenant: Text, key: Text, at: int)
    requires Sound(limits, s)
    ensures Sound(limits, Consume(s, tenant, key, at).1)
  {
    if Consume(s, tenant, key, at).1 != s {
      hide Users;
      var used := OfTenant(s, tenant)[key].(state := Consumed(at));
      forall t, x
        ensures Users(Replaced(s, tenant, used), t, UsesGrant, x) == Users(s, t, UsesGrant, x)
        ensures Users(Replaced(s, tenant, used), t, UsesApproval, x) == Users(s, t, UsesApproval, x)
        ensures Users(Replaced(s, tenant, used), t, UsesSecret, x) == Users(s, t, UsesSecret, x)
      {
        ReplacedUsers(s, tenant, used, UsesGrant, t, x);
        ReplacedUsers(s, tenant, used, UsesApproval, t, x);
        ReplacedUsers(s, tenant, used, UsesSecret, t, x);
      }
      ReplacedFiled(s, tenant, used);
    }
  }

  function Replaced(s: Store, tenant: Text, r: Reservation): Store
  {
    s[tenant := OfTenant(s, tenant)[r.key := r]]
  }

  lemma ReplacedUsers(s: Store, tenant: Text, used: Reservation, uses: (Reservation, Text) -> bool, t: Text, x: Text)
    requires used.key in OfTenant(s, tenant) && uses(used, x) == uses(OfTenant(s, tenant)[used.key], x)
    ensures Users(Replaced(s, tenant, used), t, uses, x) == Users(s, t, uses, x)
  {
  }

  lemma ReplacedFiled(s: Store, tenant: Text, used: Reservation)
    requires Filed(s) && used.key in OfTenant(s, tenant) && used.id == OfTenant(s, tenant)[used.key].id
        && used.tenant == tenant
    ensures Filed(Replaced(s, tenant, used))
  {
  }

  datatype Op = ReserveOp(reservation: Reservation, at: int) | ConsumeOp(tenant: Text, key: Text, at: int)

  function Step(limits: Limits, s: Store, op: Op): Store
  {
    match op
    case ReserveOp(r, at) => Reserve(limits, s, r, at).1
    case ConsumeOp(tenant, key, at) => Consume(s, tenant, key, at).1
  }

  function Run(limits: Limits, s: Store, ops: seq<Op>): Store
    decreases ops
  {
    if ops == [] then s else Run(limits, Step(limits, s, ops[0]), ops[1..])
  }

  /** A sound store stays sound: nothing is used beyond its maximum, and ids stay unique. */
  lemma {:induction false} RunsStaySound(limits: Limits, s: Store, ops: seq<Op>)
    requires Sound(limits, s)
    ensures Sound(limits, Run(limits, s, ops))
    decreases ops
  {
    hide Sound, Reserve, Consume;
    if ops != [] {
      match ops[0] {
        case ReserveOp(r, at) => ReserveKeepsSound(limits, s, r, at);
        case ConsumeOp(tenant, key, at) => ConsumeKeepsSound(limits, s, tenant, key, at);
      }
      RunsStaySound(limits, Step(limits, s, ops[0]), ops[1..]);
    }
  }

  /** In every run from the empty store, no grant, approval or secret is used beyond its maximum. */
  lemma LimitsHold(limits: Limits, ops: seq<Op>, tenant: Text, subject: Text)
    ensures var s := Run(limits, map[], ops);
            && Filed(s)
            && (Users(s, tenant, UsesGrant, subject) != {} ==>
                  limits.grant(tenant, subject).Some?
                  && |Users(s, tenant, UsesGrant, subject)| <= limits.grant(tenant, subject).value)
            && (Users(s, tenant, UsesApproval, subject) != {} ==>
                  limits.approval(tenant, subject).Some?
                  && |Users(s, tenant, UsesApproval, subject)| <= limits.approval(tenant, subject).value)
            && (Users(s, tenant, UsesSecret, subject) != {} ==>
                  limits.secret(tenant, subject).Some?
                  && |Users(s, tenant, UsesSecret, subject)| <= limits.secret(tenant, subject).value)
  {
    hide Run, Users;
    EmptyStoreIsSound(limits);
    RunsStaySound(limits, map[], ops);
  }

  lemma EmptyStoreIsSound(limits: Limits)
    ensures Sound(limits, map[])
  {
  }

  function TenantOf(op: Op): Text { if op.ReserveOp? then op.reservation.tenant else op.tenant }

  /** A tenant's reservations depend on that tenant's own operations only. */
  lemma {:induction false} TenantsAreIsolated(limits: Limits, s: Store, ops: seq<Op>, tenant: Text)
    requires forall i :: 0 <= i < |ops| ==> TenantOf(ops[i]) != tenant
    ensures OfTenant(Run(limits, s, ops), tenant) == OfTenant(s, tenant)
    decreases ops
  {
    if ops != [] {
      TenantsAreIsolated(limits, Step(limits, s, ops[0]), ops[1..], tenant);
    }
  }

  /** Once stored, a reservation only ever becomes consumed, and keeps everything else. */
  predicate Persists(r: Reservation, later: Reservation)
  {
    later == r || (later.state.Consumed? && !r.state.Consumed? && later == r.(state := later.state))
  }

  lemma {:induction false} ReservationsPersist(limits: Limits, s: Store, ops: seq<Op>, tenant: Text, key: Text)
    requires key in OfTenant(s, tenant)
    ensures key in OfTenant(Run(limits, s, ops), tenant)
    ensures Persists(OfTenant(s, tenant)[key], OfTenant(Run(limits, s, ops), tenant)[key])
    decreases ops
  {
    if ops != [] {
      var s' := Step(limits, s, ops[0]);
      assert key in OfTenant(s', tenant) && Persists(OfTenant(s, tenant)[key], OfTenant(s', tenant)[key]);
      ReservationsPersist(limits, s', ops[1..], tenant, key);
    }
  }

  /** What a repeated `reserve` is answered with: the stored reservation until it is consumed, and never a second charge. */
  lemma ReplayAnswersOnce(limits: Limits, s: Store, r: Reservation, at: int, ops: seq<Op>, later: int)
    requires Reserve(limits, s, r, at).0.Ok?
    ensures var q := Run(limits, Reserve(limits, s, r, at).1, ops);
            && r.key in OfTenant(q, r.tenant) && Reserve(limits, q, r, later).1 == q
            && Reserve(limits, q, r, later).0 == (if later >= r.expiresAt then Err(Expired)
                                                  else if OfTenant(q, r.tenant)[r.key] == r then Ok(r)
                                                  else Err(BindingMismatch))
            && (OfTenant(q, r.tenant)[r.key] != r ==> OfTenant(q, r.tenant)[r.key].state.Consumed?)
  {
    ReservationsPersist(limits, Reserve(limits, s, r, at).1, ops, r.tenant, r.key);
  }

  /** A reservation consumed in time is there for good, and the `reserve` that made it is refused as a mismatch. */
  lemma RepeatAfterConsumeIsRefused(limits: Limits, s: Store, r: Reservation, at: int, used: int, ops: seq<Op>,
      later: int)
    requires Reserve(limits, s, r, at).0.Ok? && used < r.expiresAt && later < r.expiresAt
    ensures var run := [ReserveOp(r, at), ConsumeOp(r.tenant, r.key, used)] + ops;
            var q := Run(limits, s, run);
            && r.key in OfTenant(q, r.tenant) && OfTenant(q, r.tenant)[r.key] == r.(state := Consumed(used))
            && Reserve(limits, q, r, later) == (Err(BindingMismatch), q)
  {
    var s1 := Reserve(limits, s, r, at).1;
    var s2 := Consume(s1, r.tenant, r.key, used).1;
    var rest := [ConsumeOp(r.tenant, r.key, used)] + ops;
    assert ([ReserveOp(r, at), ConsumeOp(r.tenant, r.key, used)] + ops)[1..] == rest && rest[1..] == ops;
    assert Run(limits, s, [ReserveOp(r, at), ConsumeOp(r.tenant, r.key, used)] + ops) == Run(limits, s1, rest);
    assert Run(limits, s1, rest) == Run(limits, s2, ops);
    ReservationsPersist(limits, s2, ops, r.tenant, r.key);
  }

  // ---------- what is answered, and when ----------

  /** The tenant's reservations that name the subject are fewer than its maximum, which is known and positive. */
  predicate OneMore(limit: Option<int>, users: set<Text>) { limit.Some? && 1 <= limit.value && |users| < limit.value }

  /**
   A reservation is taken in time if it is the one already stored, or if it is new by key and by id and its grant,
   its approval and each of its secrets have a use left.
   */
  lemma ReserveExactly(limits: Limits, s: Store, r: Reservation, at: int)
    ensures
      var t, mine := r.tenant, OfTenant(s, r.tenant);
      Reserve(limits, s, r, at).0.Ok? <==>
      && r.state == Reserved && at < r.expiresAt
      && (if r.key in mine then mine[r.key] == r
          else
            && (forall k :: k in mine ==> mine[k].id != r.id)
            && OneMore(limits.grant(t, r.grantId), set k | k in mine && mine[k].grantId == r.grantId)
            && (r.approvalId.Some? ==>
                  OneMore(limits.approval(t, r.approvalId.value), set k | k in mine
                      && mine[k].approvalId == r.approvalId))
            && forall secret :: secret in r.secretRefIds ==>
                 OneMore(limits.secret(t, secret), set k | k in mine && secret in mine[k].secretRefIds))
    ensures Reserve(limits, s, r, at).0.Ok? ==> Reserve(limits, s, r, at).0.value == r
    ensures at >= r.expiresAt && r.state == Reserved ==> Reserve(limits, s, r, at) == (Err(Expired), s)
  {
    var t, mine := r.tenant, OfTenant(s, r.tenant);
    assert Users(s, t, UsesGrant, r.grantId) == set k | k in mine && mine[k].grantId == r.grantId;
    if r.approvalId.Some? {
      assert Users(s, t, UsesApproval, r.approvalId.value) == set k | k in mine && mine[k].approvalId == r.approvalId;
    }
    forall secret | secret in r.secretRefIds
      ensures Users(s, t, UsesSecret, secret) == set k | k in mine && secret in mine[k].secretRefIds
    {
    }
  }

  /** The error of a refused reservation, and that refusal changes nothing. */
  lemma ReserveRefusedExactly(limits: Limits, s: Store, r: Reservation, at: int)
    requires Reserve(limits, s, r, at).0.Err?
    ensures Reserve(limits, s, r, at).1 == s
    ensures
      var mine := OfTenant(s, r.tenant);
      Reserve(limits, s, r, at).0.error ==
      if r.state != Reserved then BindingMismatch
      else if r.expiresAt <= at then Expired
      else if r.key in mine then BindingMismatch
      else if exists k :: k in mine && mine[k].id == r.id then Duplicate
      else ClaimExhausted
  {
    hide HasRoom;
  }

  /** None of the operations consumes the key. */
  predicate LeavesUnused(ops: seq<Op>, tenant: Text, key: Text)
  {
    forall i :: 0 <= i < |ops| && ops[i].ConsumeOp? ==> ops[i].tenant != tenant || ops[i].key != key
  }

  lemma {:induction false} UnusedStays(limits: Limits, s: Store, ops: seq<Op>, tenant: Text, key: Text)
    requires key in OfTenant(s, tenant) && LeavesUnused(ops, tenant, key)
    ensures key in OfTenant(Run(limits, s, ops), tenant)
        && OfTenant(Run(limits, s, ops), tenant)[key] == OfTenant(s, tenant)[key]
    decreases ops
  {
    if ops != [] {
      assert ops[0].ConsumeOp? ==> ops[0].tenant != tenant || ops[0].key != key;
      UnusedStays(limits, Step(limits, s, ops[0]), ops[1..], tenant, key);
    }
  }

  /**
   What was reserved and not yet consumed is consumed until it expires and refused from then on; once consumed, it is
   answered as it was consumed, however late.
   */
  lemma ConsumedOnceInTime(limits: Limits, s: Store, r: Reservation, at: int, ops: seq<Op>, used: int, ops': seq<Op>,
      again: int)
    requires Reserve(limits, s, r, at).0.Ok? && LeavesUnused(ops, r.tenant, r.key)
    ensures
      var q := Run(limits, Reserve(limits, s, r, at).1, ops);
      && (used >= r.expiresAt ==> Consume(q, r.tenant, r.key, used) == (Err(Expired), q))
      && (used < r.expiresAt ==>
            var spent := r.(state := Consumed(used));
            && Consume(q, r.tenant, r.key, used).0 == Ok(spent)
            && var later := Run(limits, Consume(q, r.tenant, r.key, used).1, ops');
               Consume(later, r.tenant, r.key, again) == (Ok(spent), later))
  {
    hide Run;
    var s1 := Reserve(limits, s, r, at).1;
    UnusedStays(limits, s1, ops, r.tenant, r.key);
    var q := Run(limits, s1, ops);
    if used < r.expiresAt {
      ReservationsPersist(limits, Consume(q, r.tenant, r.key, used).1, ops', r.tenant, r.key);
    }
  }

  /** Nothing is consumed that was not reserved. */
  lemma OnlyReservedIsConsumed(s: Store, tenant: Text, key: Text, at: int)
    ensures key !in OfTenant(s, tenant) ==> Consume(s, tenant, key, at) == (Err(BindingMismatch), s)
  {
  }
}
