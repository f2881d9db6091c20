/** The in-memory admission controller: reservations of quota per scope, replayed commands, and lease expiry. */
module Admission {
  import opened Outcomes
  import opened Utf16

  datatype Scope = Scope(tenant: Text, principalType: Text, principalId: Text, category: Text, resourceKey: Text)

  datatype Request = Request(scope: Scope, commandId: Option<Text>, amount: real, duration: int)

  datatype State = Reserved | Released(at: int) | Expired

  datatype Reservation = Reservation(
    id: Text, scope: Scope, commandId: Option<Text>, amount: real, state: State, token: nat, reservedAt: int, expiresAt: int)

  datatype Limit = Limit(maximum: real, retryAfter: int)

  datatype Outcome =
    | Admitted(reservation: Reservation)
    | Denied
    | LimitReached(retryAfter: int)
    | Malformed
    | CorruptReplay
    | CommandReused
    | IdTaken

  datatype ReplayKey = ReplayKey(scope: Scope, commandId: Text)

  /** Each tenant's reservations in insertion order, and the reservation id of each command. */
  datatype Quota = Quota(reservations: map<Text, seq<Reservation>>, replays: map<ReplayKey, Text>)

  const EMPTY: Quota := Quota(map[], map[])

  function OfTenant(q: Quota, tenant: Text): seq<Reservation>
  {
    if tenant in q.reservations then q.reservations[tenant] else []
  }

  predicate ActiveAt(r: Reservation, scope: Scope, at: int)
  {
    r.state.Reserved? && r.expiresAt > at && r.scope == scope
  }

  /** The addition of the engine, which rounds. */
  type Adder = (real, real) -> real

  /** The reserved amount of a scope that is unexpired at an instant, as the engine adds it up. */
  function Active(add: Adder, list: seq<Reservation>, scope: Scope, at: int): real
  {
    if list == [] then 0.0 else
      var last, before := list[|list| - 1], Active(add, list[..|list| - 1], scope, at);
      if ActiveAt(last, scope, at) then add(before, last.amount) else before
  }

  function Find(list: seq<Reservation>, id: Text): (i: Option<nat>)
    ensures i.Some? ==> i.value < |list| && list[i.value].id == id
    ensures i.None? ==> forall j :: 0 <= j < |list| ==> list[j].id != id
  {
    if list == [] then None
    else if list[|list| - 1].id == id then Some(|list| - 1)
    else Find(list[..|list| - 1], id)
  }

  /** The request that a stored reservation answers. */
  function RequestOf(r: Reservation): Request { Request(r.scope, r.commandId, r.amount, r.expiresAt - r.reservedAt) }

  function Fresh(req: Request, id: Text, now: int): Reservation
  {
    Reservation(id, req.scope, req.commandId, req.amount, Reserved, 1, now, now + req.duration)
  }

  function Min(a: int, b: int): int { if a < b then a else b }

  predicate WellFormedRequest(req: Request) { req.amount > 0.0 && req.duration > 0 }

  predicate IsReplay(q: Quota, req: Request)
  {
    req.commandId.Some? && ReplayKey(req.scope, req.commandId.value) in q.replays
  }

  /** The answer to a command already seen: its reservation, whatever its state now. */
  function Replayed(q: Quota, req: Request): Outcome
    requires IsReplay(q, req)
  {
    var list := OfTenant(q, req.scope.tenant);
    match Find(list, q.replays[ReplayKey(req.scope, req.commandId.value)])
    case None => CorruptReplay
    case Some(i) => if RequestOf(list[i]) == req then Admitted(list[i]) else CommandReused
  }

  function Stored(q: Quota, req: Request, id: Text, now: int): Quota
  {
    Quota(q.reservations[req.scope.tenant := OfTenant(q, req.scope.tenant) + [Fresh(req, id, now)]],
          if req.commandId.Some? then q.replays[ReplayKey(req.scope, req.commandId.value) := id] else q.replays)
  }

  /** `reserve`; `id` is the next id of the generator. */
  function Reserve(add: Adder, limits: map<Text, Limit>, q: Quota, req: Request, id: Text, now: int): (Outcome, Quota)
  {
    if !WellFormedRequest(req) then (Malformed, q)
    else if req.scope.category !in limits then (Denied, q)
    else if IsReplay(q, req) then (Replayed(q, req), q)
    else
      var limit, list := limits[req.scope.category], OfTenant(q, req.scope.tenant);
      if add(Active(add, list, req.scope, now), req.amount) > limit.maximum then (LimitReached(Min(limit.retryAfter, 3600)), q)
      else if Find(list, id).Some? then (IdTaken, q)
      else (Admitted(Fresh(req, id, now)), Stored(q, req, id, now))
  }

  /** `release`: false when the binding is invalid. */
  function Release(q: Quota, tenant: Text, id: Text, token: nat, at: int): (bool, Quota)
  {
    var list := OfTenant(q, tenant);
    match Find(list, id)
    case None => (false, q)
    case Some(i) =>
      if list[i].token != token then (false, q)
      else if !list[i].state.Reserved? then (true, q)
      else (true, q.(reservations := q.reservations[tenant := list[i := list[i].(state := Released(at))]]))
  }

  predicate Lapses(r: Reservation, at: int) { r.state.Reserved? && r.expiresAt <= at }

  function Lapsed(r: Reservation, at: int): Reservation { if Lapses(r, at) then r.(state := Expired) else r }

  function LapsedList(list: seq<Reservation>, at: int): (s: seq<Reservation>)
  {
    seq(|list|, i requires 0 <= i < |list| => Lapsed(list[i], at))
  }

  function CountLapses(list: seq<Reservation>, at: int): nat
  {
    if list == [] then 0 else CountLapses(list[..|list| - 1], at) + if Lapses(list[|list| - 1], at) then 1 else 0
  }

  /** `reconcileExpired` */
  function Reconcile(q: Quota, at: int): Quota
  {
    q.(reservations := map t | t in q.reservations :: LapsedList(q.reservations[t], at))
  }

  predicate ValidLimit(limit: Limit) { limit.maximum > 0.0 && limit.retryAfter >= 1 }

  predicate PositiveLimits(limits: map<Text, Limit>) { forall c :: c in limits ==> ValidLimit(limits[c]) }

  function LimitsOf(entries: seq<(Text, Limit)>): map<Text, Limit>
  {
    if entries == [] then map[]
    else LimitsOf(entries[..|entries| - 1])[entries[|entries| - 1].0 := entries[|entries| - 1].1]
  }

  /** Entry `i` is the last of the category. */
  ghost predicate LastOf(entries: seq<(Text, Limit)>, i: nat, category: Text)
  {
    && i < |entries| && entries[i].0 == category
    && forall j :: i < j < |entries| ==> entries[j].0 != category
  }

  /** The limit of a category is that of its last entry. */
  lemma {:induction false} LimitsAreLast(entries: seq<(Text, Limit)>, category: Text)
    ensures category in LimitsOf(entries) <==> exists i: nat :: LastOf(entries, i, category)
    ensures forall i: nat :: LastOf(entries, i, category) ==> LimitsOf(entries)[category] == entries[i].1
    decreases |entries|
  {
    if entries != [] {
      var n := |entries| - 1;
      LimitsAreLast(entries[..n], category);
      if entries[n].0 == category {
        assert LastOf(entries, n, category);
      } else {
        forall i: nat ensures LastOf(entries, i, category) <==> LastOf(entries[..n], i, category) { LastBefore(entries, i, category); }
      }
    }
  }

  lemma LastBefore(entries: seq<(Text, Limit)>, i: nat, category: Text)
    requires entries != [] && entries[|entries| - 1].0 != category
    ensures LastOf(entries, i, category) <==> LastOf(entries[..|entries| - 1], i, category)
  {
    var n := |entries| - 1;
    assert forall j :: 0 <= j < n ==> entries[..n][j] == entries[j];
    assert LastOf(entries, i, category) ==> i != n;
  }

  /** The limits by category, the last entry of a category winning; none when some entry is invalid. */
  method CreateAdmissionController(add: Adder, entries: seq<(Text, Limit)>) returns (controller: Option<AdmissionController>)
    ensures controller.None? <==>
            exists i :: 0 <= i < |entries| && (entries[i].1.maximum <= 0.0 || entries[i].1.retryAfter < 1)
    ensures controller.Some? ==>
      && fresh(controller.value) && controller.value.State() == EMPTY && PositiveLimits(controller.value.limits)
      && controller.value.add == add && controller.value.limits == LimitsOf(entries)
  {
    var limits: map<Text, Limit> := map[];
    for n := 0 to |entries|
      invariant forall i :: 0 <= i < n ==> ValidLimit(entries[i].1)
      invariant PositiveLimits(limits) && limits == LimitsOf(entries[..n])
    {
      assert entries[..n + 1][..n] == entries[..n];
      if !ValidLimit(entries[n].1) { return None; }
      limits := limits[entries[n].0 := entries[n].1];
    }
    assert entries[..|entries|] == entries;
    var made := new AdmissionController(add, limits);
    return Some(made);
  }

  class AdmissionController {
    const add: Adder
    const limits: map<Text, Limit>
    var reservations: map<Text, seq<Reservation>>
    var replays: map<ReplayKey, Text>

    constructor (add: Adder, limits: map<Text, Limit>)
      ensures this.add == add && this.limits == limits && State() == EMPTY
    {
      this.add, this.limits, reservations, replays := add, limits, map[], map[];
    }

    function State(): Quota
      reads this
    {
      Quota(reservations, replays)
    }

    method ActiveAmount(tenant: Text, scope: Scope, now: int) returns (total: real)
      ensures total == Active(add, OfTenant(State(), tenant), scope, now)
    {
      var list := OfTenant(State(), tenant);
      total := 0.0;
      for i := 0 to |list|
        invariant total == Active(add, list[..i], scope, now)
      {
        assert list[..i + 1][..i] == list[..i];
        if ActiveAt(list[i], scope, now) { total := add(total, list[i].amount); }
      }
      assert list[..|list|] == list;
    }

    method ReserveQuota(req: Request, id: Text, now: int) returns (r: Outcome)
      modifies this
      ensures (r, State()) == Reserve(add, limits, old(State()), req, id, now)
    {
      if !WellFormedRequest(req) { return Malformed; }
      if req.scope.category !in limits { return Denied; }
      var limit := limits[req.scope.category];
      if req.commandId.Some? {
        var key := ReplayKey(req.scope, req.commandId.value);
        if key in replays {
          var list := OfTenant(State(), req.scope.tenant);
          var found := Find(list, replays[key]);
          if found.None? { return CorruptReplay; }
          if RequestOf(list[found.value]) != req { return CommandReused; }
          return Admitted(list[found.value]);
        }
      }
      var activeAmount := ActiveAmount(req.scope.tenant, req.scope, now);
      if add(activeAmount, req.amount) > limit.maximum { return LimitReached(Min(limit.retryAfter, 3600)); }
      var reservation := Fresh(req, id, now);
      var mine := OfTenant(State(), req.scope.tenant);
      if Find(mine, id).Some? { return IdTaken; }
      reservations := reservations[req.scope.tenant := mine + [reservation]];
      if req.commandId.Some? { replays := replays[ReplayKey(req.scope, req.commandId.value) := id]; }
      return Admitted(reservation);
    }

    method ReleaseQuota(tenant: Text, id: Text, token: nat, at: int) returns (bound: bool)
      modifies this`reservations
      ensures (bound, State()) == Release(old(State()), tenant, id, token, at)
    {
      var list := OfTenant(State(), tenant);
      var found := Find(list, id);
      if found.None? || list[found.value].token != token { return false; }
      if !list[found.value].state.Reserved? { return true; }
      reservations := reservations[tenant := list[found.value := list[found.value].(state := Released(at))]];
      return true;
    }

    method ReconcileList(list: seq<Reservation>, at: int) returns (lapsed: seq<Reservation>, count: nat)
      ensures lapsed == LapsedList(list, at) && count == CountLapses(list, at)
    {
      lapsed, count := list, 0;
      for i := 0 to |list|
        invariant |lapsed| == |list| && count == CountLapses(list[..i], at)
        invariant forall j :: 0 <= j < i ==> lapsed[j] == Lapsed(list[j], at)
        invariant forall j :: i <= j < |list| ==> lapsed[j] == list[j]
      {
        assert list[..i + 1][..i] == list[..i];
        if lapsed[i].state.Reserved? && lapsed[i].expiresAt <= at {
          lapsed := lapsed[i := lapsed[i].(state := Expired)];
          count := count + 1;
        }
      }
      assert list[..|list|] == list;
    }

    /** The count is that of the rewritten entries of all tenants, in whatever order they are visited. */
    method ReconcileExpired(at: int) returns (count: nat, ghost visited: seq<Text>)
      modifies this`reservations
      ensures State() == Reconcile(old(State()), at)
      ensures (forall t :: t in visited <==> t in old(reservations)) && |visited| == |old(reservations).Keys|
      ensures count == TotalLapses(old(reservations), visited, at)
    {
      hide LapsedList, TotalLapses, CountLapses;
      NoTenants(reservations, at);
      count, visited := 0, [];
      var rest := reservations.Keys;
      while rest != {}
        invariant rest <= old(reservations).Keys && reservations.Keys == old(reservations).Keys
        invariant forall t :: t in visited <==> t in old(reservations) && t !in rest
        invariant |visited| + |rest| == |old(reservations).Keys|
        invariant forall t :: t in reservations ==>
          reservations[t] == if t in rest then old(reservations)[t] else LapsedList(old(reservations)[t], at)
        invariant count == TotalLapses(old(reservations), visited, at)
        decreases rest
      {
        var tenant :| tenant in rest;
        rest := rest - {tenant};
        var lapsed, n := ReconcileList(reservations[tenant], at);
        reservations := reservations[tenant := lapsed];
        count := count + n;
        TotalOneMore(old(reservations), visited, tenant, at);
        visited := visited + [tenant];
      }
    }
  }

  function TotalLapses(all: map<Text, seq<Reservation>>, tenants: seq<Text>, at: int): nat
    requires forall t :: t in tenants ==> t in all
  {
    if tenants == [] then 0
    else TotalLapses(all, tenants[..|tenants| - 1], at) + CountLapses(all[tenants[|tenants| - 1]], at)
  }

  lemma NoTenants(all: map<Text, seq<Reservation>>, at: int)
    ensures TotalLapses(all, [], at) == 0
  {
  }

  lemma TotalOneMore(all: map<Text, seq<Reservation>>, tenants: seq<Text>, tenant: Text, at: int)
    requires tenant in all && forall t :: t in tenants ==> t in all
    ensures TotalLapses(all, tenants + [tenant], at) == TotalLapses(all, tenants, at) + CountLapses(all[tenant], at)
  {
    assert (tenants + [tenant])[..|tenants|] == tenants;
  }
}
