/** Every run of the admission controller under a clock that does not go back. */
module AdmissionRuns {
  import opened Outcomes
  import opened Utf16
  import opened Admission

  /** One call by a client, or the passing of time. `at` of a release or reconciliation is the caller's. */
  datatype Op =
    | ReserveOp(request: Request, id: Text)
    | ReleaseOp(tenant: Text, id: Text, token: nat, at: int)
    | ReconcileOp(at: int)
    | Tick(elapsed: nat)

  datatype System = System(quota: Quota, now: int)

  function Next(add: Adder, limits: map<Text, Limit>, s: System, op: Op): System
  {
    match op
    case ReserveOp(req, id) => s.(quota := Reserve(add, limits, s.quota, req, id, s.now).1)
    case ReleaseOp(tenant, id, token, at) => s.(quota := Release(s.quota, tenant, id, token, at).1)
    case ReconcileOp(at) => s.(quota := Reconcile(s.quota, at))
    case Tick(elapsed) => s.(now := s.now + elapsed)
  }

  function Run(add: Adder, limits: map<Text, Limit>, s: System, ops: seq<Op>): System
    decreases ops
  {
    if ops == [] then s else Run(add, limits, Next(add, limits, s, ops[0]), ops[1..])
  }

  /** The exact sum of what `Active` adds up. */
  function Charged(list: seq<Reservation>, scope: Scope, at: int): real
  {
    if list == [] then 0.0 else
      var last := list[|list| - 1];
      Charged(list[..|list| - 1], scope, at) + if ActiveAt(last, scope, at) then last.amount else 0.0
  }

  /** Filed under their tenant, with positive amounts and ids unique in the tenant. */
  ghost predicate Filed(list: seq<Reservation>, tenant: Text)
  {
    && (forall i :: 0 <= i < |list| ==> list[i].amount > 0.0 && list[i].scope.tenant == tenant)
    && forall i, j :: 0 <= i < j < |list| ==> list[i].id != list[j].id
  }

  /** The reservation a replayed command is answered with is there, and was made for that command. */
  ghost predicate Answered(q: Quota, key: ReplayKey)
  {
    key in q.replays ==>
      var found := Find(OfTenant(q, key.scope.tenant), q.replays[key]);
      && found.Some?
      && var r := OfTenant(q, key.scope.tenant)[found.value];
         r.scope == key.scope && r.commandId == Some(key.commandId)
  }

  /** Every list is filed, and every command on record answers with its reservation. */
  ghost predicate Sound(q: Quota)
  {
    && (forall t :: Filed(OfTenant(q, t), t))
    && forall key :: Answered(q, key)
  }

  // ---------- one list ----------

  /** Time and expiry only lower the active amount. */
  lemma {:induction false} ChargeFalls(list: seq<Reservation>, tenant: Text, scope: Scope, at: int, later: int)
    requires Filed(list, tenant) && at <= later
    ensures 0.0 <= Charged(list, scope, later) <= Charged(list, scope, at)
    decreases |list|
  {
    if list != [] { ChargeFalls(list[..|list| - 1], tenant, scope, at, later); }
  }

  /** Each reservation keeps all but its state, and may only leave the reserved state. */
  ghost predicate Winds(list: seq<Reservation>, down: seq<Reservation>)
  {
    && |down| == |list|
    && forall i :: 0 <= i < |list| ==>
         down[i] == list[i].(state := down[i].state) && (down[i].state.Reserved? ==> list[i].state.Reserved?)
  }

  lemma {:induction false} ChargeWindsDown(list: seq<Reservation>, down: seq<Reservation>, tenant: Text,
          scope: Scope, at: int)
    requires Filed(list, tenant) && Winds(list, down)
    ensures 0.0 <= Charged(down, scope, at) <= Charged(list, scope, at)
    decreases |list|
  {
    if list != [] { ChargeWindsDown(list[..|list| - 1], down[..|list| - 1], tenant, scope, at); }
  }

  lemma {:induction false} FindWound(list: seq<Reservation>, down: seq<Reservation>, id: Text)
    requires Winds(list, down)
    ensures Find(down, id) == Find(list, id)
    decreases |list|
  {
    if list != [] { FindWound(list[..|list| - 1], down[..|list| - 1], id); }
  }

  /** A quota wound down in some tenants: nothing new, nothing reserved again. */
  ghost predicate WindsDown(q: Quota, down: Quota)
  {
    down.replays == q.replays && forall t :: Winds(OfTenant(q, t), OfTenant(down, t))
  }

  lemma WindingKeepsSound(q: Quota, down: Quota)
    requires Sound(q) && WindsDown(q, down)
    ensures Sound(down)
  {
    hide Find;
    forall t ensures Filed(OfTenant(down, t), t) { assert Filed(OfTenant(q, t), t); }
    forall key: ReplayKey ensures Answered(down, key) {
      assert Answered(q, key);
      if key in q.replays { FindWound(OfTenant(q, key.scope.tenant), OfTenant(down, key.scope.tenant), q.replays[key]); }
    }
  }

  lemma ReleaseWindsDown(q: Quota, tenant: Text, id: Text, token: nat, at: int)
    ensures WindsDown(q, Release(q, tenant, id, token, at).1)
  {
    hide Find;
  }

  lemma ReconcileWindsDown(q: Quota, at: int)
    ensures WindsDown(q, Reconcile(q, at))
  {
  }

  // ---------- a new reservation ----------

  lemma FindAppended(list: seq<Reservation>, r: Reservation, id: Text)
    ensures Find(list + [r], id) == if r.id == id then Some(|list|) else Find(list, id)
  {
    assert (list + [r])[..|list|] == list;
  }

  lemma ChargeAppended(list: seq<Reservation>, r: Reservation, scope: Scope, at: int)
    ensures Charged(list + [r], scope, at) == Charged(list, scope, at) + if ActiveAt(r, scope, at) then r.amount else 0.0
  {
    assert (list + [r])[..|list|] == list;
  }

  lemma StoringStaysFiled(q: Quota, req: Request, id: Text, now: int)
    requires (forall t :: Filed(OfTenant(q, t), t)) && req.amount > 0.0 && Find(OfTenant(q, req.scope.tenant), id).None?
    ensures forall t :: Filed(OfTenant(Stored(q, req, id, now), t), t)
  {
    hide Find;
    forall t ensures Filed(OfTenant(Stored(q, req, id, now), t), t) { assert Filed(OfTenant(q, t), t); }
  }

  lemma StoringStaysAnswered(q: Quota, req: Request, id: Text, now: int)
    requires (forall key :: Answered(q, key)) && Find(OfTenant(q, req.scope.tenant), id).None?
    ensures forall key :: Answered(Stored(q, req, id, now), key)
  {
    hide Find;
    var q' := Stored(q, req, id, now);
    forall key: ReplayKey ensures Answered(q', key) {
      assert Answered(q, key);
      if key in q'.replays { FindAppended(OfTenant(q, req.scope.tenant), Fresh(req, id, now), q'.replays[key]); }
    }
  }

  lemma ReserveKeepsSound(add: Adder, limits: map<Text, Limit>, q: Quota, req: Request, id: Text, now: int)
    requires Sound(q)
    ensures Sound(Reserve(add, limits, q, req, id, now).1)
  {
    hide Stored, Active, Find, Replayed, Filed, Answered;
    if Reserve(add, limits, q, req, id, now).1 != q {
      StoringStaysFiled(q, req, id, now);
      StoringStaysAnswered(q, req, id, now);
    }
  }

  lemma StepKeepsSound(add: Adder, limits: map<Text, Limit>, s: System, op: Op)
    requires Sound(s.quota)
    ensures Sound(Next(add, limits, s, op).quota)
  {
    hide Sound, Reserve, Release, Reconcile, WindsDown;
    match op {
      case ReserveOp(req, id) => ReserveKeepsSound(add, limits, s.quota, req, id, s.now);
      case ReleaseOp(tenant, id, token, at) =>
        ReleaseWindsDown(s.quota, tenant, id, token, at);
        WindingKeepsSound(s.quota, Release(s.quota, tenant, id, token, at).1);
      case ReconcileOp(at) =>
        ReconcileWindsDown(s.quota, at);
        WindingKeepsSound(s.quota, Reconcile(s.quota, at));
      case Tick(_) =>
    }
  }

  lemma {:induction false} RunKeepsSound(add: Adder, limits: map<Text, Limit>, s: System, ops: seq<Op>)
    requires Sound(s.quota)
    ensures Sound(Run(add, limits, s, ops).quota)
    decreases ops
  {
    if ops != [] {
      hide Sound, Next;
      StepKeepsSound(add, limits, s, ops[0]);
      RunKeepsSound(add, limits, Next(add, limits, s, ops[0]), ops[1..]);
    }
  }

  lemma EmptyIsSound()
    ensures Sound(EMPTY)
  {
  }

  // ---------- replayed commands ----------

  /** The stored answer to a command: the entry under its id made for exactly this request. */
  ghost predicate AnswersWith(q: Quota, req: Request, id: Text)
  {
    && IsReplay(q, req) && q.replays[ReplayKey(req.scope, req.commandId.value)] == id
    && Find(OfTenant(q, req.scope.tenant), id).Some?
    && RequestOf(OfTenant(q, req.scope.tenant)[Find(OfTenant(q, req.scope.tenant), id).value]) == req
  }

  lemma AdmissionIsRecorded(add: Adder, limits: map<Text, Limit>, q: Quota, req: Request, id: Text, now: int)
    requires Reserve(add, limits, q, req, id, now).0.Admitted? && req.commandId.Some?
    ensures AnswersWith(Reserve(add, limits, q, req, id, now).1, req, Reserve(add, limits, q, req, id,
        now).0.reservation.id)
  {
    hide Active, Find;
    if IsReplay(q, req) {
      assert Reserve(add, limits, q, req, id, now).0 == Replayed(q, req);
    } else {
      assert Reserve(add, limits, q, req, id, now) == (Admitted(Fresh(req, id, now)), Stored(q, req, id, now));
      assert Find(OfTenant(q, req.scope.tenant), id).None?;
      hide Reserve;
      StoredAnswers(q, req, id, now);
    }
  }

  lemma StoredAnswers(q: Quota, req: Request, id: Text, now: int)
    requires req.commandId.Some? && Find(OfTenant(q, req.scope.tenant), id).None?
    ensures AnswersWith(Stored(q, req, id, now), req, id)
  {
    hide Find;
    FindAppended(OfTenant(q, req.scope.tenant), Fresh(req, id, now), id);
  }

  lemma AnswerStays(add: Adder, limits: map<Text, Limit>, s: System, op: Op, req: Request, id: Text)
    requires AnswersWith(s.quota, req, id)
    ensures AnswersWith(Next(add, limits, s, op).quota, req, id)
  {
    hide Active, Find;
    var list := OfTenant(s.quota, req.scope.tenant);
    match op {
      case ReserveOp(other, newId) => FindAppended(list, Fresh(other, newId, s.now), id);
      case ReleaseOp(tenant, i, token, at) =>
        ReleaseWindsDown(s.quota, tenant, i, token, at);
        FindWound(list, OfTenant(Release(s.quota, tenant, i, token, at).1, req.scope.tenant), id);
      case ReconcileOp(at) =>
        ReconcileWindsDown(s.quota, at);
        FindWound(list, OfTenant(Reconcile(s.quota, at), req.scope.tenant), id);
      case Tick(_) =>
    }
  }

  lemma {:induction false} AnswerStaysForever(add: Adder, limits: map<Text, Limit>, s: System, ops: seq<Op>,
          req: Request, id: Text)
    requires AnswersWith(s.quota, req, id)
    ensures AnswersWith(Run(add, limits, s, ops).quota, req, id)
    decreases ops
  {
    if ops != [] {
      hide AnswersWith, Next;
      AnswerStays(add, limits, s, ops[0], req, id);
      AnswerStaysForever(add, limits, Next(add, limits, s, ops[0]), ops[1..], req, id);
    }
  }

  /**
   Once a command is admitted, the same request is answered with the same reservation id for ever and charged
   no second time; another request under the command is refused.
   */
  lemma ReplayChargesOnce(add: Adder, limits: map<Text, Limit>, s: System, req: Request, id: Text, ops: seq<Op>,
          other: Request, next: Text)
    requires Reserve(add, limits, s.quota, req, id, s.now).0.Admitted? && req.commandId.Some?
    requires WellFormedRequest(other) && other.scope == req.scope && other.commandId == req.commandId
    ensures var q := Run(add, limits, Next(add, limits, s, ReserveOp(req, id)), ops);
            var again := Reserve(add, limits, q.quota, other, next, q.now);
            && again.1 == q.quota
            && (other == req ==>
                  && again.0.Admitted? && RequestOf(again.0.reservation) == req
                  && again.0.reservation.id == Reserve(add, limits, s.quota, req, id, s.now).0.reservation.id)
            && (other != req ==> again.0 == CommandReused)
  {
    hide Active, Find, Run;
    AdmissionIsRecorded(add, limits, s.quota, req, id, s.now);
    AnswerStaysForever(add, limits, Next(add, limits, s, ReserveOp(req, id)), ops, req,
                       Reserve(add, limits, s.quota, req, id, s.now).0.reservation.id);
  }

  /** The replay record is never corrupt: that error cannot occur in any run. */
  lemma ReplayIsNeverCorrupt(add: Adder, limits: map<Text, Limit>, start: int, ops: seq<Op>, req: Request, id: Text)
    ensures var s := Run(add, limits, System(EMPTY, start), ops);
            Reserve(add, limits, s.quota, req, id, s.now).0 != CorruptReplay
  {
    hide Active, Find, Run;
    var s := Run(add, limits, System(EMPTY, start), ops);
    EmptyIsSound();
    RunKeepsSound(add, limits, System(EMPTY, start), ops);
    assert req.commandId.Some? ==> Answered(s.quota, ReplayKey(req.scope, req.commandId.value));
  }

  // ---------- charges and refunds ----------

  lemma {:induction false} ChargeReplaced(list: seq<Reservation>, i: nat, r: Reservation, scope: Scope, at: int)
    requires i < |list|
    ensures Charged(list[i := r], scope, at)
            == Charged(list, scope, at) - (if ActiveAt(list[i], scope, at) then list[i].amount else 0.0)
               + (if ActiveAt(r, scope, at) then r.amount else 0.0)
    decreases |list|
  {
    var n := |list| - 1;
    if i == n {
      assert list[i := r][..n] == list[..n];
    } else {
      ChargeReplaced(list[..n], i, r, scope, at);
      assert list[i := r][..n] == list[..n][i := r];
    }
  }

  /** A fresh admission charges its scope by exactly its amount, for exactly its lease, and no other scope. */
  lemma AdmissionCharges(add: Adder, limits: map<Text, Limit>, q: Quota, req: Request, id: Text, now: int, scope: Scope,
          at: int)
    requires Reserve(add, limits, q, req, id, now).0.Admitted? && !IsReplay(q, req)
    ensures Charged(OfTenant(Reserve(add, limits, q, req, id, now).1, scope.tenant), scope, at)
            == Charged(OfTenant(q, scope.tenant), scope, at)
               + if scope == req.scope && at < now + req.duration then req.amount else 0.0
  {
    hide Charged, Active, Find;
    ChargeAppended(OfTenant(q, req.scope.tenant), Fresh(req, id, now), scope, at);
  }

  /** Releasing an active reservation gives its amount back, once. */
  lemma ReleaseRefunds(q: Quota, tenant: Text, id: Text, token: nat, released: int, scope: Scope, at: int)
    requires Release(q, tenant, id, token, released).0
    ensures var list := OfTenant(q, tenant);
            var r := list[Find(list, id).value];
            && Charged(OfTenant(Release(q, tenant, id, token, released).1, scope.tenant), scope, at)
               == Charged(OfTenant(q, scope.tenant), scope, at)
                  - (if tenant == scope.tenant && ActiveAt(r, scope, at) then r.amount else 0.0)
  {
    hide Charged, Active, Find;
    var list := OfTenant(q, tenant);
    var i := Find(list, id).value;
    ChargeReplaced(list, i, list[i].(state := Released(released)), scope, at);
  }

  /** Reconciliation changes no amount that is still active: it only names what time has already expired. */
  lemma {:induction false} LapsingChangesNothingCharged(list: seq<Reservation>, scope: Scope, at: int, later: int)
    requires at <= later
    ensures Charged(LapsedList(list, at), scope, later) == Charged(list, scope, later)
    decreases |list|
  {
    if list != [] {
      var n := |list| - 1;
      LapsingChangesNothingCharged(list[..n], scope, at, later);
      assert LapsedList(list, at)[..n] == LapsedList(list[..n], at);
    }
  }

  lemma ReconcileIsTransparent(q: Quota, at: int, scope: Scope, later: int)
    requires at <= later
    ensures Charged(OfTenant(Reconcile(q, at), scope.tenant), scope, later) == Charged(OfTenant(q, scope.tenant),
        scope, later)
  {
    hide Charged, Active, LapsedList;
    LapsingChangesNothingCharged(OfTenant(q, scope.tenant), scope, at, later);
    NothingLapses(scope, at, later);
  }

  lemma NothingLapses(scope: Scope, at: int, later: int)
    ensures Charged([], scope, later) == 0.0
  {
  }

  // ---------- which request is answered how ----------

  /** The command was seen before under the scope. */
  predicate Seen(q: Quota, req: Request)
  {
    req.commandId.Some? && ReplayKey(req.scope, req.commandId.value) in q.replays
  }

  /**
   The answer to a command not seen before: admitted under its own id, to expire after its duration, exactly if the
   request is well-formed, its category has a limit, the sum with its amount stays within it, and the id is new.
   */
  lemma ReserveDecides(add: Adder, limits: map<Text, Limit>, q: Quota, req: Request, id: Text, now: int)
    requires !Seen(q, req)
    ensures
      var answer, list := Reserve(add, limits, q, req, id, now).0, OfTenant(q, req.scope.tenant);
      if req.amount <= 0.0 || req.duration <= 0 then answer == Malformed
      else if req.scope.category !in limits then answer == Denied
      else
        var limit := limits[req.scope.category];
        if add(Active(add, list, req.scope, now), req.amount) > limit.maximum
        then answer == LimitReached(if limit.retryAfter <= 3600 then limit.retryAfter else 3600)
        else if exists r :: r in list && r.id == id then answer == IdTaken
        else answer == Admitted(Reservation(id, req.scope, req.commandId, req.amount, Reserved, 1, now, now
            + req.duration))
    ensures !Reserve(add, limits, q, req, id, now).0.Admitted? ==> Reserve(add, limits, q, req, id, now).1 == q
  {
    hide Active;
  }

  /** The reservation of an id, where it is the tenant's. */
  ghost predicate Holds(q: Quota, tenant: Text, r: Reservation) { r in OfTenant(q, tenant) }

  /**
   A release is bound exactly if the tenant has a reservation of the id with the token; only a reserved one changes, and
   it becomes released at that instant.
   */
  lemma ReleaseDecides(add: Adder, limits: map<Text, Limit>, start: int, ops: seq<Op>, tenant: Text, id: Text, token: nat,
          at: int)
    ensures
      var q := Run(add, limits, System(EMPTY, start), ops).quota;
      && (Release(q, tenant, id, token, at).0 <==> exists r :: Holds(q, tenant, r) && r.id == id && r.token == token)
      && forall r ::
           Holds(Release(q, tenant, id, token, at).1, tenant, r) <==>
           if r.id == id && r.token == token && r.state == Released(at)
           then Holds(q, tenant, r) || Holds(q, tenant, r.(state := Reserved))
           else Holds(q, tenant, r) && !(r.id == id && r.token == token && r.state == Reserved)
  {
    var s := Run(add, limits, System(EMPTY, start), ops);
    EmptyIsSound();
    RunKeepsSound(add, limits, System(EMPTY, start), ops);
    ReleaseOfSound(s.quota, tenant, id, token, at);
  }

  lemma ReleaseOfSound(q: Quota, tenant: Text, id: Text, token: nat, at: int)
    requires Sound(q)
    ensures Release(q, tenant, id, token, at).0 <==> exists r :: Holds(q, tenant, r) && r.id == id && r.token == token
    ensures forall r ::
      Holds(Release(q, tenant, id, token, at).1, tenant, r) <==>
      if r.id == id && r.token == token && r.state == Released(at)
      then Holds(q, tenant, r) || Holds(q, tenant, r.(state := Reserved))
      else Holds(q, tenant, r) && !(r.id == id && r.token == token && r.state == Reserved)
  {
  }

  /** The positions of the reservations that have run out by `at` and are still reserved. */
  function RunOut(list: seq<Reservation>, at: int): set<nat>
  {
    set i: nat | i < |list| && list[i].state == Reserved && list[i].expiresAt <= at
  }

  /** Reconciliation expires exactly the reserved entries that have run out, in every tenant, and counts them. */
  lemma ReconcileDecides(q: Quota, at: int, tenant: Text)
    requires tenant in q.reservations
    ensures
      var list := q.reservations[tenant];
      && Reconcile(q, at).reservations.Keys == q.reservations.Keys && Reconcile(q, at).replays == q.replays
      && |Reconcile(q, at).reservations[tenant]| == |list| && CountLapses(list, at) == |RunOut(list, at)|
      && forall i :: 0 <= i < |list| ==>
           Reconcile(q, at).reservations[tenant][i] ==
           if list[i].state == Reserved && list[i].expiresAt <= at then list[i].(state := Expired) else list[i]
  {
    hide CountLapses;
    LapsesCounted(q.reservations[tenant], at);
  }

  lemma {:induction false} LapsesCounted(list: seq<Reservation>, at: int)
    ensures CountLapses(list, at) == |RunOut(list, at)|
    decreases |list|
  {
    if list != [] {
      var n := |list| - 1;
      LapsesCounted(list[..n], at);
      assert RunOut(list, at)
             == RunOut(list[..n], at) + if list[n].state == Reserved && list[n].expiresAt <= at then {n} else {};
    }
  }
}
