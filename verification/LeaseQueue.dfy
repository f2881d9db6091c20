/** The worker queue over two tables: wakeups and the lease row of each run. One method is one transaction. */
module LeaseQueue {
  import opened Outcomes
  import opened Utf16
  import opened Keys

  datatype WakeupState =
    | Pending
    | Claimed(holder: Text, until: int, leaseId: Text)
    | Completed(status: ResultStatus)
    | Cancelled

  datatype ResultStatus = ResultCompleted | ResultParked | ResultFailed

  /** `intact`: the stored request and definition still match the digests and keys of the row. */
  datatype Wakeup = Wakeup(
    run: Text, requestDigest: Text, workOrderId: Text, intact: bool, availableAt: int, state: WakeupState,
    token: nat, attempts: nat)

  datatype LeaseState = Active | Released | Expired

  datatype Lease = Lease(leaseId: Text, holder: Text, token: nat, expiresAt: int, state: LeaseState)

  datatype Tables = Tables(wakeups: map<Key, Wakeup>, leases: map<Key, Lease>)

  /** What a worker holds after claiming a wakeup. */
  datatype Claim = Claim(
    tenant: Text, run: Text, receiptId: Text, requestDigest: Text, workOrderId: Text, leaseId: Text, holder: Text,
    token: nat, expiresAt: int)
  {
    function RunKey(): Key { Key(tenant, run) }
    function WakeupKey(): Key { Key(tenant, receiptId) }
  }

  datatype Error = Conflict | TenantDenied | InvalidInput

  function Min(a: int, b: int): int { if a < b then a else b }

  function RunOf(k: Key, w: Wakeup): Key { Key(k.tenant, w.run) }

  function TokenOf(t: Tables, run: Key): nat { if run in t.leases then t.leases[run].token else 0 }

  // ---------- recovery ----------

  predicate Overdue(w: Wakeup, now: int) { w.state.Claimed? && w.state.until <= now }

  predicate IsStale(t: Tables, allowed: set<Text>, now: int, k: Key)
  {
    k in t.wakeups && k.tenant in allowed && Overdue(t.wakeups[k], now)
  }

  /** The lease row still carries the claim of the wakeup, live or already expired. */
  predicate LeaseCarries(t: Tables, k: Key)
  {
    && k in t.wakeups && t.wakeups[k].state.Claimed? && RunOf(k, t.wakeups[k]) in t.leases
    && var w, lease := t.wakeups[k], t.leases[RunOf(k, t.wakeups[k])];
       lease.leaseId == w.state.leaseId && lease.token == w.token && lease.holder == w.state.holder && !lease.state.Released?
  }

  function ExpireLease(lease: Lease, now: int): Lease { lease.(state := Expired,
          expiresAt := Min(lease.expiresAt, now)) }

  function ReturnWakeup(w: Wakeup, at: int): Wakeup { w.(state := Pending, availableAt := at) }

  /** One stale row: its lease expires and the wakeup is pending again. */
  function RecoverRow(t: Tables, now: int, k: Key): Result<Tables, Error>
  {
    if !LeaseCarries(t, k) then Err(Conflict) else
      var run := RunOf(k, t.wakeups[k]);
      Ok(Tables(t.wakeups[k := ReturnWakeup(t.wakeups[k], now)], t.leases[run := ExpireLease(t.leases[run], now)]))
  }

  /** The wakeup `k` is one of `rows`, and its run is `run`. */
  ghost predicate RowOfRun(t: Tables, rows: set<Key>, run: Key)
  {
    exists k :: k in rows && k in t.wakeups && RunOf(k, t.wakeups[k]) == run
  }

  /** The tables after the rows are recovered, in whatever order. */
  ghost function RecoveredTables(t: Tables, now: int, rows: set<Key>): Tables
  {
    Tables(map k | k in t.wakeups :: if k in rows then ReturnWakeup(t.wakeups[k], now) else t.wakeups[k],
           map run | run in t.leases :: if RowOfRun(t, rows, run) then ExpireLease(t.leases[run], now) else t.leases[run])
  }

  ghost function StaleRows(t: Tables, allowed: set<Text>, now: int): set<Key>
  {
    set k | k in t.wakeups && IsStale(t, allowed, now, k)
  }

  /** The transaction: every stale row, or a conflict that changes nothing. */
  ghost function RecoverAll(t: Tables, allowed: set<Text>, now: int): Result<Tables, Error>
  {
    if forall k :: k in StaleRows(t, allowed, now) ==> LeaseCarries(t, k)
    then Ok(RecoveredTables(t, now, StaleRows(t, allowed, now)))
    else Err(Conflict)
  }

  lemma RecoverNext(t: Tables, now: int, rows: set<Key>, k: Key)
    requires k !in rows && forall j :: j in rows ==> LeaseCarries(t, j)
    ensures RecoverRow(RecoveredTables(t, now, rows), now, k)
            == if LeaseCarries(t, k) then Ok(RecoveredTables(t, now, rows + {k})) else Err(Conflict)
  {
    var s, s' := RecoveredTables(t, now, rows), RecoveredTables(t, now, rows + {k});
    if LeaseCarries(t, k) {
      var run := RunOf(k, t.wakeups[k]);
      assert s.wakeups[k := ReturnWakeup(s.wakeups[k], now)] == s'.wakeups;
      forall r | r in t.leases
        ensures s.leases[run := ExpireLease(s.leases[run], now)][r] == s'.leases[r]
      {
        assert RowOfRun(t, rows + {k}, r) <==> RowOfRun(t, rows, r) || r == run;
      }
      assert s.leases[run := ExpireLease(s.leases[run], now)] == s'.leases;
    }
  }

  function RowSet(rows: seq<Key>): set<Key> { set k | k in rows }

  lemma NothingRecovered(t: Tables, now: int)
    ensures RecoveredTables(t, now, RowSet([])) == t
  {
  }

  lemma NextRow(rows: seq<Key>, i: nat)
    requires i < |rows| && forall a, b :: 0 <= a < b < |rows| ==> rows[a] != rows[b]
    ensures rows[i] !in RowSet(rows[..i]) && RowSet(rows[..i + 1]) == RowSet(rows[..i]) + {rows[i]}
    ensures rows[..i + 1] == rows[..i] + [rows[i]]
  {
  }

  lemma {:induction false} AllRows(rows: seq<Key>, all: set<Key>)
    requires forall a, b :: 0 <= a < b < |rows| ==> rows[a] != rows[b]
    requires forall k :: k in rows <==> k in all
    ensures rows[..|rows|] == rows && RowSet(rows) == all && |all| == |rows|
  {
    if rows != [] {
      var n := |rows| - 1;
      NextRow(rows, n);
      AllRows(rows[..n], all - {rows[n]});
    } else {
      assert all == {};
    }
  }

  // ---------- claiming ----------

  predicate LeaseHeld(t: Tables, run: Key, now: int)
  {
    run in t.leases && t.leases[run].state.Active? && t.leases[run].expiresAt > now
  }

  predicate Eligible(t: Tables, allowed: set<Text>, now: int, k: Key)
  {
    && k in t.wakeups && k.tenant in allowed && t.wakeups[k].state.Pending? && t.wakeups[k].availableAt <= now
    && !LeaseHeld(t, RunOf(k, t.wakeups[k]), now)
  }

  /** A result the candidate query may give: rows locked by others are skipped, and rows past the limit. */
  ghost predicate IsSelection(t: Tables, allowed: set<Text>, now: int, limit: nat, rows: seq<Key>)
  {
    && |rows| <= limit && (forall k :: k in rows ==> Eligible(t, allowed, now, k))
    && forall i, j :: 0 <= i < j < |rows| ==> rows[i] != rows[j]
  }

  /** The selection when no row is locked: by time of availability, up to the limit, with ties in any order. */
  ghost predicate EarliestFirst(t: Tables, allowed: set<Text>, now: int, limit: nat, rows: seq<Key>)
    requires forall k :: k in rows ==> k in t.wakeups
  {
    && (forall i, j :: 0 <= i < j < |rows| ==> t.wakeups[rows[i]].availableAt <= t.wakeups[rows[j]].availableAt)
    && forall k :: Eligible(t, allowed, now, k) && k !in rows ==>
         |rows| == limit && forall j :: j in rows ==> t.wakeups[j].availableAt <= t.wakeups[k].availableAt
  }

  /** `ClaimInputSchema`, of a holder id already trimmed. */
  predicate ClaimInput(holder: Text, limit: int, ttl: int)
  {
    1 <= |holder| <= 256 && 1 <= limit <= 256 && 1000 <= ttl <= 3600000
  }

  /** The transaction of `claim` under way. */
  datatype Claiming = Claiming(tables: Tables, claimedRuns: set<Key>, claims: seq<Claim>)

  /** The lease id is a digest of the wakeup id and the attempt. */
  function ClaimOf(leaseIdOf: (Text, nat) -> Text, t: Tables, now: int, holder: Text, ttl: nat, k: Key): Claim
    requires k in t.wakeups
  {
    var w := t.wakeups[k];
    Claim(k.tenant, w.run, k.id, w.requestDigest, w.workOrderId, leaseIdOf(k.id, w.token + 1), holder,
          TokenOf(t, RunOf(k, w)) + 1, now + ttl)
  }

  /** The lease row is taken over and the wakeup marked as claimed. */
  function Take(t: Tables, k: Key, c: Claim): Tables
    requires k in t.wakeups
  {
    var w := t.wakeups[k];
    Tables(t.wakeups[k := w.(state := Claimed(c.holder, c.expiresAt, c.leaseId), token := c.token, attempts := w.attempts + 1)],
           t.leases[RunOf(k, w) := Lease(c.leaseId, c.holder, c.token, c.expiresAt, Active)])
  }

  function ClaimRow(leaseIdOf: (Text, nat) -> Text, c: Claiming, now: int, holder: Text, ttl: nat,
          k: Key): Result<Claiming, Error>
  {
    if k !in c.tables.wakeups then Err(Conflict) else
      var w := c.tables.wakeups[k];
      var run := RunOf(k, w);
      if run in c.claimedRuns || LeaseHeld(c.tables, run, now) then Ok(c)
      else if !w.state.Pending? || !w.intact then Err(Conflict)
      else
        var claim := ClaimOf(leaseIdOf, c.tables, now, holder, ttl, k);
        Ok(Claiming(Take(c.tables, k, claim), c.claimedRuns + {run}, c.claims + [claim]))
  }

  function ClaimRows(leaseIdOf: (Text, nat) -> Text, c: Claiming, now: int, holder: Text, ttl: nat,
          rows: seq<Key>): Result<Claiming, Error>
    decreases rows
  {
    if rows == [] then Ok(c) else
      match ClaimRow(leaseIdOf, c, now, holder, ttl, rows[0])
      case Err(e) => Err(e)
      case Ok(d) => ClaimRows(leaseIdOf, d, now, holder, ttl, rows[1..])
  }

  // ---------- renewing, completing, releasing ----------

  predicate HoldsLease(t: Tables, c: Claim)
  {
    && c.RunKey() in t.leases
    && var lease := t.leases[c.RunKey()];
       lease.leaseId == c.leaseId && lease.holder == c.holder && lease.token == c.token && lease.state.Active?
  }

  predicate HoldsWakeup(t: Tables, c: Claim)
  {
    && c.WakeupKey() in t.wakeups
    && var w := t.wakeups[c.WakeupKey()];
       && w.run == c.run && w.requestDigest == c.requestDigest && w.workOrderId == c.workOrderId
       && w.state.Claimed? && w.state.holder == c.holder && w.state.leaseId == c.leaseId && w.token == c.token
  }

  /** The claim may still act: both tables carry it. */
  predicate CanAct(t: Tables, c: Claim) { HoldsLease(t, c) && HoldsWakeup(t, c) }

  function Renewed(t: Tables, now: int, c: Claim, ttl: nat): Result<(Tables, Claim), Error>
  {
    if !HoldsLease(t, c) || t.leases[c.RunKey()].expiresAt <= now then Err(Conflict)
    else if !HoldsWakeup(t, c) then Err(Conflict)
    else if t.wakeups[c.WakeupKey()].attempts == 0 || t.wakeups[c.WakeupKey()].state.until != c.expiresAt then Err(Conflict)
    else
      var w := t.wakeups[c.WakeupKey()];
      Ok((Tables(t.wakeups[c.WakeupKey() := w.(state := w.state.(until := now + ttl))],
                 t.leases[c.RunKey() := t.leases[c.RunKey()].(expiresAt := now + ttl)]),
          c.(expiresAt := now + ttl)))
  }

  /** The common end of `complete` and `release`: the wakeup in its new state, the exact lease released. */
  function Settled(t: Tables, now: int, c: Claim, w: Wakeup -> Wakeup): Result<Tables, Error>
  {
    if !HoldsWakeup(t, c) || !HoldsLease(t, c) then Err(Conflict) else
      var lease := t.leases[c.RunKey()];
      Ok(Tables(t.wakeups[c.WakeupKey() := w(t.wakeups[c.WakeupKey()])],
                t.leases[c.RunKey() := lease.(state := Released, expiresAt := Min(lease.expiresAt, now))]))
  }

  function CompletedTables(t: Tables, now: int, c: Claim, status: ResultStatus): Result<Tables, Error>
  {
    Settled(t, now, c, (w: Wakeup) => w.(state := Completed(status)))
  }

  function ReleasedTables(t: Tables, now: int, c: Claim, retryAt: int): Result<Tables, Error>
  {
    Settled(t, now, c, (w: Wakeup) => ReturnWakeup(w, retryAt))
  }

  /** `DurablePostgresWorkerQueue`; `now` is the database clock of the transaction. */
  class WorkerQueue {
    const allowedTenants: set<Text>
    const leaseIdOf: (Text, nat) -> Text
    var wakeups: map<Key, Wakeup>
    var leases: map<Key, Lease>

    constructor (allowedTenants: set<Text>, leaseIdOf: (Text, nat) -> Text, tables: Tables)
      ensures this.allowedTenants == allowedTenants && this.leaseIdOf == leaseIdOf && State() == tables
    {
      this.allowedTenants, this.leaseIdOf := allowedTenants, leaseIdOf;
      wakeups, leases := tables.wakeups, tables.leases;
    }

    function State(): Tables
      reads this
    {
      Tables(wakeups, leases)
    }

    /** The rows of the stale query, in any order. */
    method SelectStale(now: int) returns (rows: seq<Key>)
      ensures forall k :: k in rows <==> k in StaleRows(State(), allowedTenants, now)
      ensures forall i, j :: 0 <= i < j < |rows| ==> rows[i] != rows[j]
    {
      rows := [];
      var rest := wakeups.Keys;
      while rest != {}
        invariant rest <= wakeups.Keys
        invariant forall k :: k in rows <==> k !in rest && IsStale(State(), allowedTenants, now, k)
        invariant forall i, j :: 0 <= i < j < |rows| ==> rows[i] != rows[j]
        decreases |rest|
      {
        var k :| k in rest;
        rest := rest - {k};
        if IsStale(State(), allowedTenants, now, k) { rows := rows + [k]; }
      }
    }

    method RecoverStale(now: int) returns (r: Result<nat, Error>)
      modifies this
      ensures match RecoverAll(old(State()), allowedTenants, now)
              case Err(e) => r == Err(e) && State() == old(State())
              case Ok(t) => r == Ok(|StaleRows(old(State()), allowedTenants, now)|) && State() == t
    {
      hide RecoveredTables, LeaseCarries, RecoverRow, IsStale;
      var rows := SelectStale(now);
      ghost var start := State();
      var tables := State();
      NothingRecovered(start, now);
      for i := 0 to |rows|
        invariant State() == start
        invariant tables == RecoveredTables(start, now, RowSet(rows[..i]))
        invariant forall k :: k in rows[..i] ==> LeaseCarries(start, k)
      {
        NextRow(rows, i);
        RecoverNext(start, now, RowSet(rows[..i]), rows[i]);
        var recovered := RecoverRow(tables, now, rows[i]);
        assert rows[i] in StaleRows(start, allowedTenants, now);
        if recovered.Err? { return Err(Conflict); }
        tables := recovered.value;
      }
      AllRows(rows, StaleRows(start, allowedTenants, now));
      wakeups, leases := tables.wakeups, tables.leases;
      r := Ok(|rows|);
    }

    /** The earliest eligible row among some rows. */
    method Earliest(now: int, among: set<Key>) returns (best: Option<Key>)
      requires among <= wakeups.Keys
      ensures best.None? ==> forall k :: k in among ==> !Eligible(State(), allowedTenants, now, k)
      ensures best.Some? ==> best.value in among && Eligible(State(), allowedTenants, now, best.value)
      ensures best.Some? ==> forall k :: k in among && Eligible(State(), allowedTenants, now, k) ==>
                wakeups[best.value].availableAt <= wakeups[k].availableAt
    {
      best := None;
      var rest := among;
      while rest != {}
        invariant rest <= among
        invariant best.None? ==> forall k :: k in among - rest ==> !Eligible(State(), allowedTenants, now, k)
        invariant best.Some? ==> best.value in among && Eligible(State(), allowedTenants, now, best.value)
        invariant best.Some? ==> forall k :: k in among - rest && Eligible(State(), allowedTenants, now, k) ==>
                    wakeups[best.value].availableAt <= wakeups[k].availableAt
        decreases rest
      {
        var k :| k in rest;
        rest := rest - {k};
        if Eligible(State(), allowedTenants, now, k)
           && (best.None? || wakeups[k].availableAt < wakeups[best.value].availableAt) {
          best := Some(k);
        }
      }
    }

    /** The candidate query: the earliest eligible rows, up to the limit. */
    method SelectCandidates(now: int, limit: nat) returns (rows: seq<Key>)
      ensures IsSelection(State(), allowedTenants, now, limit, rows)
      ensures EarliestFirst(State(), allowedTenants, now, limit, rows)
    {
      hide Eligible;
      rows := [];
      var rest := wakeups.Keys;
      while |rows| < limit
        invariant rest <= wakeups.Keys && |rows| <= limit
        invariant forall k :: k in rows ==> k in wakeups && Eligible(State(), allowedTenants, now, k)
        invariant forall k :: k in wakeups ==> k in rest || k in rows
        invariant forall i, j :: 0 <= i < j < |rows| ==>
          rows[i] != rows[j] && wakeups[rows[i]].availableAt <= wakeups[rows[j]].availableAt
        invariant forall j, k :: j in rows && k in rest && Eligible(State(), allowedTenants, now, k) ==>
          wakeups[j].availableAt <= wakeups[k].availableAt
        invariant forall j :: j in rows ==> j !in rest
        decreases rest
      {
        var next := Earliest(now, rest);
        if next.None? { break; }
        rows := rows + [next.value];
        rest := rest - {next.value};
      }
      assert forall k :: Eligible(State(), allowedTenants, now, k) ==> k in wakeups by {
        forall k ensures Eligible(State(), allowedTenants, now, k) ==> k in wakeups { EligibleIsRow(State(), now, k); }
      }
    }

    lemma EligibleIsRow(t: Tables, now: int, k: Key)
      ensures Eligible(t, allowedTenants, now, k) ==> k in t.wakeups
    {
    }

    /** Some selection of candidates is claimed one by one, or the transaction is rolled back. */
    method ClaimWakeups(holder: Text, now: int, limit: int, ttl: int)
      returns (r: Result<seq<Claim>, Error>, ghost rows: seq<Key>)
      modifies this
      ensures !ClaimInput(holder, limit, ttl) ==> r == Err(InvalidInput) && State() == old(State())
      ensures ClaimInput(holder, limit, ttl) ==>
        && IsSelection(old(State()), allowedTenants, now, limit, rows)
        && EarliestFirst(old(State()), allowedTenants, now, limit, rows)
        && match ClaimRows(leaseIdOf, Claiming(old(State()), {}, []), now, holder, ttl, rows)
           case Err(e) => r == Err(e) && State() == old(State())
           case Ok(c) => r == Ok(c.claims) && State() == c.tables
    {
      rows := [];
      if !ClaimInput(holder, limit, ttl) { return Err(InvalidInput), rows; }
      var candidates := SelectCandidates(now, limit);
      rows := candidates;
      var tables, claimedRuns, claims := State(), {}, [];
      ghost var start := Claiming(State(), {}, []);
      for i := 0 to |candidates|
        invariant State() == start.tables
        invariant ClaimRows(leaseIdOf, start, now, holder, ttl, candidates)
                  == ClaimRows(leaseIdOf, Claiming(tables, claimedRuns, claims), now, holder, ttl, candidates[i..])
      {
        assert candidates[i..][1..] == candidates[i + 1..];
        var next := ClaimRow(leaseIdOf, Claiming(tables, claimedRuns, claims), now, holder, ttl, candidates[i]);
        if next.Err? { return Err(next.error), rows; }
        tables, claimedRuns, claims := next.value.tables, next.value.claimedRuns, next.value.claims;
      }
      wakeups, leases := tables.wakeups, tables.leases;
      return Ok(claims), rows;
    }

    method Renew(claim: Claim, now: int, ttl: int) returns (r: Result<Claim, Error>)
      modifies this
      ensures claim.tenant !in allowedTenants ==> r == Err(TenantDenied) && State() == old(State())
      ensures claim.tenant in allowedTenants && !(1000 <= ttl <= 3600000) ==> r == Err(InvalidInput) && State() == old(State())
      ensures claim.tenant in allowedTenants && 1000 <= ttl <= 3600000 ==>
        match Renewed(old(State()), now, claim, ttl)
        case Err(e) => r == Err(e) && State() == old(State())
        case Ok(pair) => State() == pair.0 && r == Ok(pair.1)
    {
      if claim.tenant !in allowedTenants { return Err(TenantDenied); }
      if !(1000 <= ttl <= 3600000) { return Err(InvalidInput); }
      var run, wakeup := claim.RunKey(), claim.WakeupKey();
      if !HoldsLease(State(), claim) || leases[run].expiresAt <= now { return Err(Conflict); }
      var renewed := leases[run].(expiresAt := now + ttl);
      if !HoldsWakeup(State(), claim) || wakeups[wakeup].attempts == 0
         || wakeups[wakeup].state.until != claim.expiresAt {
        return Err(Conflict);
      }
      leases := leases[run := renewed];
      wakeups := wakeups[wakeup := wakeups[wakeup].(state := wakeups[wakeup].state.(until := renewed.expiresAt))];
      return Ok(claim.(expiresAt := renewed.expiresAt));
    }

    method ReleaseExactLease(claim: Claim, now: int) returns (released: bool)
      modifies this`leases
      ensures released == HoldsLease(old(State()), claim)
      ensures !released ==> State() == old(State())
      ensures released ==>
        leases == old(leases)[claim.RunKey() :=
          old(leases)[claim.RunKey()].(state := Released, expiresAt := Min(old(leases)[claim.RunKey()].expiresAt, now))]
    {
      var run := claim.RunKey();
      if !HoldsLease(State(), claim) { return false; }
      leases := leases[run := leases[run].(state := Released, expiresAt := Min(leases[run].expiresAt, now))];
      return true;
    }

    method Complete(claim: Claim, now: int, status: ResultStatus) returns (r: Result<(), Error>)
      modifies this
      ensures claim.tenant !in allowedTenants ==> r == Err(TenantDenied) && State() == old(State())
      ensures claim.tenant in allowedTenants ==>
        match CompletedTables(old(State()), now, claim, status)
        case Err(e) => r == Err(e) && State() == old(State())
        case Ok(t) => r == Ok(()) && State() == t
    {
      if claim.tenant !in allowedTenants { return Err(TenantDenied); }
      if !HoldsWakeup(State(), claim) { return Err(Conflict); }
      var before, wakeup := wakeups, claim.WakeupKey();
      wakeups := wakeups[wakeup := wakeups[wakeup].(state := Completed(status))];
      var released := ReleaseExactLease(claim, now);
      if !released {
        wakeups := before;
        return Err(Conflict);
      }
      return Ok(());
    }

    method Release(claim: Claim, now: int, retryAt: int) returns (r: Result<(), Error>)
      modifies this
      ensures claim.tenant !in allowedTenants ==> r == Err(TenantDenied) && State() == old(State())
      ensures claim.tenant in allowedTenants ==>
        match ReleasedTables(old(State()), now, claim, retryAt)
        case Err(e) => r == Err(e) && State() == old(State())
        case Ok(t) => r == Ok(()) && State() == t
    {
      if claim.tenant !in allowedTenants { return Err(TenantDenied); }
      if !HoldsWakeup(State(), claim) { return Err(Conflict); }
      var before, wakeup := wakeups, claim.WakeupKey();
      wakeups := wakeups[wakeup := ReturnWakeup(wakeups[wakeup], retryAt)];
      var released := ReleaseExactLease(claim, now);
      if !released {
        wakeups := before;
        return Err(Conflict);
      }
      return Ok(());
    }
  }
}
