/** When a claim may be renewed, completed, released or recovered, and what that does to the two rows. */
module LeaseActs {
  import opened Outcomes
  import opened Utf16
  import opened Keys
  import opened LeaseQueue

  /** The lease row of the run is live and carries the claim. */
  predicate LeaseRow(t: Tables, c: Claim)
  {
    && Key(c.tenant, c.run) in t.leases
    && var row := t.leases[Key(c.tenant, c.run)]; row == Lease(c.leaseId, c.holder, c.token, row.expiresAt, Active)
  }

  /** The wakeup row is claimed by the claim. */
  predicate WakeupRow(t: Tables, c: Claim)
  {
    && Key(c.tenant, c.receiptId) in t.wakeups
    && var row := t.wakeups[Key(c.tenant, c.receiptId)];
       && row.state.Claimed?
       && row == Wakeup(c.run, c.requestDigest, c.workOrderId, row.intact, row.availableAt,
                        Claimed(c.holder, row.state.until, c.leaseId), c.token, row.attempts)
  }

  /** Only the two rows of the claim differ. */
  ghost predicate OnlyItsRows(t: Tables, after: Tables, c: Claim)
  {
    && after.wakeups.Keys == t.wakeups.Keys && after.leases.Keys == t.leases.Keys
    && (forall k :: k in t.wakeups && k != Key(c.tenant, c.receiptId) ==> after.wakeups[k] == t.wakeups[k])
    && forall run :: run in t.leases && run != Key(c.tenant, c.run) ==> after.leases[run] == t.leases[run]
  }

  /** Renewal succeeds exactly while the lease is live and both rows carry the claim as it was last renewed. */
  lemma RenewsExactly(t: Tables, now: int, c: Claim, ttl: nat)
    ensures
      var run, k := Key(c.tenant, c.run), Key(c.tenant, c.receiptId);
      Renewed(t, now, c, ttl).Ok? <==>
      && LeaseRow(t, c) && t.leases[run].expiresAt > now
      && WakeupRow(t, c) && t.wakeups[k].state.until == c.expiresAt && t.wakeups[k].attempts > 0
    ensures
      var run, k, r := Key(c.tenant, c.run), Key(c.tenant, c.receiptId), Renewed(t, now, c, ttl);
      r.Ok? ==>
        && r.value.1 == c.(expiresAt := now + ttl) && OnlyItsRows(t, r.value.0, c)
        && r.value.0.leases[run] == t.leases[run].(expiresAt := now + ttl)
        && r.value.0.wakeups[k] == t.wakeups[k].(state := Claimed(c.holder, now + ttl, c.leaseId))
  {
  }

  /** Completion succeeds exactly if both rows carry the claim, expired or not; the lease ends by now. */
  lemma CompletesExactly(t: Tables, now: int, c: Claim, status: ResultStatus)
    ensures CompletedTables(t, now, c, status).Ok? <==> LeaseRow(t, c) && WakeupRow(t, c)
    ensures
      var run, k, r := Key(c.tenant, c.run), Key(c.tenant, c.receiptId), CompletedTables(t, now, c, status);
      r.Ok? ==>
        && OnlyItsRows(t, r.value, c) && r.value.wakeups[k] == t.wakeups[k].(state := Completed(status))
        && EndedLease(t.leases[run], r.value.leases[run], now)
  {
  }

  /** Release succeeds under the same condition, and makes the wakeup available at the time asked for. */
  lemma ReleasesExactly(t: Tables, now: int, c: Claim, retryAt: int)
    ensures ReleasedTables(t, now, c, retryAt).Ok? <==> LeaseRow(t, c) && WakeupRow(t, c)
    ensures
      var run, k, r := Key(c.tenant, c.run), Key(c.tenant, c.receiptId), ReleasedTables(t, now, c, retryAt);
      r.Ok? ==>
        && OnlyItsRows(t, r.value, c) && r.value.wakeups[k] == t.wakeups[k].(state := Pending, availableAt := retryAt)
        && EndedLease(t.leases[run], r.value.leases[run], now)
  {
  }

  /** The lease is released and expires no later than before or than now. */
  predicate EndedLease(before: Lease, after: Lease, now: int)
  {
    && after == before.(state := Released, expiresAt := after.expiresAt)
    && after.expiresAt <= now && after.expiresAt <= before.expiresAt
    && (after.expiresAt == now || after.expiresAt == before.expiresAt)
  }

  /**
   Recovery of one tenant's overdue claims: it succeeds exactly if the lease row of each still carries the claim and was
   not released, and then each is pending from now on and its lease expired, and nothing else changes.
   */
  lemma RecoversExactly(t: Tables, allowed: set<Text>, now: int)
    ensures
      RecoverAll(t, allowed, now).Ok? <==>
      forall k :: k in t.wakeups && OverdueAt(t, allowed, now, k) ==> CarriedBy(t, k)
    ensures
      RecoverAll(t, allowed, now).Ok? ==>
        var after := RecoverAll(t, allowed, now).value;
        && after.wakeups.Keys == t.wakeups.Keys && after.leases.Keys == t.leases.Keys
        && (forall k :: k in t.wakeups ==>
              after.wakeups[k] == if OverdueAt(t, allowed, now, k) then t.wakeups[k].(state := Pending,
                  availableAt := now)
                                  else t.wakeups[k])
        && forall run :: run in t.leases ==> LeaseAfterRecovery(t, after, allowed, now, run)
  {
    forall k | k in t.wakeups
      ensures k in StaleRows(t, allowed, now) <==> OverdueAt(t, allowed, now, k)
      ensures t.wakeups[k].state.Claimed? ==> (LeaseCarries(t, k) <==> CarriedBy(t, k))
    {
    }
    if RecoverAll(t, allowed, now).Ok? {
      var after, stale := RecoverAll(t, allowed, now).value, StaleRows(t, allowed, now);
      forall run | run in t.leases ensures LeaseAfterRecovery(t, after, allowed, now, run) {
        if k :| k in t.wakeups && OverdueAt(t, allowed, now, k) && Key(k.tenant, t.wakeups[k].run) == run {
          assert k in stale && RowOfRun(t, stale, run);
        }
      }
    }
  }

  predicate OverdueAt(t: Tables, allowed: set<Text>, now: int, k: Key)
    requires k in t.wakeups
  {
    k.tenant in allowed && t.wakeups[k].state.Claimed? && t.wakeups[k].state.until <= now
  }

  /** The lease row of the wakeup's run carries its claim and was not released. */
  predicate CarriedBy(t: Tables, k: Key)
    requires k in t.wakeups && t.wakeups[k].state.Claimed?
  {
    var w := t.wakeups[k];
    && Key(k.tenant, w.run) in t.leases
    && var row := t.leases[Key(k.tenant, w.run)];
       && row.leaseId == w.state.leaseId && row.token == w.token && row.holder == w.state.holder
       && (row.state == Active || row.state == LeaseState.Expired)
  }

  /** The lease of a run is expired by now if an overdue claim of the run was recovered, and else as before. */
  ghost predicate LeaseAfterRecovery(t: Tables, after: Tables, allowed: set<Text>, now: int, run: Key)
    requires run in t.leases && run in after.leases
  {
    if exists k :: k in t.wakeups && OverdueAt(t, allowed, now, k) && Key(k.tenant, t.wakeups[k].run) == run
    then
      && after.leases[run] == t.leases[run].(state := LeaseState.Expired, expiresAt := after.leases[run].expiresAt)
      && after.leases[run].expiresAt == if now < t.leases[run].expiresAt then now else t.leases[run].expiresAt
    else after.leases[run] == t.leases[run]
  }
}
