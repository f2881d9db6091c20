/** What one claiming transaction hands out and changes, and that no wakeup is claimed before its time. */
module LeaseClaims {
  import opened Outcomes
  import opened Utf16
  import opened Keys
  import opened LeaseQueue
  import opened LeaseRuns

  // ---------- one transaction ----------

  /** The fencing token last given for a run; zero before the first. */
  function LastToken(t: Tables, run: Key): nat { if run in t.leases then t.leases[run].token else 0 }

  /**
   The claim is of a pending, available and intact wakeup of an allowed tenant whose run nobody holds, and carries the
   row's fields, the claimant, the next token of the run, the lease id of the next attempt and the deadline.
   */
  ghost predicate Grants(ids: LeaseIds, t: Tables, now: int, op: Op, c: Claim)
    requires op.ClaimSome?
  {
    var k, run := Key(c.tenant, c.receiptId), Key(c.tenant, c.run);
    && k in t.wakeups && c.tenant in op.allowed && t.wakeups[k].state == Pending && t.wakeups[k].availableAt <= now
    && t.wakeups[k].intact
    && (run in t.leases && t.leases[run].state == Active ==> t.leases[run].expiresAt <= now)
    && c.run == t.wakeups[k].run && c.requestDigest == t.wakeups[k].requestDigest
    && c.workOrderId == t.wakeups[k].workOrderId && c.leaseId == ids(c.receiptId, t.wakeups[k].token + 1)
    && c.holder == op.holder && c.token == LastToken(t, run) + 1 && c.expiresAt == now + op.ttl
  }

  /** Both rows after the claim. */
  ghost predicate Written(t: Tables, after: Tables, c: Claim)
  {
    var k, run := Key(c.tenant, c.receiptId), Key(c.tenant, c.run);
    && k in t.wakeups && k in after.wakeups && run in after.leases
    && after.wakeups[k] == t.wakeups[k].(state := Claimed(c.holder, c.expiresAt, c.leaseId), token := c.token,
                                         attempts := t.wakeups[k].attempts + 1)
    && after.leases[run] == Lease(c.leaseId, c.holder, c.token, c.expiresAt, Active)
  }

  /** The rows that no claim is about are as before. */
  ghost predicate OthersKept(t: Tables, after: Tables, claims: seq<Claim>)
  {
    && after.wakeups.Keys == t.wakeups.Keys
    && (forall k :: k in t.wakeups && (forall i :: 0 <= i < |claims| ==> claims[i].WakeupKey() != k) ==>
          after.wakeups[k] == t.wakeups[k])
    && forall run :: (forall i :: 0 <= i < |claims| ==> claims[i].RunKey() != run) ==>
         (run in after.leases <==> run in t.leases) && (run in t.leases ==> after.leases[run] == t.leases[run])
  }

  /** Some claim is for the run. */
  ghost predicate HasRun(claims: seq<Claim>, run: Key)
  {
    exists i :: 0 <= i < |claims| && claims[i].RunKey() == run
  }

  ghost predicate DistinctRuns(claims: seq<Claim>)
  {
    forall i, j :: 0 <= i < j < |claims| ==> claims[i].RunKey() != claims[j].RunKey()
  }

  ghost predicate FromRows(rows: seq<Key>, claims: seq<Claim>)
  {
    forall i :: 0 <= i < |claims| ==> claims[i].WakeupKey() in rows
  }

  /** A claim for each run among the rows, and only one. */
  ghost predicate OnePerRun(t: Tables, rows: seq<Key>, claims: seq<Claim>)
    requires forall k :: k in rows ==> k in t.wakeups
  {
    && DistinctRuns(claims) && FromRows(rows, claims)
    && forall k :: k in rows ==> HasRun(claims, Key(k.tenant, t.wakeups[k].run))
  }

  ghost predicate AllGranted(ids: LeaseIds, t: Tables, now: int, op: Op, after: Tables, claims: seq<Claim>)
    requires op.ClaimSome?
  {
    forall i :: 0 <= i < |claims| ==> Grants(ids, t, now, op, claims[i]) && Written(t, after, claims[i])
  }

  ghost predicate RunsAre(claimedRuns: set<Key>, claims: seq<Claim>)
  {
    forall run :: run in claimedRuns <==> HasRun(claims, run)
  }

  ghost predicate RunsDone(t: Tables, done: seq<Key>, claimedRuns: set<Key>)
  {
    forall k :: k in done ==> k in t.wakeups && RunOf(k, t.wakeups[k]) in claimedRuns
  }

  /** The transaction under way, after some of its rows. */
  ghost predicate UnderWay(ids: LeaseIds, t: Tables, now: int, op: Op, done: seq<Key>, c: Claiming)
    requires op.ClaimSome?
  {
    && AllGranted(ids, t, now, op, c.tables, c.claims) && OthersKept(t, c.tables, c.claims)
    && DistinctRuns(c.claims) && FromRows(done, c.claims) && RunsDone(t, done, c.claimedRuns)
    && |c.claims| <= |done| && RunsAre(c.claimedRuns, c.claims)
  }

  lemma RowSkipped(ids: LeaseIds, t: Tables, now: int, op: Op, done: seq<Key>, c: Claiming, k: Key)
    requires op.ClaimSome? && UnderWay(ids, t, now, op, done, c)
    requires k in t.wakeups && RunOf(k, t.wakeups[k]) in c.claimedRuns
    ensures UnderWay(ids, t, now, op, done + [k], c)
  {
    hide AllGranted, OthersKept, DistinctRuns, RunsAre;
  }

  lemma RowTaken(ids: LeaseIds, t: Tables, now: int, op: Op, done: seq<Key>, c: Claiming, k: Key)
    requires op.ClaimSome? && UnderWay(ids, t, now, op, done, c)
    requires Eligible(t, op.allowed, now, k) && t.wakeups[k].intact && RunOf(k, t.wakeups[k]) !in c.claimedRuns
    requires k in c.tables.wakeups && c.tables.wakeups[k] == t.wakeups[k]
    requires ClaimOf(ids, t, now, op.holder, op.ttl, k) == ClaimOf(ids, c.tables, now, op.holder, op.ttl, k)
    ensures var claim := ClaimOf(ids, t, now, op.holder, op.ttl, k);
            UnderWay(ids, t, now, op, done + [k],
                     Claiming(Take(c.tables, k, claim), c.claimedRuns + {RunOf(k, t.wakeups[k])}, c.claims + [claim]))
  {
    hide AllGranted, OthersKept, Take, RunsAre, DistinctRuns;
    var claim := ClaimOf(ids, t, now, op.holder, op.ttl, k);
    FreshRun(c.claimedRuns, c.claims, claim.RunKey());
    TakenGranted(ids, t, now, op, c.tables, c.claims, k);
    TakenOthers(t, c.tables, c.claims, k, claim);
    TakenDistinct(c.claims, claim);
    TakenRuns(c.claimedRuns, c.claims, claim);
  }

  lemma TakenDistinct(claims: seq<Claim>, claim: Claim)
    requires DistinctRuns(claims) && forall i :: 0 <= i < |claims| ==> claims[i].RunKey() != claim.RunKey()
    ensures DistinctRuns(claims + [claim])
  {
  }

  lemma FreshRun(claimedRuns: set<Key>, claims: seq<Claim>, run: Key)
    requires RunsAre(claimedRuns, claims) && run !in claimedRuns
    ensures forall i :: 0 <= i < |claims| ==> claims[i].RunKey() != run
  {
  }

  lemma TakenRuns(claimedRuns: set<Key>, claims: seq<Claim>, claim: Claim)
    requires RunsAre(claimedRuns, claims)
    ensures RunsAre(claimedRuns + {claim.RunKey()}, claims + [claim])
  {
    var all := claims + [claim];
    forall run ensures run in claimedRuns + {claim.RunKey()} <==> HasRun(all, run) {
      assert all[|claims|] == claim;
      if i :| 0 <= i < |claims| && claims[i].RunKey() == run { assert all[i].RunKey() == run; }
    }
  }

  lemma TakenGranted(ids: LeaseIds, t: Tables, now: int, op: Op, before: Tables, claims: seq<Claim>, k: Key)
    requires op.ClaimSome? && AllGranted(ids, t, now, op, before, claims)
    requires Eligible(t, op.allowed, now, k) && t.wakeups[k].intact && k in before.wakeups
        && before.wakeups[k] == t.wakeups[k]
    requires forall i :: 0 <= i < |claims| ==> claims[i].RunKey() != RunOf(k, t.wakeups[k])
    ensures var claim := ClaimOf(ids, t, now, op.holder, op.ttl, k);
            AllGranted(ids, t, now, op, Take(before, k, claim), claims + [claim])
  {
    var claim := ClaimOf(ids, t, now, op.holder, op.ttl, k);
    var after, all := Take(before, k, claim), claims + [claim];
    forall i | 0 <= i < |all| ensures Grants(ids, t, now, op, all[i]) && Written(t, after, all[i]) {
      if i < |claims| { assert Grants(ids, t, now, op, claims[i]) && Written(t, before, claims[i]); }
    }
  }

  lemma TakenOthers(t: Tables, before: Tables, claims: seq<Claim>, k: Key, claim: Claim)
    requires OthersKept(t, before, claims) && k in t.wakeups && k in before.wakeups
    requires claim.WakeupKey() == k && claim.RunKey() == RunOf(k, before.wakeups[k])
    ensures OthersKept(t, Take(before, k, claim), claims + [claim])
  {
    var all, after := claims + [claim], Take(before, k, claim);
    assert all[|claims|] == claim && forall i :: 0 <= i < |claims| ==> all[i] == claims[i];
    forall j | j in t.wakeups && (forall i :: 0 <= i < |all| ==> all[i].WakeupKey() != j)
      ensures after.wakeups[j] == t.wakeups[j]
    {
      assert forall i :: 0 <= i < |claims| ==> all[i].WakeupKey() != j;
    }
    forall run | forall i :: 0 <= i < |all| ==> all[i].RunKey() != run
      ensures (run in after.leases <==> run in t.leases) && (run in t.leases ==> after.leases[run] == t.leases[run])
    {
      assert forall i :: 0 <= i < |claims| ==> all[i].RunKey() != run;
    }
  }

  lemma {:induction false} RowsUnderWay(ids: LeaseIds, t: Tables, now: int, op: Op, done: seq<Key>, rest: seq<Key>,
      c: Claiming)
    requires op.ClaimSome? && UnderWay(ids, t, now, op, done, c)
    requires forall j :: j in rest ==> Eligible(t, op.allowed, now, j)
    ensures var r := ClaimRows(ids, c, now, op.holder, op.ttl, rest);
            r.Ok? ==> UnderWay(ids, t, now, op, done + rest, r.value)
    decreases rest
  {
    if rest == [] {
      assert done + rest == done;
    } else {
      hide UnderWay, Take, ClaimOf;
      var k := rest[0];
      RowStep(ids, t, now, op, done, c, k);
      assert done + rest == (done + [k]) + rest[1..];
      assert forall j :: j in rest[1..] ==> j in rest;
      if ClaimRow(ids, c, now, op.holder, op.ttl, k).Ok? {
        RowsUnderWay(ids, t, now, op, done + [k], rest[1..], ClaimRow(ids, c, now, op.holder, op.ttl, k).value);
      }
    }
  }

  lemma RowStep(ids: LeaseIds, t: Tables, now: int, op: Op, done: seq<Key>, c: Claiming, k: Key)
    requires op.ClaimSome? && UnderWay(ids, t, now, op, done, c)
    requires Eligible(t, op.allowed, now, k)
    ensures var r := ClaimRow(ids, c, now, op.holder, op.ttl, k); r.Ok? ==> UnderWay(ids, t, now, op, done + [k], r.value)
  {
    var run := RunOf(k, t.wakeups[k]);
    RowKept(ids, t, now, op, done, c, k);
    hide UnderWay, Take, ClaimOf;
    if run in c.claimedRuns {
      RowSkipped(ids, t, now, op, done, c, k);
    } else if t.wakeups[k].intact {
      RowTaken(ids, t, now, op, done, c, k);
    }
  }

  /** The claim depends on the row and on the lease of its run only. */
  lemma SameRowsSameClaim(ids: LeaseIds, t: Tables, u: Tables, now: int, op: Op, k: Key)
    requires op.ClaimSome? && k in t.wakeups && k in u.wakeups && u.wakeups[k] == t.wakeups[k]
    requires var run := RunOf(k, t.wakeups[k]);
             (run in u.leases <==> run in t.leases) && (run in t.leases ==> u.leases[run] == t.leases[run])
    ensures ClaimOf(ids, t, now, op.holder, op.ttl, k) == ClaimOf(ids, u, now, op.holder, op.ttl, k)
    ensures LeaseHeld(u, RunOf(k, t.wakeups[k]), now) == LeaseHeld(t, RunOf(k, t.wakeups[k]), now)
  {
  }

  lemma ClaimsNameRuns(ids: LeaseIds, t: Tables, now: int, op: Op, after: Tables, claims: seq<Claim>, k: Key)
    requires op.ClaimSome? && AllGranted(ids, t, now, op, after, claims) && k in t.wakeups
    ensures forall i :: 0 <= i < |claims| && claims[i].WakeupKey() == k ==>
              claims[i].RunKey() == RunOf(k, t.wakeups[k]) && k in after.wakeups
                  && after.wakeups[k].run == t.wakeups[k].run
  {
    forall i | 0 <= i < |claims| && claims[i].WakeupKey() == k
      ensures claims[i].RunKey() == RunOf(k, t.wakeups[k]) && k in after.wakeups
          && after.wakeups[k].run == t.wakeups[k].run
    {
      assert Grants(ids, t, now, op, claims[i]) && Written(t, after, claims[i]);
    }
  }

  /** Until its run is claimed, an eligible row and the lease of its run are as they were. */
  lemma RowKept(ids: LeaseIds, t: Tables, now: int, op: Op, done: seq<Key>, c: Claiming, k: Key)
    requires op.ClaimSome? && UnderWay(ids, t, now, op, done, c) && Eligible(t, op.allowed, now, k)
    ensures k in c.tables.wakeups && c.tables.wakeups[k].run == t.wakeups[k].run
    ensures RunOf(k, t.wakeups[k]) !in c.claimedRuns ==>
              && c.tables.wakeups[k] == t.wakeups[k] && !LeaseHeld(c.tables, RunOf(k, t.wakeups[k]), now)
              && ClaimOf(ids, t, now, op.holder, op.ttl, k) == ClaimOf(ids, c.tables, now, op.holder, op.ttl, k)
  {
    hide AllGranted, DistinctRuns, FromRows, RunsDone, RunsAre, ClaimOf;
    ClaimsNameRuns(ids, t, now, op, c.tables, c.claims, k);
    if RunOf(k, t.wakeups[k]) !in c.claimedRuns {
      FreshRun(c.claimedRuns, c.claims, RunOf(k, t.wakeups[k]));
      SameRowsSameClaim(ids, t, c.tables, now, op, k);
    }
  }

  /**
   A committed claim hands out at most the limit, one claim for each run among the selected rows, each granted by the
   tables as they were; it writes both rows of each claim and nothing else.
   */
  lemma ClaimTransaction(ids: LeaseIds, s: System, op: Op)
    requires op.ClaimSome? && Attempt(ids, s, op).Some?
    ensures var t := Next(ids, s, op);
            && s.issued <= t.issued && t.now == s.now && |t.issued| <= |s.issued| + op.limit
            && var claims := t.issued[|s.issued|..];
               && AllGranted(ids, s.tables, s.now, op, t.tables, claims)
               && OthersKept(s.tables, t.tables, claims)
               && (forall k :: k in op.rows ==> k in s.tables.wakeups) && OnePerRun(s.tables, op.rows, claims)
    ensures 1 <= |op.holder| <= 256 && 1 <= op.limit <= 256 && 1000 <= op.ttl <= 3600000
  {
    var none: seq<Key> := [];
    var c := Claiming(s.tables, {}, []);
    assert UnderWay(ids, s.tables, s.now, op, none, c);
    hide UnderWay, ClaimRows, AllGranted, OthersKept, OnePerRun;
    RowsUnderWay(ids, s.tables, s.now, op, none, op.rows, c);
    assert none + op.rows == op.rows;
    var r := ClaimRows(ids, c, s.now, op.holder, op.ttl, op.rows).value;
    UnderWayGives(ids, s, op, r);
    assert (s.issued + r.claims)[|s.issued|..] == r.claims;
  }

  lemma UnderWayGives(ids: LeaseIds, s: System, op: Op, c: Claiming)
    requires op.ClaimSome? && UnderWay(ids, s.tables, s.now, op, op.rows, c)
    ensures forall k :: k in op.rows ==> k in s.tables.wakeups
    ensures AllGranted(ids, s.tables, s.now, op, c.tables, c.claims)
    ensures OthersKept(s.tables, c.tables, c.claims) && OnePerRun(s.tables, op.rows, c.claims) && |c.claims| <= |op.rows|
  {
  }

  lemma {:induction false} RowsCommit(ids: LeaseIds, t: Tables, now: int, op: Op, done: seq<Key>, rest: seq<Key>,
      c: Claiming)
    requires op.ClaimSome? && UnderWay(ids, t, now, op, done, c)
    requires forall j :: j in rest ==> Eligible(t, op.allowed, now, j) && t.wakeups[j].intact
    ensures ClaimRows(ids, c, now, op.holder, op.ttl, rest).Ok?
    decreases rest
  {
    if rest != [] {
      hide UnderWay, Take, ClaimOf;
      var k := rest[0];
      RowKept(ids, t, now, op, done, c, k);
      RowStep(ids, t, now, op, done, c, k);
      assert forall j :: j in rest[1..] ==> j in rest;
      RowsCommit(ids, t, now, op, done + [k], rest[1..], ClaimRow(ids, c, now, op.holder, op.ttl, k).value);
    }
  }

  /** The row may be selected: pending, available, of an allowed tenant, with no live lease of its run. */
  predicate Selectable(t: Tables, allowed: set<Text>, now: int, k: Key)
  {
    && k in t.wakeups && k.tenant in allowed && t.wakeups[k].state == Pending && t.wakeups[k].availableAt <= now
    && (Key(k.tenant, t.wakeups[k].run) in t.leases ==>
          var lease := t.leases[Key(k.tenant, t.wakeups[k].run)]; lease.state != Active || lease.expiresAt <= now)
  }

  /** A claim within the bounds of its input commits on any selection of intact rows. */
  lemma ClaimCommits(ids: LeaseIds, s: System, op: Op)
    requires op.ClaimSome? && 1 <= |op.holder| <= 256 && 1 <= op.limit <= 256 && 1000 <= op.ttl <= 3600000
    requires |op.rows| <= op.limit && forall i, j :: 0 <= i < j < |op.rows| ==> op.rows[i] != op.rows[j]
    requires forall k :: k in op.rows ==> Selectable(s.tables, op.allowed, s.now, k) && s.tables.wakeups[k].intact
    ensures Attempt(ids, s, op).Some?
  {
    var none: seq<Key> := [];
    var c := Claiming(s.tables, {}, []);
    assert UnderWay(ids, s.tables, s.now, op, none, c);
    RowsCommit(ids, s.tables, s.now, op, none, op.rows, c);
  }

  // ---------- over runs ----------

  predicate PendingUntil(t: Tables, k: Key, at: int)
  {
    k in t.wakeups && t.wakeups[k].state == Pending && t.wakeups[k].availableAt == at
  }

  /** The claims handed out in a run from `s` to `q` are not about the wakeup. */
  ghost predicate NotClaimed(s: System, q: System, k: Key)
  {
    s.issued <= q.issued && forall i :: |s.issued| <= i < |q.issued| ==> q.issued[i].WakeupKey() != k
  }

  lemma StepBefore(ids: LeaseIds, s: System, op: Op, k: Key, at: int)
    requires PendingUntil(s.tables, k, at) && s.now < at
    ensures PendingUntil(Next(ids, s, op).tables, k, at) && NotClaimed(s, Next(ids, s, op), k)
        && Next(ids, s, op).now >= s.now
  {
    if op.ClaimSome? && Attempt(ids, s, op).Some? {
      hide Attempt, OnePerRun, Written;
      ClaimTransaction(ids, s, op);
      var claims := Next(ids, s, op).issued[|s.issued|..];
      forall i | 0 <= i < |claims| ensures claims[i].WakeupKey() != k { assert Grants(ids, s.tables, s.now, op,
          claims[i]); }
    } else if !op.ClaimSome? {
      PendingKept(ids, s, op, k);
    }
  }

  /** Whatever does not claim leaves a pending wakeup alone. */
  lemma PendingKept(ids: LeaseIds, s: System, op: Op, k: Key)
    requires !op.ClaimSome? && k in s.tables.wakeups && s.tables.wakeups[k].state == Pending
    ensures k in Next(ids, s, op).tables.wakeups && Next(ids, s, op).tables.wakeups[k] == s.tables.wakeups[k]
    ensures Next(ids, s, op).issued == s.issued && Next(ids, s, op).now >= s.now
  {
  }

  lemma {:induction false} ClockNeverGoesBack(ids: LeaseIds, s: System, ops: seq<Op>)
    ensures Run(ids, s, ops).now >= s.now
    decreases ops
  {
    if ops != [] {
      ClockNeverGoesBack(ids, Next(ids, s, ops[0]), ops[1..]);
      StepForward(ids, s, ops[0]);
    }
  }

  lemma StepForward(ids: LeaseIds, s: System, op: Op)
    ensures Next(ids, s, op).now >= s.now
  {
  }

  /** Until the clock reaches its time, a pending wakeup stays pending and nobody is handed a claim on it. */
  lemma {:induction false} NotClaimedBeforeItsTime(ids: LeaseIds, s: System, ops: seq<Op>, k: Key, at: int)
    requires PendingUntil(s.tables, k, at) && Run(ids, s, ops).now < at
    ensures PendingUntil(Run(ids, s, ops).tables, k, at) && NotClaimed(s, Run(ids, s, ops), k)
    decreases ops
  {
    if ops != [] {
      hide Next, PendingUntil;
      ClockNeverGoesBack(ids, s, ops);
      StepBefore(ids, s, ops[0], k, at);
      NotClaimedBeforeItsTime(ids, Next(ids, s, ops[0]), ops[1..], k, at);
    }
  }

  /** A wakeup released for a retry is claimed by nobody before the instant of the retry. */
  lemma RetryWaits(ids: LeaseIds, s: System, c: Claim, retryAt: int, ops: seq<Op>)
    requires Attempt(ids, s, ReleaseClaim(c, retryAt)).Some?
    requires Run(ids, Next(ids, s, ReleaseClaim(c, retryAt)), ops).now < retryAt
    ensures var t := Next(ids, s, ReleaseClaim(c, retryAt));
            PendingUntil(t.tables, c.WakeupKey(), retryAt) && NotClaimed(t, Run(ids, t, ops), c.WakeupKey())
  {
    hide Run;
    NotClaimedBeforeItsTime(ids, Next(ids, s, ReleaseClaim(c, retryAt)), ops, c.WakeupKey(), retryAt);
  }
}
