/** Every interleaving of queue transactions: fencing safety, and when the two tables stay in agreement. */
module LeaseRuns {
  import opened Outcomes
  import opened Utf16
  import opened Keys
  import opened Digests
  import opened LeaseQueue

  type LeaseIds = (Text, nat) -> Text

  /** Lease ids of different wakeups or attempts differ: the digest does not collide. */
  ghost predicate CollisionFree(leaseIdOf: LeaseIds)
  {
    forall r, a, r', a' :: leaseIdOf(r, a) == leaseIdOf(r', a') ==> r == r' && a == a'
  }

  /** One transaction by some worker, or the passing of time. */
  datatype Op =
    | Enqueue(key: Key, run: Text, requestDigest: Text, workOrderId: Text, intact: bool, availableAt: int)
    | ClaimSome(allowed: set<Text>, holder: Text, limit: nat, ttl: nat, rows: seq<Key>)
    | RenewClaim(claim: Claim, ttl: nat)
    | CompleteClaim(claim: Claim, status: ResultStatus)
    | ReleaseClaim(claim: Claim, retryAt: int)
    | Recover(allowed: set<Text>)
    | Tick(elapsed: nat)

  /** The tables, the database clock, and every claim handed out so far. */
  datatype System = System(tables: Tables, now: int, issued: seq<Claim>)

  function Start(now: int): System { System(Tables(map[], map[]), now, []) }

  /** The effect of an operation, or none when the transaction fails and is rolled back. */
  ghost function Attempt(ids: LeaseIds, s: System, op: Op): Option<System>
  {
    match op
    case Enqueue(k, run, digest, order, intact, at) =>
      if k in s.tables.wakeups then None
      else Some(s.(tables := s.tables.(wakeups := s.tables.wakeups[k := Wakeup(run, digest, order, intact, at, Pending, 0, 0)])))
    case ClaimSome(allowed, holder, limit, ttl, rows) =>
      if !ClaimInput(holder, limit, ttl) || !IsSelection(s.tables, allowed, s.now, limit, rows) then None
      else
        (match ClaimRows(ids, Claiming(s.tables, {}, []), s.now, holder, ttl, rows)
         case Err(_) => None
         case Ok(c) => Some(System(c.tables, s.now, s.issued + c.claims)))
    case RenewClaim(c, ttl) =>
      (match Renewed(s.tables, s.now, c, ttl)
       case Err(_) => None
       case Ok(pair) => if 1000 <= ttl <= 3600000 then Some(s.(tables := pair.0)) else None)
    case CompleteClaim(c, status) =>
      (match CompletedTables(s.tables, s.now, c, status) case Err(_) => None case Ok(t) => Some(s.(tables := t)))
    case ReleaseClaim(c, at) =>
      (match ReleasedTables(s.tables, s.now, c, at) case Err(_) => None case Ok(t) => Some(s.(tables := t)))
    case Recover(allowed) =>
      (match RecoverAll(s.tables, allowed, s.now) case Err(_) => None case Ok(t) => Some(s.(tables := t)))
    case Tick(elapsed) => Some(s.(now := s.now + elapsed))
  }

  ghost function Next(ids: LeaseIds, s: System, op: Op): System
  {
    if Attempt(ids, s, op).Some? then Attempt(ids, s, op).value else s
  }

  ghost function Run(ids: LeaseIds, s: System, ops: seq<Op>): System
    decreases ops
  {
    if ops == [] then s else Run(ids, Next(ids, s, ops[0]), ops[1..])
  }

  // ---------- the invariant of every run ----------

  /** A wakeup was last claimed under a token its run's lease has reached. */
  ghost predicate TokensOrdered(t: Tables)
  {
    forall k :: k in t.wakeups ==> t.wakeups[k].token <= TokenOf(t, RunOf(k, t.wakeups[k]))
  }

  ghost predicate Recorded(t: Tables, c: Claim)
  {
    c.WakeupKey() in t.wakeups && t.wakeups[c.WakeupKey()].run == c.run && 1 <= c.token <= t.wakeups[c.WakeupKey()].token
  }

  /** The lease id names the wakeup and one of its attempts so far. */
  ghost predicate Named(ids: LeaseIds, c: Claim)
  {
    exists attempt: nat :: attempt <= c.token && c.leaseId == ids(c.receiptId, attempt)
  }

  /** In the order handed out, the claims of one run carry growing tokens and new lease ids. */
  ghost predicate Increasing(issued: seq<Claim>)
  {
    forall i, j :: 0 <= i < j < |issued| && issued[i].RunKey() == issued[j].RunKey() ==>
      issued[i].token < issued[j].token && issued[i].leaseId != issued[j].leaseId
  }

  /** The claimed state of a wakeup comes from this claim. */
  predicate Gives(k: Key, w: Wakeup, c: Claim)
  {
    && c.WakeupKey() == k && c.run == w.run && c.requestDigest == w.requestDigest && c.workOrderId == w.workOrderId
    && c.token == w.token && w.state.Claimed? && c.leaseId == w.state.leaseId && c.holder == w.state.holder
  }

  ghost predicate Backed(t: Tables, issued: seq<Claim>)
  {
    forall k :: k in t.wakeups && t.wakeups[k].state.Claimed? ==>
      exists i :: 0 <= i < |issued| && Gives(k, t.wakeups[k], issued[i])
  }

  ghost predicate Inv(ids: LeaseIds, t: Tables, issued: seq<Claim>)
  {
    && TokensOrdered(t) && Increasing(issued) && Backed(t, issued)
    && forall i :: 0 <= i < |issued| ==> Recorded(t, issued[i]) && Named(ids, issued[i])
  }

  /** No token moves and nothing becomes claimed; new wakeups may appear. */
  ghost predicate Quiet(t: Tables, t': Tables)
  {
    && t'.leases.Keys == t.leases.Keys && (forall r :: r in t.leases ==> t'.leases[r].token == t.leases[r].token)
    && t.wakeups.Keys <= t'.wakeups.Keys
    && (forall k :: k in t'.wakeups && k !in t.wakeups ==> t'.wakeups[k].state.Pending? && t'.wakeups[k].token == 0)
    && forall k :: k in t.wakeups ==>
         var w, w' := t.wakeups[k], t'.wakeups[k];
         && w'.run == w.run && w'.requestDigest == w.requestDigest && w'.workOrderId == w.workOrderId && w'.token == w.token
         && (w'.state.Claimed? ==> w.state.Claimed? && w'.state.holder == w.state.holder && w'.state.leaseId == w.state.leaseId)
  }

  lemma QuietKeepsInv(ids: LeaseIds, t: Tables, t': Tables, issued: seq<Claim>)
    requires Inv(ids, t, issued) && Quiet(t, t')
    ensures Inv(ids, t', issued)
  {
    hide Named, Increasing;
    assert forall run :: TokenOf(t', run) == TokenOf(t, run);
    forall i | 0 <= i < |issued| ensures Recorded(t', issued[i]) { assert Recorded(t, issued[i]); }
    forall k | k in t'.wakeups && t'.wakeups[k].state.Claimed?
      ensures exists i :: 0 <= i < |issued| && Gives(k, t'.wakeups[k], issued[i])
    {
      var i :| 0 <= i < |issued| && Gives(k, t.wakeups[k], issued[i]);
      assert Gives(k, t'.wakeups[k], issued[i]);
    }
  }

  lemma OthersAreQuiet(ids: LeaseIds, s: System, op: Op)
    requires !op.ClaimSome?
    ensures Quiet(s.tables, Next(ids, s, op).tables) && Next(ids, s, op).issued == s.issued
  {
    hide LeaseCarries;
  }

  /** Each claim of a row has the next token of its run and a lease id never used in the run. */
  lemma TakeKeepsInv(ids: LeaseIds, t: Tables, issued: seq<Claim>, now: int, holder: Text, ttl: nat, k: Key)
    requires CollisionFree(ids) && Inv(ids, t, issued) && k in t.wakeups
    ensures var c := ClaimOf(ids, t, now, holder, ttl, k);
            Inv(ids, Take(t, k, c), issued + [c])
  {
    var c := ClaimOf(ids, t, now, holder, ttl, k);
    var t', all := Take(t, k, c), issued + [c];
    assert Named(ids, c);
    assert TokensOrdered(t');
    assert Gives(k, t'.wakeups[k], all[|issued|]);
    TakeIsIncreasing(ids, t, issued, now, holder, ttl, k);
    forall j | j in t'.wakeups && t'.wakeups[j].state.Claimed?
      ensures exists i :: 0 <= i < |all| && Gives(j, t'.wakeups[j], all[i])
    {
      if j != k {
        var i :| 0 <= i < |issued| && Gives(j, t.wakeups[j], issued[i]);
        assert Gives(j, t'.wakeups[j], all[i]);
      }
    }
    forall i | 0 <= i < |all| ensures Recorded(t', all[i]) && Named(ids, all[i]) {
      if i < |issued| { assert Recorded(t, issued[i]); }
    }
  }

  lemma TakeIsIncreasing(ids: LeaseIds, t: Tables, issued: seq<Claim>, now: int, holder: Text, ttl: nat, k: Key)
    requires CollisionFree(ids) && Inv(ids, t, issued) && k in t.wakeups
    ensures Increasing(issued + [ClaimOf(ids, t, now, holder, ttl, k)])
  {
    hide Backed;
    var c := ClaimOf(ids, t, now, holder, ttl, k);
    forall i | 0 <= i < |issued| && issued[i].RunKey() == c.RunKey()
      ensures issued[i].token < c.token && issued[i].leaseId != c.leaseId
    {
      assert Recorded(t, issued[i]) && Named(ids, issued[i]);
    }
  }

  lemma {:induction false} ClaimKeepsInv(ids: LeaseIds, c: Claiming, before: seq<Claim>, now: int,
          holder: Text, ttl: nat, rows: seq<Key>)
    requires CollisionFree(ids) && Inv(ids, c.tables, before + c.claims)
    ensures var r := ClaimRows(ids, c, now, holder, ttl, rows);
            r.Ok? ==> Inv(ids, r.value.tables, before + r.value.claims)
    decreases rows
  {
    hide Inv, CollisionFree, Take, ClaimOf;
    if rows != [] && ClaimRow(ids, c, now, holder, ttl, rows[0]).Ok? {
      var d := ClaimRow(ids, c, now, holder, ttl, rows[0]).value;
      if d != c {
        TakeKeepsInv(ids, c.tables, before + c.claims, now, holder, ttl, rows[0]);
        assert before + (c.claims + [ClaimOf(ids, c.tables, now, holder, ttl, rows[0])])
               == (before + c.claims) + [ClaimOf(ids, c.tables, now, holder, ttl, rows[0])];
      }
      ClaimKeepsInv(ids, d, before, now, holder, ttl, rows[1..]);
    }
  }

  lemma StepKeepsInv(ids: LeaseIds, s: System, op: Op)
    requires CollisionFree(ids) && Inv(ids, s.tables, s.issued)
    ensures Inv(ids, Next(ids, s, op).tables, Next(ids, s, op).issued)
  {
    hide Inv, CollisionFree, Quiet;
    if op.ClaimSome? {
      assert s.issued + [] == s.issued;
      ClaimKeepsInv(ids, Claiming(s.tables, {}, []), s.issued, s.now, op.holder, op.ttl, op.rows);
    } else {
      OthersAreQuiet(ids, s, op);
      QuietKeepsInv(ids, s.tables, Next(ids, s, op).tables, s.issued);
    }
  }

  lemma {:induction false} RunKeepsInv(ids: LeaseIds, s: System, ops: seq<Op>)
    requires CollisionFree(ids) && Inv(ids, s.tables, s.issued)
    ensures Inv(ids, Run(ids, s, ops).tables, Run(ids, s, ops).issued)
    decreases ops
  {
    hide Inv, CollisionFree, Next;
    if ops != [] {
      StepKeepsInv(ids, s, ops[0]);
      RunKeepsInv(ids, Next(ids, s, ops[0]), ops[1..]);
    }
  }

  // ---------- fencing safety ----------

  /** In every run, the claims of one run carry strictly growing fencing tokens and fresh lease ids. */
  lemma ClaimsAreFenced(ids: LeaseIds, now: int, ops: seq<Op>)
    requires CollisionFree(ids)
    ensures Increasing(Run(ids, Start(now), ops).issued)
    ensures Inv(ids, Run(ids, Start(now), ops).tables, Run(ids, Start(now), ops).issued)
  {
    RunKeepsInv(ids, Start(now), ops);
  }

  /** Renewal, completion and release succeed only for a claim that both tables still carry. */
  lemma ActingNeedsBoth(ids: LeaseIds, s: System, c: Claim, ttl: nat, status: ResultStatus, retryAt: int)
    ensures Attempt(ids, s, CompleteClaim(c, status)).Some? <==> CanAct(s.tables, c)
    ensures Attempt(ids, s, ReleaseClaim(c, retryAt)).Some? <==> CanAct(s.tables, c)
    ensures Attempt(ids, s, RenewClaim(c, ttl)).Some? ==> CanAct(s.tables, c)
  {
  }

  /** A claim that can act was handed out, and is the newest of its run. */
  lemma OnlyTheNewestActs(ids: LeaseIds, s: System, c: Claim)
    requires Inv(ids, s.tables, s.issued) && CanAct(s.tables, c)
    ensures exists i :: 0 <= i < |s.issued| && s.issued[i].WakeupKey() == c.WakeupKey() && s.issued[i].run == c.run
              && s.issued[i].leaseId == c.leaseId && s.issued[i].holder == c.holder && s.issued[i].token == c.token
    ensures forall j :: 0 <= j < |s.issued| && s.issued[j].RunKey() == c.RunKey() ==> s.issued[j].token <= c.token
  {
    hide Increasing, Named;
    var k := c.WakeupKey();
    var i :| 0 <= i < |s.issued| && Gives(k, s.tables.wakeups[k], s.issued[i]);
    forall j | 0 <= j < |s.issued| && s.issued[j].RunKey() == c.RunKey() ensures s.issued[j].token <= c.token {
      assert Recorded(s.tables, s.issued[j]);
    }
  }

  /** At most one claim of a run can act at any moment. */
  lemma AtMostOneActs(ids: LeaseIds, s: System, c: Claim, d: Claim)
    requires Inv(ids, s.tables, s.issued) && CanAct(s.tables, c) && CanAct(s.tables, d) && c.RunKey() == d.RunKey()
    ensures c.receiptId == d.receiptId && c.leaseId == d.leaseId && c.holder == d.holder && c.token == d.token
  {
    hide Inv, CanAct;
    OnlyTheNewestActs(ids, s, c);
    OnlyTheNewestActs(ids, s, d);
    var i :| 0 <= i < |s.issued| && s.issued[i].WakeupKey() == c.WakeupKey() && s.issued[i].run == c.run
             && s.issued[i].leaseId == c.leaseId && s.issued[i].holder == c.holder && s.issued[i].token == c.token;
    var j :| 0 <= j < |s.issued| && s.issued[j].WakeupKey() == d.WakeupKey() && s.issued[j].run == d.run
             && s.issued[j].leaseId == d.leaseId && s.issued[j].holder == d.holder && s.issued[j].token == d.token;
    assert Increasing(s.issued) by { InvIsIncreasing(ids, s.tables, s.issued); }
    assert i == j;
  }

  lemma InvIsIncreasing(ids: LeaseIds, t: Tables, issued: seq<Claim>)
    requires Inv(ids, t, issued)
    ensures Increasing(issued)
  {
  }

  lemma {:induction false} ClaimTokensGrow(ids: LeaseIds, c: Claiming, now: int, holder: Text, ttl: nat,
          rows: seq<Key>, run: Key)
    ensures var r := ClaimRows(ids, c, now, holder, ttl, rows);
            r.Ok? ==> TokenOf(r.value.tables, run) >= TokenOf(c.tables, run)
    decreases rows
  {
    if rows != [] && ClaimRow(ids, c, now, holder, ttl, rows[0]).Ok? {
      ClaimTokensGrow(ids, ClaimRow(ids, c, now, holder, ttl, rows[0]).value, now, holder, ttl, rows[1..], run);
    }
  }

  lemma {:induction false} TokensNeverFall(ids: LeaseIds, s: System, ops: seq<Op>, run: Key)
    ensures TokenOf(Run(ids, s, ops).tables, run) >= TokenOf(s.tables, run)
    decreases ops
  {
    if ops != [] {
      var s' := Next(ids, s, ops[0]);
      assert TokenOf(s'.tables, run) >= TokenOf(s.tables, run) by {
        if ops[0].ClaimSome? {
          hide IsSelection, ClaimRows;
          ClaimTokensGrow(ids, Claiming(s.tables, {}, []), s.now, ops[0].holder, ops[0].ttl, ops[0].rows, run);
        } else {
          hide Next;
          OthersAreQuiet(ids, s, ops[0]);
        }
      }
      hide Next, TokenOf;
      TokensNeverFall(ids, s', ops[1..], run);
    }
  }

  /** A claim overtaken by a newer claim of its run never acts again, whatever happens. */
  lemma OvertakenForever(ids: LeaseIds, s: System, ops: seq<Op>, old_: Claim, new_: Claim)
    requires Inv(ids, s.tables, s.issued) && new_ in s.issued
    requires old_.RunKey() == new_.RunKey() && old_.token < new_.token
    ensures !CanAct(Run(ids, s, ops).tables, old_)
  {
    hide Run;
    var j :| 0 <= j < |s.issued| && s.issued[j] == new_;
    assert Recorded(s.tables, s.issued[j]);
    TokensNeverFall(ids, s, ops, old_.RunKey());
  }

  // ---------- a wakeup completes at most once ----------

  ghost predicate CompletesNow(ids: LeaseIds, s: System, op: Op, k: Key)
  {
    op.CompleteClaim? && op.claim.WakeupKey() == k && Attempt(ids, s, op).Some?
  }

  ghost function Completions(ids: LeaseIds, s: System, ops: seq<Op>, k: Key): nat
    decreases ops
  {
    if ops == [] then 0
    else (if CompletesNow(ids, s, ops[0], k) then 1 else 0) + Completions(ids, Next(ids, s, ops[0]), ops[1..], k)
  }

  predicate IsDone(t: Tables, k: Key) { k in t.wakeups && t.wakeups[k].state.Completed? }

  /** A wakeup that is not pending is not touched by a claim transaction that selects pending rows. */
  lemma {:induction false} ClaimKeepsRow(ids: LeaseIds, c: Claiming, now: int, holder: Text, ttl: nat,
          rows: seq<Key>, k: Key)
    requires k !in rows
    ensures var r := ClaimRows(ids, c, now, holder, ttl, rows);
            r.Ok? ==> (k in r.value.tables.wakeups <==> k in c.tables.wakeups)
                      && (k in c.tables.wakeups ==> r.value.tables.wakeups[k] == c.tables.wakeups[k])
    decreases rows
  {
    if rows != [] && ClaimRow(ids, c, now, holder, ttl, rows[0]).Ok? {
      assert rows[0] in rows;
      ClaimKeepsRow(ids, ClaimRow(ids, c, now, holder, ttl, rows[0]).value, now, holder, ttl, rows[1..], k);
    }
  }

  lemma DoneStaysDone(ids: LeaseIds, s: System, op: Op, k: Key)
    requires IsDone(s.tables, k)
    ensures IsDone(Next(ids, s, op).tables, k) && !CompletesNow(ids, s, op, k)
  {
    if op.ClaimSome? && Attempt(ids, s, op).Some? {
      hide ClaimRows;
      ClaimKeepsRow(ids, Claiming(s.tables, {}, []), s.now, op.holder, op.ttl, op.rows, k);
    }
  }

  lemma {:induction false} CompletedAtMostOnce(ids: LeaseIds, s: System, ops: seq<Op>, k: Key)
    ensures Completions(ids, s, ops, k) <= 1
    ensures IsDone(s.tables, k) ==> Completions(ids, s, ops, k) == 0
    decreases ops
  {
    if ops != [] {
      var s' := Next(ids, s, ops[0]);
      CompletedAtMostOnce(ids, s', ops[1..], k);
      if IsDone(s.tables, k) { DoneStaysDone(ids, s, ops[0], k); }
      assert CompletesNow(ids, s, ops[0], k) ==> IsDone(s'.tables, k);
    }
  }

  // ---------- the two tables agree ----------

  /** The lease row of the wakeup's run is exactly this claim. */
  predicate Matches(t: Tables, k: Key)
    requires k in t.wakeups && t.wakeups[k].state.Claimed?
  {
    var w := t.wakeups[k];
    RunOf(k, w) in t.leases && t.leases[RunOf(k, w)] == Lease(w.state.leaseId, w.state.holder, w.token, w.state.until, Active)
  }

  /** Every claimed wakeup matches its lease row, is the only claimed one of its run, and has an attempt. */
  ghost predicate Bound(t: Tables)
  {
    && (forall k :: k in t.wakeups && t.wakeups[k].state.Claimed? ==> Matches(t, k) && t.wakeups[k].attempts > 0)
    && forall k, j :: k in t.wakeups && j in t.wakeups && t.wakeups[k].state.Claimed? && t.wakeups[j].state.Claimed? ==>
         RunOf(k, t.wakeups[k]) == RunOf(j, t.wakeups[j]) ==> k == j
  }

  /** Some claimed wakeup of the run is past its deadline. */
  ghost predicate RunOverdue(t: Tables, now: int, run: Key)
  {
    exists k :: k in t.wakeups && RunOf(k, t.wakeups[k]) == run && Overdue(t.wakeups[k], now)
  }

  lemma SettledStaysBound(t: Tables, now: int, c: Claim, w: Wakeup -> Wakeup)
    requires Bound(t) && CanAct(t, c)
    requires !w(t.wakeups[c.WakeupKey()]).state.Claimed? && w(t.wakeups[c.WakeupKey()]).run == c.run
    ensures Settled(t, now, c, w).Ok? && Bound(Settled(t, now, c, w).value)
  {
    var t', k := Settled(t, now, c, w).value, c.WakeupKey();
    forall j | j in t'.wakeups && t'.wakeups[j].state.Claimed? ensures Matches(t', j) {
      assert j != k && Matches(t, j);
      assert RunOf(j, t.wakeups[j]) != c.RunKey();
    }
  }

  lemma RenewedStaysBound(t: Tables, now: int, c: Claim, ttl: nat)
    requires Bound(t) && Renewed(t, now, c, ttl).Ok?
    ensures Bound(Renewed(t, now, c, ttl).value.0)
  {
    var t', k := Renewed(t, now, c, ttl).value.0, c.WakeupKey();
    forall j | j in t'.wakeups && t'.wakeups[j].state.Claimed? ensures Matches(t', j) {
      assert Matches(t, j);
      if j != k { assert RunOf(j, t.wakeups[j]) != c.RunKey(); }
    }
  }

  /** Agreement makes recovery succeed; it keeps the agreement and leaves no overdue claim behind. */
  lemma BoundRecovers(t: Tables, allowed: set<Text>, now: int)
    requires Bound(t)
    ensures RecoverAll(t, allowed, now).Ok?
    ensures var t' := RecoverAll(t, allowed, now).value;
            Bound(t') && forall k :: !IsStale(t', allowed, now, k)
  {
    var rows := StaleRows(t, allowed, now);
    forall k | k in rows ensures LeaseCarries(t, k) { assert Matches(t, k); }
    var t' := RecoverAll(t, allowed, now).value;
    forall k | k in t'.wakeups && t'.wakeups[k].state.Claimed?
      ensures Matches(t', k) && !IsStale(t', allowed, now, k)
    {
      assert k !in rows && Matches(t, k);
      var run := RunOf(k, t.wakeups[k]);
      forall j | j in rows ensures RunOf(j, t.wakeups[j]) != run { assert t.wakeups[j].state.Claimed?; }
    }
  }

  /** Taking a free wakeup of a run with no overdue claim keeps the agreement. */
  lemma TakeBound(ids: LeaseIds, t: Tables, now: int, holder: Text, ttl: nat, k: Key)
    requires Bound(t) && k in t.wakeups && t.wakeups[k].state.Pending? && ttl > 0
    requires !LeaseHeld(t, RunOf(k, t.wakeups[k]), now) && !RunOverdue(t, now, RunOf(k, t.wakeups[k]))
    ensures var t' := Take(t, k, ClaimOf(ids, t, now, holder, ttl, k));
            Bound(t') && forall run :: RunOverdue(t', now, run) ==> RunOverdue(t, now, run)
  {
    var run := RunOf(k, t.wakeups[k]);
    var t' := Take(t, k, ClaimOf(ids, t, now, holder, ttl, k));
    forall j | j in t.wakeups && t.wakeups[j].state.Claimed? ensures RunOf(j, t.wakeups[j]) != run {
      assert Matches(t, j);
    }
    forall j | j in t'.wakeups && t'.wakeups[j].state.Claimed? ensures Matches(t', j) {
      if j != k { assert Matches(t, j); }
    }
    forall r | RunOverdue(t', now, r) ensures RunOverdue(t, now, r) {
      var j :| j in t'.wakeups && RunOf(j, t'.wakeups[j]) == r && Overdue(t'.wakeups[j], now);
      assert j != k;
    }
  }

  lemma {:induction false} ClaimBound(ids: LeaseIds, c: Claiming, now: int, holder: Text, ttl: nat, rows: seq<Key>)
    requires Bound(c.tables) && ttl > 0
    requires forall k :: k in rows && k in c.tables.wakeups ==> !RunOverdue(c.tables, now, RunOf(k, c.tables.wakeups[k]))
    ensures var r := ClaimRows(ids, c, now, holder, ttl, rows);
            r.Ok? ==> Bound(r.value.tables)
    decreases rows
  {
    hide Bound, RunOverdue, Take, ClaimOf;
    if rows != [] && ClaimRow(ids, c, now, holder, ttl, rows[0]).Ok? {
      var d := ClaimRow(ids, c, now, holder, ttl, rows[0]).value;
      assert rows[0] in rows;
      if d != c {
        TakeBound(ids, c.tables, now, holder, ttl, rows[0]);
        TakeKeepsRuns(c.tables, rows[0], ClaimOf(ids, c.tables, now, holder, ttl, rows[0]));
      }
      ClaimBound(ids, d, now, holder, ttl, rows[1..]);
    }
  }

  lemma TakeKeepsRuns(t: Tables, k: Key, c: Claim)
    requires k in t.wakeups
    ensures Take(t, k, c).wakeups.Keys == t.wakeups.Keys
    ensures forall j :: j in t.wakeups ==> Take(t, k, c).wakeups[j].run == t.wakeups[j].run
  {
  }

  /** Claim steps happen only when no run of a selected row has an overdue claim. */
  ghost predicate Disciplined(s: System, op: Op)
  {
    op.ClaimSome? ==>
      forall k :: k in op.rows && k in s.tables.wakeups ==> !RunOverdue(s.tables, s.now, RunOf(k, s.tables.wakeups[k]))
  }

  ghost predicate AllDisciplined(ids: LeaseIds, s: System, ops: seq<Op>)
    decreases ops
  {
    ops != [] ==> Disciplined(s, ops[0]) && AllDisciplined(ids, Next(ids, s, ops[0]), ops[1..])
  }

  lemma StepStaysBound(ids: LeaseIds, s: System, op: Op)
    requires Bound(s.tables) && Disciplined(s, op)
    ensures Bound(Next(ids, s, op).tables)
  {
    if Attempt(ids, s, op).Some? {
      hide Bound, Disciplined, ClaimRows, RecoverAll, Settled, Renewed, CanAct;
      match op {
        case Enqueue(_, _, _, _, _, _) => EnqueuedStaysBound(ids, s, op);
        case ClaimSome(_, holder, _, ttl, rows) =>
          DisciplinedRows(s, op);
          ClaimBound(ids, Claiming(s.tables, {}, []), s.now, holder, ttl, rows);
        case RenewClaim(c, ttl) => RenewedStaysBound(s.tables, s.now, c, ttl);
        case CompleteClaim(c, status) =>
          ActingNeedsBoth(ids, s, c, 0, status, 0);
          CompletedStaysBound(s.tables, s.now, c, status);
        case ReleaseClaim(c, at) =>
          ActingNeedsBoth(ids, s, c, 0, ResultFailed, at);
          ReleasedStaysBound(s.tables, s.now, c, at);
        case Recover(allowed) => BoundRecovers(s.tables, allowed, s.now);
        case Tick(_) =>
      }
    }
  }

  lemma DisciplinedRows(s: System, op: Op)
    requires Disciplined(s, op) && op.ClaimSome?
    ensures forall k :: k in op.rows && k in s.tables.wakeups ==> !RunOverdue(s.tables, s.now, RunOf(k, s.tables.wakeups[k]))
  {
  }

  lemma EnqueuedStaysBound(ids: LeaseIds, s: System, op: Op)
    requires Bound(s.tables) && op.Enqueue? && Attempt(ids, s, op).Some?
    ensures Bound(Attempt(ids, s, op).value.tables)
  {
    var t' := Attempt(ids, s, op).value.tables;
    forall k | k in t'.wakeups && t'.wakeups[k].state.Claimed? ensures Matches(t', k) { assert Matches(s.tables, k); }
  }

  lemma CompletedStaysBound(t: Tables, now: int, c: Claim, status: ResultStatus)
    requires Bound(t) && CanAct(t, c)
    ensures CompletedTables(t, now, c, status).Ok? && Bound(CompletedTables(t, now, c, status).value)
  {
    hide Bound;
    SettledStaysBound(t, now, c, (w: Wakeup) => w.(state := Completed(status)));
  }

  lemma ReleasedStaysBound(t: Tables, now: int, c: Claim, at: int)
    requires Bound(t) && CanAct(t, c)
    ensures ReleasedTables(t, now, c, at).Ok? && Bound(ReleasedTables(t, now, c, at).value)
  {
    hide Bound;
    SettledStaysBound(t, now, c, (w: Wakeup) => ReturnWakeup(w, at));
  }

  lemma {:induction false} RunStaysBound(ids: LeaseIds, s: System, ops: seq<Op>)
    requires Bound(s.tables) && AllDisciplined(ids, s, ops)
    ensures Bound(Run(ids, s, ops).tables)
    decreases ops
  {
    if ops != [] {
      hide Bound, Next;
      StepStaysBound(ids, s, ops[0]);
      RunStaysBound(ids, Next(ids, s, ops[0]), ops[1..]);
    }
  }

  /**
   When every claim happens with no overdue claim in the runs it selects from, the tables agree at all times,
   recovery never conflicts, and it leaves no overdue claim of its tenants.
   */
  lemma DisciplinedRunsAgree(ids: LeaseIds, now: int, ops: seq<Op>, allowed: set<Text>)
    requires AllDisciplined(ids, Start(now), ops)
    ensures var s := Run(ids, Start(now), ops);
            && Bound(s.tables)
            && Attempt(ids, s, Recover(allowed)).Some?
            && forall k :: !IsStale(Attempt(ids, s, Recover(allowed)).value.tables, allowed, s.now, k)
  {
    hide RecoverAll, IsStale;
    RunStaysBound(ids, Start(now), ops);
    BoundRecovers(Run(ids, Start(now), ops).tables, allowed, Run(ids, Start(now), ops).now);
  }

  /** `runOnce` recovers and then claims: at one instant, the claim that follows a recovery is disciplined. */
  lemma RecoverThenClaimIsDisciplined(ids: LeaseIds, s: System, allowed: set<Text>, op: Op)
    requires Bound(s.tables) && op.ClaimSome? && op.allowed == allowed
    requires Attempt(ids, Next(ids, s, Recover(allowed)), op).Some?
    ensures Disciplined(Next(ids, s, Recover(allowed)), op)
  {
    hide RecoverAll, Bound, ClaimRows;
    BoundRecovers(s.tables, allowed, s.now);
    var q := Next(ids, s, Recover(allowed));
    forall k, j | k in op.rows && k in q.tables.wakeups && j in q.tables.wakeups
                  && RunOf(k, q.tables.wakeups[k]) == RunOf(j, q.tables.wakeups[j])
      ensures !Overdue(q.tables.wakeups[j], q.now)
    {
      assert Eligible(q.tables, allowed, q.now, k);
      assert !IsStale(q.tables, allowed, q.now, j);
    }
  }

  // ---------- without the discipline ----------

  /** A claimed wakeup whose run has moved on to a larger token. */
  predicate Overtaken(t: Tables, k: Key)
  {
    k in t.wakeups && t.wakeups[k].state.Claimed? && t.wakeups[k].token < TokenOf(t, RunOf(k, t.wakeups[k]))
  }

  lemma OvertakenStep(ids: LeaseIds, s: System, op: Op, k: Key)
    requires Overtaken(s.tables, k)
    ensures k in Next(ids, s, op).tables.wakeups && Next(ids, s, op).tables.wakeups[k] == s.tables.wakeups[k]
    ensures Next(ids, s, op).now >= s.now
  {
    var w := s.tables.wakeups[k];
    match op {
      case ClaimSome(_, holder, _, ttl, rows) =>
        if Attempt(ids, s, op).Some? {
          hide ClaimRows;
          ClaimKeepsRow(ids, Claiming(s.tables, {}, []), s.now, holder, ttl, rows, k);
        }
      case Recover(allowed) =>
        assert !LeaseCarries(s.tables, k);
        assert RecoverAll(s.tables, allowed, s.now).Ok? ==> k !in StaleRows(s.tables, allowed, s.now);
      case _ =>
    }
  }

  /** An overtaken wakeup stays claimed for ever, and from its deadline on recovery fails for its tenant. */
  lemma {:induction false} OvertakenBlocksRecovery(ids: LeaseIds, s: System, ops: seq<Op>, k: Key, allowed: set<Text>)
    requires Overtaken(s.tables, k) && k.tenant in allowed
    ensures var q := Run(ids, s, ops);
            && k in q.tables.wakeups && q.tables.wakeups[k] == s.tables.wakeups[k]
            && (s.tables.wakeups[k].state.until <= q.now ==> Attempt(ids, q, Recover(allowed)).None?)
    decreases ops
  {
    if ops == [] {
      assert !LeaseCarries(s.tables, k);
      assert s.tables.wakeups[k].state.until <= s.now ==> k in StaleRows(s.tables, allowed, s.now);
    } else {
      hide Next;
      var s' := Next(ids, s, ops[0]);
      OvertakenStep(ids, s, ops[0], k);
      TokensNeverFall(ids, s, [ops[0]], RunOf(k, s.tables.wakeups[k]));
      assert Run(ids, s, [ops[0]]) == s' by { assert [ops[0]][1..] == []; }
      hide Attempt;
      OvertakenBlocksRecovery(ids, s', ops[1..], k, allowed);
    }
  }

  /** Every selected free run is claimed, under a larger token. */
  lemma {:induction false} SelectedRunIsRaised(ids: LeaseIds, c: Claiming, now: int, holder: Text, ttl: nat,
          rows: seq<Key>, k: Key)
    requires k in rows && k in c.tables.wakeups && RunOf(k, c.tables.wakeups[k]) !in c.claimedRuns
    requires !LeaseHeld(c.tables, RunOf(k, c.tables.wakeups[k]), now)
    ensures var r, run := ClaimRows(ids, c, now, holder, ttl, rows), RunOf(k, c.tables.wakeups[k]);
            r.Ok? ==> TokenOf(r.value.tables, run) > TokenOf(c.tables, run)
    decreases rows
  {
    if ClaimRow(ids, c, now, holder, ttl, rows[0]).Ok? {
      var d, run := ClaimRow(ids, c, now, holder, ttl, rows[0]).value, RunOf(k, c.tables.wakeups[k]);
      if RunOf(rows[0], c.tables.wakeups[rows[0]]) == run {
        ClaimTokensGrow(ids, d, now, holder, ttl, rows[1..], run);
      } else {
        assert k in rows[1..] && d.tables.wakeups[k] == c.tables.wakeups[k];
        SelectedRunIsRaised(ids, d, now, holder, ttl, rows[1..], k);
      }
    }
  }

  /** The discipline is exact: a claim keeps the agreement if and only if it selects no run with an overdue claim. */
  lemma ClaimKeepsAgreementExactly(ids: LeaseIds, s: System, op: Op)
    requires Bound(s.tables) && op.ClaimSome? && Attempt(ids, s, op).Some?
    ensures Bound(Next(ids, s, op).tables) <==> Disciplined(s, op)
    ensures !Disciplined(s, op) ==> exists j :: Overtaken(Next(ids, s, op).tables, j)
  {
    if Disciplined(s, op) {
      StepStaysBound(ids, s, op);
    } else {
      hide Bound;
      var k :| k in op.rows && k in s.tables.wakeups && RunOverdue(s.tables, s.now, RunOf(k, s.tables.wakeups[k]));
      var run := RunOf(k, s.tables.wakeups[k]);
      var j :| j in s.tables.wakeups && RunOf(j, s.tables.wakeups[j]) == run && Overdue(s.tables.wakeups[j], s.now);
      ClaimOvertakes(ids, s, op, k, j);
    }
  }

  lemma ClaimOvertakes(ids: LeaseIds, s: System, op: Op, k: Key, j: Key)
    requires Bound(s.tables) && op.ClaimSome? && Attempt(ids, s, op).Some? && k in op.rows
    requires k in s.tables.wakeups && j in s.tables.wakeups
    requires RunOf(j, s.tables.wakeups[j]) == RunOf(k, s.tables.wakeups[k])
    requires Overdue(s.tables.wakeups[j], s.now)
    ensures Overtaken(Next(ids, s, op).tables, j) && !Bound(Next(ids, s, op).tables)
  {
    hide ClaimRows;
    var c := Claiming(s.tables, {}, []);
    assert Matches(s.tables, j) && Eligible(s.tables, op.allowed, s.now, k);
    ClaimKeepsRow(ids, c, s.now, op.holder, op.ttl, op.rows, j);
    SelectedRunIsRaised(ids, c, s.now, op.holder, op.ttl, op.rows, k);
    assert !Matches(Next(ids, s, op).tables, j);
  }

  /** Texts that the schemas of ids accept. */
  predicate Identifier(t: Text) { 1 <= |t| <= 256 }

  /** Two wakeups of one run, and a worker that claims the second when the first claim has just lapsed. */
  lemma RecoveryCanBeBlocked(ids: LeaseIds, tenant: Text, run: Text, first: Text, second: Text, holder: Text, order: Text,
          digest: Text) returns (ops: seq<Op>)
    requires first != second && IsDigest(digest)
    requires forall t :: t in [tenant, run, first, second, holder, order] ==> Identifier(t)
    ensures forall op :: op in ops && op.ClaimSome? ==> op.holder == holder
    ensures forall op :: op in ops && op.Enqueue? ==> op.requestDigest == digest && op.workOrderId == order && op.intact
    ensures Overtaken(Run(ids, Start(0), ops).tables, Key(tenant, first))
  {
    hide IsDigest;
    assert holder in [tenant, run, first, second, holder, order];
    var k, j := Key(tenant, first), Key(tenant, second);
    var a, b := Enqueue(k, run, digest, order, true, 0), Enqueue(j, run, digest, order, true, 0);
    var c, d := ClaimSome({tenant}, holder, 1, 1000, [k]), ClaimSome({tenant}, holder, 1, 1000, [j]);
    ops := [a, b, c, Tick(1000), d];
    var s0 := Start(0);
    var s2 := Next(ids, Next(ids, s0, a), b);
    OneClaim(ids, s2, c, k);
    var s3 := Next(ids, s2, c);
    var s4 := Next(ids, s3, Tick(1000));
    OneClaim(ids, s4, d, j);
    UnfoldFive(ids, s0, a, b, c, Tick(1000), d);
  }

  lemma OneClaim(ids: LeaseIds, s: System, op: Op, k: Key)
    requires op.ClaimSome? && op.rows == [k] && op.limit == 1 && op.ttl == 1000 && Identifier(op.holder)
    requires Eligible(s.tables, op.allowed, s.now, k) && s.tables.wakeups[k].intact
    ensures var c := ClaimOf(ids, s.tables, s.now, op.holder, op.ttl, k);
            Next(ids, s, op) == System(Take(s.tables, k, c), s.now, s.issued + [c])
  {
    var c := Claiming(s.tables, {}, []);
    assert [k][1..] == [];
    assert ClaimRows(ids, c, s.now, op.holder, op.ttl, [k]) == ClaimRow(ids, c, s.now, op.holder, op.ttl, k);
  }

  lemma UnfoldFive(ids: LeaseIds, s: System, a: Op, b: Op, c: Op, d: Op, e: Op)
    ensures Run(ids, s, [a, b, c, d, e]) == Next(ids, Next(ids, Next(ids, Next(ids, Next(ids, s, a), b), c), d), e)
  {
    hide Next;
    RunCons(ids, s, a, [b, c, d, e]);
    RunCons(ids, Next(ids, s, a), b, [c, d, e]);
    var t := Next(ids, Next(ids, s, a), b);
    RunCons(ids, t, c, [d, e]);
    RunCons(ids, Next(ids, t, c), d, [e]);
    RunCons(ids, Next(ids, Next(ids, t, c), d), e, []);
  }

  lemma RunCons(ids: LeaseIds, s: System, op: Op, rest: seq<Op>)
    ensures Run(ids, s, [op] + rest) == Run(ids, Next(ids, s, op), rest)
  {
    assert ([op] + rest)[1..] == rest;
  }

  // ---------- no wakeup is lost ----------

  predicate Unfinished(w: Wakeup) { w.state.Pending? || w.state.Claimed? }

  function Max(a: int, b: int): int { if a < b then b else a }

  /** An instant by which the wakeup is available and every hold on its run has lapsed. */
  function FreeBy(s: System, k: Key): int
    requires k in s.tables.wakeups
  {
    var w := s.tables.wakeups[k];
    var lease := if RunOf(k, w) in s.tables.leases then s.tables.leases[RunOf(k, w)].expiresAt else s.now;
    Max(Max(s.now, w.availableAt), lease)
  }

  /** Where the tables agree, recovery at that instant makes the wakeup eligible. */
  lemma RecoveryFrees(t: Tables, allowed: set<Text>, now: int, k: Key)
    requires Bound(t) && k in t.wakeups && Unfinished(t.wakeups[k]) && k.tenant in allowed
    requires t.wakeups[k].availableAt <= now
    requires RunOf(k, t.wakeups[k]) in t.leases ==> t.leases[RunOf(k, t.wakeups[k])].expiresAt <= now
    ensures RecoverAll(t, allowed, now).Ok? && Eligible(RecoverAll(t, allowed, now).value, allowed, now, k)
    ensures RecoverAll(t, allowed, now).value.wakeups[k].intact == t.wakeups[k].intact
  {
    BoundRecovers(t, allowed, now);
    if t.wakeups[k].state.Claimed? { assert Matches(t, k); }
  }

  /** From every state in which the tables agree, each unfinished wakeup can still be claimed. */
  lemma NoWakeupIsStuck(ids: LeaseIds, s: System, k: Key, allowed: set<Text>, holder: Text) returns (ops: seq<Op>)
    requires Identifier(holder)
    requires Bound(s.tables) && k in s.tables.wakeups && Unfinished(s.tables.wakeups[k])
    requires s.tables.wakeups[k].intact && k.tenant in allowed
    ensures var q := Run(ids, s, ops);
            && k in q.tables.wakeups && q.tables.wakeups[k].state.Claimed?
            && |q.issued| == |s.issued| + 1 && q.issued[|s.issued|].WakeupKey() == k && q.issued[|s.issued|].holder == holder
            && CanAct(q.tables, q.issued[|s.issued|])
  {
    var wait, claim := Tick(FreeBy(s, k) - s.now), ClaimSome(allowed, holder, 1, 1000, [k]);
    var s1 := s.(now := FreeBy(s, k));
    ops := [wait, Recover(allowed), claim];
    RecoveryFrees(s1.tables, allowed, s1.now, k);
    var s2 := s1.(tables := RecoverAll(s1.tables, allowed, s1.now).value);
    OneClaim(ids, s2, claim, k);
    assert Next(ids, s, wait) == s1 && Next(ids, s1, Recover(allowed)) == s2;
    RunCons(ids, s, wait, [Recover(allowed), claim]);
    RunCons(ids, s1, Recover(allowed), [claim]);
    RunCons(ids, s2, claim, []);
  }

  /** Completing or releasing frees the run at once, and ends every claim on it. */
  lemma SettlingFreesRun(ids: LeaseIds, s: System, op: Op, c: Claim)
    requires op.CompleteClaim? || op.ReleaseClaim?
    requires Attempt(ids, s, op).Some? && c.RunKey() == op.claim.RunKey()
    ensures var t := Next(ids, s, op).tables; !LeaseHeld(t, c.RunKey(), s.now) && !CanAct(t, c)
  {
  }

  /** A renewal keeps the claim it returns able to act until its new deadline, and no later. */
  lemma RenewalExtends(t: Tables, now: int, c: Claim, ttl: nat)
    requires Renewed(t, now, c, ttl).Ok?
    ensures var r := Renewed(t, now, c, ttl).value;
            && CanAct(r.0, r.1) && r.1 == c.(expiresAt := now + ttl)
            && forall at :: LeaseHeld(r.0, c.RunKey(), at) <==> at < r.1.expiresAt
  {
  }
}
