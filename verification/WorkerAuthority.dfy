/** The worker's delegating authority issuer: observed fences, invalidated receipts and delegations. */
module WorkerAuthority {
  import opened Outcomes
  import opened Utf16
  import opened Keys

  datatype Fence = Fence(leaseId: Text, token: nat)

  /** A delegation: the run, the receipt and lease it rests on, and its lifetime. */
  datatype Descriptor = Descriptor(
    tenant: Text, runId: Text, receiptId: Text, leaseId: Text, token: nat, issuedAt: int, expiresAt: int, rest: Text)
  {
    function RunKey(): Key { Key(tenant, runId) }
    predicate AliveAt(at: int) { issuedAt <= at < expiresAt }
  }

  datatype ObservedLease = ObservedLease(tenant: Text, runId: Text, leaseId: Text, token: nat)
  {
    function RunKey(): Key { Key(tenant, runId) }
  }

  datatype IssueError = FenceConflict | ReceiptInvalid

  datatype Rejection = NotIssued | OtherIssuer | ExpiredAuthority | ReceiptMismatch | LeaseMismatch | FencingMismatch

  /** Capability objects are numbered in the order of issue, so `issued` maps each to its descriptor. */
  datatype Issuer = Issuer(leases: map<Key, Fence>, issued: seq<Descriptor>, invalidReceipts: set<Text>)

  const FRESH_ISSUER: Issuer := Issuer(map[], [], {})

  // ---------- what each operation does ----------

  predicate FenceIs(s: Issuer, run: Key, fence: Fence) { run in s.leases && s.leases[run] == fence }

  predicate Outdated(s: Issuer, lease: ObservedLease)
  {
    lease.RunKey() in s.leases && lease.token < s.leases[lease.RunKey()].token
  }

  function Observed(s: Issuer, lease: ObservedLease): Result<Issuer, IssueError>
  {
    if Outdated(s, lease) then Err(FenceConflict)
    else Ok(s.(leases := s.leases[lease.RunKey() := Fence(lease.leaseId, lease.token)]))
  }

  function Issued(s: Issuer, d: Descriptor): Result<Issuer, IssueError>
  {
    if !FenceIs(s, d.RunKey(), Fence(d.leaseId, d.token)) then Err(FenceConflict)
    else if d.receiptId in s.invalidReceipts then Err(ReceiptInvalid)
    else Ok(s.(issued := s.issued + [d]))
  }

  /** The delegation `authority` is good at the instant `at`. */
  predicate ValidAt(s: Issuer, authority: nat, at: int)
  {
    && authority < |s.issued|
    && var d := s.issued[authority];
       && d.AliveAt(at) && d.receiptId !in s.invalidReceipts
       && FenceIs(s, d.RunKey(), Fence(d.leaseId, d.token))
  }

  /** The run's observed lease is the one the delegation names, under whatever token. */
  predicate LeaseKnown(s: Issuer, d: Descriptor)
  {
    d.RunKey() in s.leases && s.leases[d.RunKey()].leaseId == d.leaseId
  }

  class AuthorityIssuer {
    var leases: map<Key, Fence>
    var issued: seq<Descriptor>
    var invalidReceipts: set<Text>

    constructor ()
      ensures State() == FRESH_ISSUER
    {
      leases, issued, invalidReceipts := map[], [], {};
    }

    function State(): Issuer
      reads this
    {
      Issuer(leases, issued, invalidReceipts)
    }

    method ObserveLease(lease: ObservedLease) returns (r: Result<(), IssueError>)
      modifies this`leases
      ensures match Observed(old(State()), lease)
              case Err(e) => r == Err(e) && State() == old(State())
              case Ok(s) => r == Ok(()) && State() == s
    {
      var key := lease.RunKey();
      if key in leases && lease.token < leases[key].token { return Err(FenceConflict); }
      leases := leases[key := Fence(lease.leaseId, lease.token)];
      return Ok(());
    }

    method InvalidateSchedulerReceipt(receiptId: Text)
      modifies this`invalidReceipts
      ensures State() == old(State()).(invalidReceipts := old(invalidReceipts) + {receiptId})
    {
      invalidReceipts := invalidReceipts + {receiptId};
    }

    method IssueDelegated(descriptor: Descriptor) returns (r: Result<nat, IssueError>)
      modifies this`issued
      ensures match Issued(old(State()), descriptor)
              case Err(e) => r == Err(e) && State() == old(State())
              case Ok(s) => r == Ok(|old(issued)|) && State() == s
    {
      var key := descriptor.RunKey();
      if key !in leases || leases[key].leaseId != descriptor.leaseId || leases[key].token != descriptor.token {
        return Err(FenceConflict);
      }
      if descriptor.receiptId in invalidReceipts { return Err(ReceiptInvalid); }
      issued := issued + [descriptor];
      return Ok(|issued| - 1);
    }

    /** `verifyDelegated`: accepts exactly the valid delegations; a rejection names the first failing check. */
    method VerifyDelegated(authority: nat, at: int) returns (r: Result<Descriptor, Rejection>)
      ensures r.Ok? <==> ValidAt(State(), authority, at)
      ensures r.Ok? ==> r.value == issued[authority]
      ensures r == Err(NotIssued) <==> authority >= |issued|
      ensures authority < |issued| ==>
        var d := issued[authority];
        && (r == Err(OtherIssuer) <==> at < d.issuedAt)
        && (r == Err(ExpiredAuthority) <==> d.issuedAt <= at && d.expiresAt <= at)
        && (r == Err(ReceiptMismatch) <==> d.AliveAt(at) && d.receiptId in invalidReceipts)
        && (r == Err(LeaseMismatch) <==> d.AliveAt(at) && d.receiptId !in invalidReceipts && !LeaseKnown(State(), d))
        && (r == Err(FencingMismatch) <==>
              d.AliveAt(at) && d.receiptId !in invalidReceipts && LeaseKnown(State(), d) && leases[d.RunKey()].token != d.token)
    {
      if authority >= |issued| { return Err(NotIssued); }
      var d := issued[authority];
      if at < d.issuedAt { return Err(OtherIssuer); }
      if at >= d.expiresAt { return Err(ExpiredAuthority); }
      if d.receiptId in invalidReceipts { return Err(ReceiptMismatch); }
      var key := d.RunKey();
      if key !in leases || leases[key].leaseId != d.leaseId { return Err(LeaseMismatch); }
      if leases[key].token != d.token { return Err(FencingMismatch); }
      return Ok(d);
    }
  }

  // ---------- runs ----------

  datatype Step = Observe(lease: ObservedLease) | Invalidate(receiptId: Text) | Issue(descriptor: Descriptor)

  /** A refused operation changes nothing. */
  function Next(s: Issuer, step: Step): Issuer
  {
    match step
    case Observe(lease) => (match Observed(s, lease) case Ok(t) => t case Err(_) => s)
    case Invalidate(id) => s.(invalidReceipts := s.invalidReceipts + {id})
    case Issue(d) => (match Issued(s, d) case Ok(t) => t case Err(_) => s)
  }

  function Run(s: Issuer, steps: seq<Step>): Issuer
    decreases steps
  {
    if steps == [] then s else Run(Next(s, steps[0]), steps[1..])
  }

  /** Fences only rise, receipts stay invalid, and issued delegations keep their descriptors. */
  ghost predicate Later(s: Issuer, t: Issuer)
  {
    && (forall run :: run in s.leases ==> run in t.leases && t.leases[run].token >= s.leases[run].token)
    && s.invalidReceipts <= t.invalidReceipts
    && s.issued <= t.issued
  }

  lemma {:induction false} RunsMoveForward(s: Issuer, steps: seq<Step>)
    ensures Later(s, Run(s, steps))
    decreases steps
  {
    if steps != [] {
      RunsMoveForward(Next(s, steps[0]), steps[1..]);
      assert Later(s, Next(s, steps[0]));
    }
  }

  /** Delegations of one run that are valid in one state rest on the same lease and token. */
  lemma ValidDelegationsAgree(s: Issuer, a: nat, at: int, b: nat, bt: int)
    requires ValidAt(s, a, at) && ValidAt(s, b, bt) && s.issued[a].RunKey() == s.issued[b].RunKey()
    ensures s.issued[a].leaseId == s.issued[b].leaseId && s.issued[a].token == s.issued[b].token
  {
    assert FenceIs(s, s.issued[a].RunKey(), Fence(s.issued[b].leaseId, s.issued[b].token));
  }

  /** A larger fence was observed for the run, or the receipt was invalidated. */
  predicate Revoked(s: Issuer, authority: nat)
    requires authority < |s.issued|
  {
    var d := s.issued[authority];
    d.receiptId in s.invalidReceipts || (d.RunKey() in s.leases && s.leases[d.RunKey()].token > d.token)
  }

  lemma RevokedForever(s: Issuer, authority: nat, steps: seq<Step>, at: int)
    requires authority < |s.issued| && Revoked(s, authority)
    ensures !ValidAt(Run(s, steps), authority, at)
  {
    hide Run;
    var t := Run(s, steps);
    RunsMoveForward(s, steps);
    assert t.issued[..|s.issued|] == s.issued;
    var run := s.issued[authority].RunKey();
    assert run in s.leases ==> t.leases[run].token >= s.leases[run].token;
  }

  /** Revocation is exactly the loss of every valid future, for a delegation with a lifetime. */
  lemma RevocationIsPermanent(s: Issuer, authority: nat)
    requires authority < |s.issued| && s.issued[authority].issuedAt < s.issued[authority].expiresAt
    ensures Revoked(s, authority) <==> forall steps, at :: !ValidAt(Run(s, steps), authority, at)
  {
    if Revoked(s, authority) {
      forall steps, at ensures !ValidAt(Run(s, steps), authority, at) { RevokedForever(s, authority, steps, at); }
    } else {
      var d := s.issued[authority];
      var observe := Observe(ObservedLease(d.tenant, d.runId, d.leaseId, d.token));
      assert Run(s, [observe]) == Next(s, observe) by { assert [observe][1..] == []; }
      assert ValidAt(Run(s, [observe]), authority, d.issuedAt);
    }
  }

  /** A lease is observed unless a larger token of its run is known, and then its fence alone stands for the run. */
  lemma ObservesExactly(s: Issuer, lease: ObservedLease)
    ensures
      var run := Key(lease.tenant, lease.runId);
      && (Observed(s, lease).Err? <==> run in s.leases && lease.token < s.leases[run].token)
      && (Observed(s, lease).Ok? ==>
            && Observed(s, lease).value.leases == s.leases[run := Fence(lease.leaseId, lease.token)]
            && Observed(s, lease).value.issued == s.issued
            && Observed(s, lease).value.invalidReceipts == s.invalidReceipts)
  {
  }

  /** A delegation is issued exactly on the fence last observed for its run and a receipt that still stands. */
  lemma IssuesExactly(s: Issuer, d: Descriptor)
    ensures
      var run := Key(d.tenant, d.runId);
      Issued(s, d).Ok? <==>
      run in s.leases && s.leases[run].leaseId == d.leaseId && s.leases[run].token == d.token && d.receiptId !in s.invalidReceipts
  {
  }

  /** When a delegation is valid: from its issue until before its expiry, on a standing receipt and the fence of its run. */
  lemma ValidExactly(s: Issuer, authority: nat, at: int)
    requires authority < |s.issued|
    ensures
      var d, run := s.issued[authority], Key(s.issued[authority].tenant, s.issued[authority].runId);
      ValidAt(s, authority, at) <==>
      && d.issuedAt <= at && at < d.expiresAt && d.receiptId !in s.invalidReceipts
      && run in s.leases && s.leases[run].leaseId == d.leaseId && s.leases[run].token == d.token
  {
  }

  /** What the issuer hands out is valid at once, until its time, its receipt or its fence runs out. */
  lemma FreshDelegationIsValid(s: Issuer, d: Descriptor, at: int)
    requires Issued(s, d).Ok? && d.issuedAt <= at < d.expiresAt
    ensures ValidAt(Issued(s, d).value, |s.issued|, at)
    ensures forall b: nat :: b < |s.issued| ==> ValidAt(Issued(s, d).value, b, at) == ValidAt(s, b, at)
  {
  }
}
