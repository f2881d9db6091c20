/** The queue's fencing tokens and the issuer's fences together. */
module WorkerFencing {
  import opened Utf16
  import opened Keys
  import LeaseQueue
  import LeaseRuns
  import opened WorkerAuthority

  /** The delegation that a worker asks for when it dispatches a claim. */
  predicate Delegates(d: Descriptor, c: LeaseQueue.Claim)
  {
    d.RunKey() == c.RunKey() && d.receiptId == c.receiptId && d.leaseId == c.leaseId && d.token == c.token
  }

  function LeaseOf(c: LeaseQueue.Claim): ObservedLease { ObservedLease(c.tenant, c.run, c.leaseId, c.token) }

  /** Once the lease of a newer claim is observed, delegations for older claims of the run are revoked for ever. */
  lemma NewerClaimRevokes(issued: seq<LeaseQueue.Claim>, i: nat, j: nat, s: Issuer, a: nat, steps: seq<Step>, at: int)
    requires LeaseRuns.Increasing(issued) && i < j < |issued| && issued[i].RunKey() == issued[j].RunKey()
    requires a < |s.issued| && Delegates(s.issued[a], issued[i]) && Observed(s, LeaseOf(issued[j])).Ok?
    ensures !ValidAt(Run(Next(s, Observe(LeaseOf(issued[j]))), steps), a, at)
  {
    RevokedForever(Next(s, Observe(LeaseOf(issued[j]))), a, steps, at);
  }

  /** At one moment, delegations that are valid for claims of one run are all for the same claim. */
  lemma OneClaimIsDelegated(issued: seq<LeaseQueue.Claim>, i: nat, j: nat, s: Issuer, a: nat, at: int, b: nat, bt: int)
    requires LeaseRuns.Increasing(issued) && i < |issued| && j < |issued| && issued[i].RunKey() == issued[j].RunKey()
    requires ValidAt(s, a, at) && ValidAt(s, b, bt)
    requires Delegates(s.issued[a], issued[i]) && Delegates(s.issued[b], issued[j])
    ensures i == j
  {
    ValidDelegationsAgree(s, a, at, b, bt);
    assert issued[i].token == issued[j].token;
  }
}
