/** How far the reserved amounts stay within the limits when the engine rounds its sums. */
module AdmissionLimits {
  import opened Outcomes
  import opened Utf16
  import opened Decimal
  import opened Admission
  import opened AdmissionRuns

  // ---------- sums of amounts ----------

  function Sum(xs: seq<real>): real
  {
    if xs == [] then 0.0 else Sum(xs[..|xs| - 1]) + xs[|xs| - 1]
  }

  /** The amounts added up by the engine, from zero. */
  function Fold(add: Adder, xs: seq<real>): real
  {
    if xs == [] then 0.0 else add(Fold(add, xs[..|xs| - 1]), xs[|xs| - 1])
  }

  ghost predicate Amounts(xs: seq<real>, good: real -> bool) { forall x :: x in xs ==> x > 0.0 && good(x) }

  function Times(a: real, b: real): real { a * b }

  /** What is left of one when the fraction `u` is lost `n` times. */
  function Shrink(u: real, n: nat): real
  {
    if n == 0 then 1.0 else Times(Shrink(u, n - 1), 1.0 - u)
  }

  predicate Fraction(u: real) { 0.0 <= u < 1.0 }

  lemma ShrinkOnce(r: real, u: real)
    requires 0.0 < r <= 1.0 && Fraction(u)
    ensures 0.0 < Times(r, 1.0 - u) <= r
  {
  }

  lemma {:induction false} ShrinkBounds(u: real, n: nat)
    requires Fraction(u)
    ensures 0.0 < Shrink(u, n) <= 1.0
  {
    hide Times, Fraction;
    if n > 0 {
      ShrinkBounds(u, n - 1);
      ShrinkOnce(Shrink(u, n - 1), u);
    }
  }

  lemma ShrinkFalls(u: real, n: nat)
    requires Fraction(u)
    ensures 0.0 < Shrink(u, n + 1) <= Shrink(u, n) <= 1.0
  {
    hide Times, Fraction;
    ShrinkBounds(u, n);
    ShrinkOnce(Shrink(u, n), u);
  }

  lemma {:induction false} ShrinkKeepsFalling(u: real, m: nat, n: nat)
    requires Fraction(u) && m <= n
    ensures 0.0 < Shrink(u, n) <= Shrink(u, m)
    decreases n - m
  {
    hide Times, Fraction, Shrink;
    if m < n {
      ShrinkKeepsFalling(u, m, n - 1);
      ShrinkFalls(u, n - 1);
    } else {
      ShrinkBounds(u, n);
    }
  }

  lemma {:induction false} NothingLost(n: nat)
    ensures Shrink(0.0, n) == 1.0
  {
    if n > 0 { NothingLost(n - 1); }
  }

  /** Amounts that the engine adds up to at most the maximum exceed it by no more than the losses of their additions. */
  ghost predicate Honest(add: Adder, good: real -> bool, u: real, maximum: real)
  {
    && Fraction(u)
    && forall xs :: Amounts(xs, good) && Fold(add, xs) <= maximum ==> Times(Sum(xs), Shrink(u, |xs|)) <= maximum
  }

  // ---------- the quota ----------

  function AmountsOf(list: seq<Reservation>, scope: Scope, at: int): seq<real>
  {
    if list == [] then [] else
      var last := list[|list| - 1];
      AmountsOf(list[..|list| - 1], scope, at) + if ActiveAt(last, scope, at) then [last.amount] else []
  }

  lemma {:induction false} SumsOf(add: Adder, list: seq<Reservation>, scope: Scope, at: int)
    ensures Active(add, list, scope, at) == Fold(add, AmountsOf(list, scope, at))
    ensures Charged(list, scope, at) == Sum(AmountsOf(list, scope, at))
    ensures |AmountsOf(list, scope, at)| <= |list|
    decreases |list|
  {
    if list != [] {
      var before, last := AmountsOf(list[..|list| - 1], scope, at), list[|list| - 1];
      SumsOf(add, list[..|list| - 1], scope, at);
      assert (before + [last.amount])[..|before|] == before;
      assert before + [] == before;
    }
  }

  ghost predicate GoodIn(list: seq<Reservation>, scope: Scope, good: real -> bool)
  {
    forall r :: r in list && r.scope == scope ==> r.amount > 0.0 && good(r.amount)
  }

  lemma {:induction false} AmountsAreGood(list: seq<Reservation>, scope: Scope, at: int, good: real -> bool)
    requires GoodIn(list, scope, good)
    ensures Amounts(AmountsOf(list, scope, at), good)
    decreases |list|
  {
    if list != [] {
      assert forall r :: r in list[..|list| - 1] ==> r in list;
      AmountsAreGood(list[..|list| - 1], scope, at, good);
    }
  }

  function Maximum(limits: map<Text, Limit>, category: Text): real
  {
    if category in limits then limits[category].maximum else 0.0
  }

  /** The active amounts of a scope exceed its limit by no more than the losses of as many additions as there are entries. */
  ghost predicate Capped(good: real -> bool, u: real, maximum: real, q: Quota, scope: Scope, at: int)
  {
    var list := OfTenant(q, scope.tenant);
    GoodIn(list, scope, good) && Times(Charged(list, scope, at), Shrink(u, |list|)) <= maximum
  }

  lemma LessIsCapped(a: real, b: real, shrink: real, maximum: real)
    requires 0.0 <= a <= b && 0.0 < shrink && Times(b, shrink) <= maximum
    ensures Times(a, shrink) <= maximum
  {
  }

  lemma MoreShrunk(a: real, shrink: real, more: real, maximum: real)
    requires 0.0 <= a && 0.0 < more <= shrink && Times(a, shrink) <= maximum
    ensures Times(a, more) <= maximum
  {
  }

  lemma WindingKeepsCap(good: real -> bool, u: real, maximum: real, q: Quota, down: Quota, scope: Scope, at: int)
    requires Fraction(u) && Sound(q) && WindsDown(q, down) && Capped(good, u, maximum, q, scope, at)
    ensures Capped(good, u, maximum, down, scope, at)
  {
    hide Charged, Shrink, Answered, Times, Fraction;
    ShrinkBounds(u, |OfTenant(q, scope.tenant)|);
    var list, wound := OfTenant(q, scope.tenant), OfTenant(down, scope.tenant);
    assert Filed(list, scope.tenant) && Winds(list, wound);
    ChargeWindsDown(list, wound, scope.tenant, scope, at);
    LessIsCapped(Charged(wound, scope, at), Charged(list, scope, at), Shrink(u, |list|), maximum);
    forall r | r in wound && r.scope == scope ensures r.amount > 0.0 && good(r.amount) {
      var i :| 0 <= i < |wound| && wound[i] == r;
      assert list[i] in list && list[i].scope == scope && list[i].amount == r.amount;
    }
  }

  lemma TimeKeepsCap(good: real -> bool, u: real, maximum: real, q: Quota, scope: Scope, at: int, later: int)
    requires Fraction(u) && Sound(q) && at <= later && Capped(good, u, maximum, q, scope, at)
    ensures Capped(good, u, maximum, q, scope, later)
  {
    hide Charged, Shrink, Answered, GoodIn, Times, Fraction;
    ShrinkBounds(u, |OfTenant(q, scope.tenant)|);
    var list := OfTenant(q, scope.tenant);
    assert Filed(list, scope.tenant);
    ChargeFalls(list, scope.tenant, scope, at, later);
    LessIsCapped(Charged(list, scope, later), Charged(list, scope, at), Shrink(u, |list|), maximum);
  }

  /** The limit test of `reserve` keeps the cap, by the honesty of the sums. */
  lemma AdmittedIsCapped(add: Adder, good: real -> bool, u: real, maximum: real, list: seq<Reservation>, scope: Scope, at: int,
          amount: real)
    requires Honest(add, good, u, maximum) && GoodIn(list, scope, good) && amount > 0.0 && good(amount)
    requires Charged(list, scope, at) >= 0.0 && add(Active(add, list, scope, at), amount) <= maximum
    ensures Times(Charged(list, scope, at) + amount, Shrink(u, |list| + 1)) <= maximum
  {
    hide Shrink, AmountsOf, Active, Charged, Times, Fraction;
    var xs := AmountsOf(list, scope, at);
    SumsOf(add, list, scope, at);
    AmountsAreGood(list, scope, at, good);
    assert (xs + [amount])[..|xs|] == xs;
    assert Amounts(xs + [amount], good);
    ShrinkKeepsFalling(u, |xs| + 1, |list| + 1);
    MoreShrunk(Charged(list, scope, at) + amount, Shrink(u, |xs| + 1), Shrink(u, |list| + 1), maximum);
  }

  ghost predicate GoodRequest(req: Request, scope: Scope, good: real -> bool)
  {
    req.scope == scope ==> good(req.amount)
  }

  lemma CapOneMore(good: real -> bool, u: real, maximum: real, list: seq<Reservation>, r: Reservation, scope: Scope, at: int)
    requires Fraction(u) && Filed(list, scope.tenant) && GoodIn(list, scope, good)
    requires Times(Charged(list, scope, at), Shrink(u, |list|)) <= maximum
    requires r.scope == scope ==>
               r.amount > 0.0 && good(r.amount) && Times(Charged(list, scope, at) + r.amount, Shrink(u, |list| + 1)) <= maximum
    ensures GoodIn(list + [r], scope, good) && Times(Charged(list + [r], scope, at), Shrink(u, |list| + 1)) <= maximum
  {
    hide Charged, Shrink, Times, Fraction;
    ChargeFalls(list, scope.tenant, scope, at, at);
    ChargeAppended(list, r, scope, at);
    ShrinkFalls(u, |list|);
    MoreShrunk(Charged(list, scope, at), Shrink(u, |list|), Shrink(u, |list| + 1), maximum);
  }

  /** What a reservation that is stored has passed, and where it is stored. */
  lemma StoredHasPassed(add: Adder, limits: map<Text, Limit>, q: Quota, req: Request, id: Text, now: int, tenant: Text)
    requires Reserve(add, limits, q, req, id, now).1 != q
    ensures req.amount > 0.0
    ensures add(Active(add, OfTenant(q, req.scope.tenant), req.scope, now), req.amount) <= Maximum(limits, req.scope.category)
    ensures OfTenant(Stored(q, req, id, now), tenant)
            == OfTenant(q, tenant) + if tenant == req.scope.tenant then [Fresh(req, id, now)] else []
  {
    hide Active, Find, Replayed;
    assert OfTenant(q, tenant) + [] == OfTenant(q, tenant);
  }

  lemma StoringKeepsCap(add: Adder, limits: map<Text, Limit>, good: real -> bool, u: real, q: Quota, req: Request, id: Text,
          now: int, scope: Scope)
    requires Honest(add, good, u, Maximum(limits, scope.category)) && GoodRequest(req, scope, good) && Sound(q)
    requires Capped(good, u, Maximum(limits, scope.category), q, scope, now)
    requires Reserve(add, limits, q, req, id, now).1 != q
    ensures Capped(good, u, Maximum(limits, scope.category), Stored(q, req, id, now), scope, now)
  {
    hide Charged, Shrink, Answered, Active, Times, Filed, GoodIn, Reserve, Stored, OfTenant, Maximum;
    var list := OfTenant(q, scope.tenant);
    assert Filed(list, scope.tenant);
    StoredHasPassed(add, limits, q, req, id, now, scope.tenant);
    assert list + [] == list;
    if req.scope.tenant == scope.tenant {
      NotNegativeCharge(list, scope, now);
      if req.scope == scope {
        AdmittedIsCapped(add, good, u, Maximum(limits, scope.category), list, scope, now, req.amount);
      }
      CapOneMore(good, u, Maximum(limits, scope.category), list, Fresh(req, id, now), scope, now);
    }
  }

  lemma NotNegativeCharge(list: seq<Reservation>, scope: Scope, at: int)
    requires Filed(list, scope.tenant)
    ensures 0.0 <= Charged(list, scope, at)
  {
    hide Charged, Filed;
    ChargeFalls(list, scope.tenant, scope, at, at);
  }

  ghost predicate GoodOps(ops: seq<Op>, scope: Scope, good: real -> bool)
  {
    forall op :: op in ops && op.ReserveOp? ==> GoodRequest(op.request, scope, good)
  }

  lemma StepKeepsCap(add: Adder, limits: map<Text, Limit>, good: real -> bool, u: real, s: System, op: Op, scope: Scope)
    requires Honest(add, good, u, Maximum(limits, scope.category)) && Sound(s.quota)
    requires op.ReserveOp? ==> GoodRequest(op.request, scope, good)
    requires Capped(good, u, Maximum(limits, scope.category), s.quota, scope, s.now)
    ensures var s' := Next(add, limits, s, op); Capped(good, u, Maximum(limits, scope.category), s'.quota, scope, s'.now)
  {
    hide Capped, Sound, Stored, Active, Find, Replayed, Release, Reconcile, WindsDown, GoodRequest, Maximum;
    match op {
      case ReserveOp(req, id) =>
        if Reserve(add, limits, s.quota, req, id, s.now).1 != s.quota {
          StoringKeepsCap(add, limits, good, u, s.quota, req, id, s.now, scope);
        }
      case ReleaseOp(tenant, id, token, at) =>
        ReleaseWindsDown(s.quota, tenant, id, token, at);
        WindingKeepsCap(good, u, Maximum(limits, scope.category), s.quota,
                        Release(s.quota, tenant, id, token, at).1, scope, s.now);
      case ReconcileOp(at) =>
        ReconcileWindsDown(s.quota, at);
        WindingKeepsCap(good, u, Maximum(limits, scope.category), s.quota, Reconcile(s.quota, at), scope, s.now);
      case Tick(elapsed) =>
        TimeKeepsCap(good, u, Maximum(limits, scope.category), s.quota, scope, s.now, s.now + elapsed);
    }
  }

  lemma {:induction false} RunKeepsCap(add: Adder, limits: map<Text, Limit>, good: real -> bool, u: real, s: System,
          ops: seq<Op>, scope: Scope)
    requires Honest(add, good, u, Maximum(limits, scope.category)) && Sound(s.quota) && GoodOps(ops, scope, good)
    requires Capped(good, u, Maximum(limits, scope.category), s.quota, scope, s.now)
    ensures var q := Run(add, limits, s, ops);
            Sound(q.quota) && Capped(good, u, Maximum(limits, scope.category), q.quota, scope, q.now)
    decreases ops
  {
    if ops != [] {
      hide Capped, Sound, Next, GoodRequest, Maximum, Honest;
      assert ops[0] in ops && forall op :: op in ops[1..] ==> op in ops;
      StepKeepsSound(add, limits, s, ops[0]);
      StepKeepsCap(add, limits, good, u, s, ops[0], scope);
      RunKeepsCap(add, limits, good, u, Next(add, limits, s, ops[0]), ops[1..], scope);
    }
  }

  /** In every run, at every later instant, the unexpired reserved amounts exceed the limit by no more than the losses. */
  lemma QuotaCapped(add: Adder, limits: map<Text, Limit>, good: real -> bool, u: real, start: int, ops: seq<Op>, scope: Scope,
          later: int)
    requires PositiveLimits(limits) && Honest(add, good, u, Maximum(limits, scope.category)) && GoodOps(ops, scope, good)
    requires later >= Run(add, limits, System(EMPTY, start), ops).now
    ensures Capped(good, u, Maximum(limits, scope.category), Run(add, limits, System(EMPTY, start), ops).quota, scope, later)
  {
    hide Capped, GoodOps, Run, Maximum, Times, Fraction, Fold, Sum, Shrink;
    EmptyIsSound();
    EmptyIsCapped(good, u, limits, scope, start);
    RunKeepsCap(add, limits, good, u, System(EMPTY, start), ops, scope);
    var q := Run(add, limits, System(EMPTY, start), ops);
    TimeKeepsCap(good, u, Maximum(limits, scope.category), q.quota, scope, q.now, later);
  }

  lemma EmptyIsCapped(good: real -> bool, u: real, limits: map<Text, Limit>, scope: Scope, at: int)
    requires PositiveLimits(limits)
    ensures Capped(good, u, Maximum(limits, scope.category), EMPTY, scope, at)
  {
    hide Shrink;
  }

  // ---------- all amounts: the loss is bounded ----------

  /** Each addition loses at most the fraction `u` of the exact sum, as rounding to the nearest double does. */
  ghost predicate Rounds(add: Adder, u: real)
  {
    Fraction(u) && forall a, b :: 0.0 <= a && 0.0 <= b ==> add(a, b) >= Times(a + b, 1.0 - u)
  }

  lemma OneLoss(computed: real, exact: real, shrink: real, x: real, u: real)
    requires 0.0 <= exact && 0.0 <= x && 0.0 < shrink <= 1.0 && Fraction(u) && computed >= Times(exact, shrink)
    ensures Times(computed + x, 1.0 - u) >= Times(exact + x, Times(shrink, 1.0 - u))
  {
    var left := 1.0 - u;
    assert computed + x >= (exact + x) * shrink by { Distributes(exact, x, shrink); }
    Scales((exact + x) * shrink, computed + x, left);
    Associates(exact + x, shrink, left);
  }

  lemma Distributes(a: real, x: real, shrink: real)
    requires 0.0 <= x && shrink <= 1.0
    ensures a * shrink + x >= (a + x) * shrink
  {
    assert (a + x) * shrink == a * shrink + x * shrink;
    Scales(shrink, 1.0, x);
  }

  lemma Scales(a: real, b: real, c: real)
    requires a <= b && 0.0 <= c
    ensures a * c <= b * c
  {
  }

  lemma Associates(a: real, b: real, c: real)
    ensures a * b * c == a * (b * c)
  {
  }

  lemma {:induction false} FoldLoses(add: Adder, u: real, xs: seq<real>)
    requires Rounds(add, u) && forall x :: x in xs ==> x > 0.0
    ensures 0.0 <= Times(Sum(xs), Shrink(u, |xs|)) <= Fold(add, xs) && 0.0 <= Sum(xs)
    decreases |xs|
  {
    if xs == [] {
      assert Times(0.0, 1.0) == 0.0;
    } else {
      hide Times, Fraction;
      var init, x := xs[..|xs| - 1], xs[|xs| - 1];
      assert x in xs && forall y :: y in init ==> y in xs;
      FoldLoses(add, u, init);
      ShrinkBounds(u, |init|);
      ShrinkBounds(u, |xs|);
      OneLoss(Fold(add, init), Sum(init), Shrink(u, |init|), x, u);
      NotNegative(Sum(xs), Shrink(u, |xs|));
    }
  }

  lemma NotNegative(a: real, b: real)
    requires 0.0 <= a && 0.0 < b
    ensures 0.0 <= Times(a, b)
  {
  }

  function AnyAmount(): real -> bool { (a: real) => true }

  /** For all amounts, the excess over the limit is at most the accumulated rounding. */
  lemma QuotaWithinRounding(add: Adder, limits: map<Text, Limit>, u: real, start: int, ops: seq<Op>, scope: Scope, later: int)
    requires PositiveLimits(limits) && Rounds(add, u) && later >= Run(add, limits, System(EMPTY, start), ops).now
    ensures var list := OfTenant(Run(add, limits, System(EMPTY, start), ops).quota, scope.tenant);
            Charged(list, scope, later) * Shrink(u, |list|) <= Maximum(limits, scope.category)
  {
    hide Shrink, Sum, Fold, Run, Charged, Fraction;
    forall xs | Amounts(xs, AnyAmount()) ensures Times(Sum(xs), Shrink(u, |xs|)) <= Fold(add, xs) { FoldLoses(add, u, xs); }
    QuotaCapped(add, limits, AnyAmount(), u, start, ops, scope, later);
  }

  // ---------- when the quota is kept exactly ----------

  /** In every run that reserves good amounts in the scope, what is reserved there stays within the limit. */
  ghost predicate QuotaKept(add: Adder, limits: map<Text, Limit>, scope: Scope, good: real -> bool)
  {
    forall start, ops, later :: GoodOps(ops, scope, good) && later >= Run(add, limits, System(EMPTY, start), ops).now ==>
      WithinLimit(limits, Run(add, limits, System(EMPTY, start), ops).quota, scope, later)
  }

  predicate WithinLimit(limits: map<Text, Limit>, q: Quota, scope: Scope, at: int)
  {
    Charged(OfTenant(q, scope.tenant), scope, at) <= Maximum(limits, scope.category)
  }

  /** No list of good amounts is added up to at most the maximum while its exact sum is more. */
  ghost predicate SumsKept(add: Adder, good: real -> bool, maximum: real)
  {
    forall xs :: Amounts(xs, good) && Fold(add, xs) <= maximum ==> Sum(xs) <= maximum
  }

  /** Adding an amount does not lower a sum. */
  ghost predicate Grows(add: Adder) { forall a, b :: 0.0 <= a && 0.0 <= b ==> add(a, b) >= a }

  lemma RunSnoc(add: Adder, limits: map<Text, Limit>, s: System, ops: seq<Op>, op: Op)
    ensures Run(add, limits, s, ops + [op]) == Next(add, limits, Run(add, limits, s, ops), op)
    decreases ops
  {
    hide Next;
    if ops == [] {
      assert ([] + [op])[1..] == [];
    } else {
      RunSnoc(add, limits, Next(add, limits, s, ops[0]), ops[1..], op);
      assert (ops + [op])[1..] == ops[1..] + [op];
    }
  }

  /** One reservation for each amount, under ids of their own, for one millisecond. */
  function ReservationsOf(scope: Scope, xs: seq<real>): seq<Op>
  {
    if xs == [] then [] else
      ReservationsOf(scope, xs[..|xs| - 1])
      + [ReserveOp(Request(scope, None, xs[|xs| - 1], 1), IntegerText(|xs| - 1))]
  }

  /** The list made by those reservations. */
  ghost predicate Lists(list: seq<Reservation>, scope: Scope, xs: seq<real>)
  {
    AmountsOf(list, scope, 0) == xs && |list| == |xs| && forall i :: 0 <= i < |list| ==> list[i].id == IntegerText(i)
  }

  lemma ListsOneMore(list: seq<Reservation>, scope: Scope, xs: seq<real>, x: real)
    requires Lists(list, scope, xs)
    ensures Lists(list + [Fresh(Request(scope, None, x, 1), IntegerText(|xs|), 0)], scope, xs + [x])
    ensures Find(list, IntegerText(|xs|)).None?
  {
    hide IntegerText;
    var r := Fresh(Request(scope, None, x, 1), IntegerText(|xs|), 0);
    assert (list + [r])[..|list|] == list;
    forall i | 0 <= i < |list| ensures IntegerText(i) != IntegerText(|xs|) {
      if IntegerText(i) == IntegerText(|xs|) { IntegerTextInjective(i, |xs|); }
    }
    hide AmountsOf, Find;
  }

  lemma ListsFold(add: Adder, list: seq<Reservation>, scope: Scope, xs: seq<real>)
    requires Lists(list, scope, xs)
    ensures Active(add, list, scope, 0) == Fold(add, xs)
  {
    hide IntegerText;
    SumsOf(add, list, scope, 0);
  }

  lemma OneAdmitted(add: Adder, limits: map<Text, Limit>, scope: Scope, s: System, xs: seq<real>, x: real)
    requires scope.category in limits && x > 0.0 && s.now == 0 && Lists(OfTenant(s.quota, scope.tenant), scope, xs)
    requires add(Fold(add, xs), x) <= limits[scope.category].maximum
    ensures var t := Next(add, limits, s, ReserveOp(Request(scope, None, x, 1), IntegerText(|xs|)));
            t.now == 0 && Lists(OfTenant(t.quota, scope.tenant), scope, xs + [x])
  {
    hide IntegerText, AmountsOf, Find, Active, Lists, Fold, Fresh;
    var list := OfTenant(s.quota, scope.tenant);
    ListsOneMore(list, scope, xs, x);
    ListsFold(add, list, scope, xs);
  }

  /** Reservations of amounts that the engine adds up to at most the limit, at every point, are all admitted. */
  lemma {:induction false} AllAdmitted(add: Adder, limits: map<Text, Limit>, scope: Scope, xs: seq<real>)
    requires scope.category in limits && forall x :: x in xs ==> x > 0.0
    requires forall n :: 0 <= n <= |xs| ==> Fold(add, xs[..n]) <= limits[scope.category].maximum
    ensures var s := Run(add, limits, System(EMPTY, 0), ReservationsOf(scope, xs));
            s.now == 0 && Lists(OfTenant(s.quota, scope.tenant), scope, xs)
    decreases |xs|
  {
    hide Next, Lists, IntegerText;
    if xs == [] {
      NothingListed(scope);
    } else {
      var init, x, n := xs[..|xs| - 1], xs[|xs| - 1], |xs| - 1;
      assert x in xs && xs[..|xs|] == xs && init + [x] == xs && forall y :: y in init ==> y in xs;
      assert forall m :: 0 <= m <= n ==> init[..m] == xs[..m];
      AllAdmitted(add, limits, scope, init);
      RunSnoc(add, limits, System(EMPTY, 0), ReservationsOf(scope, init),
              ReserveOp(Request(scope, None, x, 1), IntegerText(n)));
      OneAdmitted(add, limits, scope, Run(add, limits, System(EMPTY, 0), ReservationsOf(scope, init)), init, x);
    }
  }

  lemma NothingListed(scope: Scope)
    ensures Lists(OfTenant(EMPTY, scope.tenant), scope, [])
  {
  }

  lemma GrowsBy(add: Adder, a: real, b: real)
    requires Grows(add) && 0.0 <= a && 0.0 < b
    ensures add(a, b) >= a
  {
  }

  lemma {:induction false} FoldNotNegative(add: Adder, xs: seq<real>)
    requires Grows(add) && forall x :: x in xs ==> x > 0.0
    ensures 0.0 <= Fold(add, xs)
    decreases |xs|
  {
    if xs != [] {
      var init := xs[..|xs| - 1];
      assert xs[|xs| - 1] in xs && forall y :: y in init ==> y in xs;
      FoldNotNegative(add, init);
      GrowsBy(add, Fold(add, init), xs[|xs| - 1]);
    }
  }

  lemma {:induction false} PrefixesAreLess(add: Adder, xs: seq<real>, n: nat)
    requires Grows(add) && n <= |xs| && forall x :: x in xs ==> x > 0.0
    ensures Fold(add, xs[..n]) <= Fold(add, xs)
    decreases |xs|
  {
    if n == |xs| {
      assert xs[..n] == xs;
    } else {
      var init := xs[..|xs| - 1];
      assert init[..n] == xs[..n] && xs[|xs| - 1] in xs && forall x :: x in init ==> x in xs;
      FoldNotNegative(add, init);
      PrefixesAreLess(add, init, n);
      GrowsBy(add, Fold(add, init), xs[|xs| - 1]);
    }
  }

  lemma {:induction false} ReservationsAreGood(scope: Scope, xs: seq<real>, good: real -> bool)
    requires forall x :: x in xs ==> good(x)
    ensures GoodOps(ReservationsOf(scope, xs), scope, good)
    decreases |xs|
  {
    if xs != [] {
      hide IntegerText;
      assert xs[|xs| - 1] in xs && forall x :: x in xs[..|xs| - 1] ==> x in xs;
      ReservationsAreGood(scope, xs[..|xs| - 1], good);
    }
  }

  /** Amounts that are all admitted and exceed the limit are a run that breaks the quota. */
  lemma ExcessBreaksQuota(add: Adder, limits: map<Text, Limit>, scope: Scope, good: real -> bool, xs: seq<real>)
    requires scope.category in limits && Amounts(xs, good) && Sum(xs) > limits[scope.category].maximum
    requires forall n :: 0 <= n <= |xs| ==> Fold(add, xs[..n]) <= limits[scope.category].maximum
    ensures !QuotaKept(add, limits, scope, good)
  {
    hide Run, Lists, Fold, Sum, ReservationsOf, GoodOps, Charged;
    AllAdmitted(add, limits, scope, xs);
    ReservationsAreGood(scope, xs, good);
    var ops := ReservationsOf(scope, xs);
    var s := Run(add, limits, System(EMPTY, 0), ops);
    ListsSum(add, OfTenant(s.quota, scope.tenant), scope, xs);
    assert GoodOps(ops, scope, good) && s.now == 0 && !WithinLimit(limits, s.quota, scope, 0);
  }

  lemma ListsSum(add: Adder, list: seq<Reservation>, scope: Scope, xs: seq<real>)
    requires Lists(list, scope, xs)
    ensures Charged(list, scope, 0) == Sum(xs)
  {
    hide IntegerText;
    SumsOf(add, list, scope, 0);
  }

  lemma KeptIsHonest(add: Adder, good: real -> bool, maximum: real)
    requires SumsKept(add, good, maximum)
    ensures Honest(add, good, 0.0, maximum)
  {
    hide Fold, Sum, Shrink;
    forall xs: seq<real> ensures Times(Sum(xs), Shrink(0.0, |xs|)) == Sum(xs) { NothingLost(|xs|); }
  }

  lemma KeptSumsKeepQuota(add: Adder, limits: map<Text, Limit>, scope: Scope, good: real -> bool, start: int,
          ops: seq<Op>, later: int)
    requires PositiveLimits(limits) && SumsKept(add, good, Maximum(limits, scope.category)) && GoodOps(ops, scope, good)
    requires later >= Run(add, limits, System(EMPTY, start), ops).now
    ensures WithinLimit(limits, Run(add, limits, System(EMPTY, start), ops).quota, scope, later)
  {
    hide Run, GoodOps, GoodIn, Charged, Shrink, SumsKept, Honest, Maximum;
    KeptIsHonest(add, good, Maximum(limits, scope.category));
    QuotaCapped(add, limits, good, 0.0, start, ops, scope, later);
    NothingLost(|OfTenant(Run(add, limits, System(EMPTY, start), ops).quota, scope.tenant)|);
  }

  /** The quota is kept in every run if and only if no list of amounts is added up to less than the limit it exceeds. */
  lemma QuotaKeptExactly(add: Adder, limits: map<Text, Limit>, scope: Scope, good: real -> bool)
    requires PositiveLimits(limits) && scope.category in limits && Grows(add)
    ensures QuotaKept(add, limits, scope, good) <==> SumsKept(add, good, limits[scope.category].maximum)
  {
    hide Run, GoodOps, WithinLimit, Fold, Sum;
    if SumsKept(add, good, limits[scope.category].maximum) {
      forall start, ops, later | GoodOps(ops, scope, good) && later >= Run(add, limits, System(EMPTY, start), ops).now
        ensures WithinLimit(limits, Run(add, limits, System(EMPTY, start), ops).quota, scope, later)
      {
        KeptSumsKeepQuota(add, limits, scope, good, start, ops, later);
      }
    } else {
      var xs :| Amounts(xs, good) && Fold(add, xs) <= limits[scope.category].maximum < Sum(xs);
      forall n | 0 <= n <= |xs| ensures Fold(add, xs[..n]) <= limits[scope.category].maximum { PrefixesAreLess(add, xs, n); }
      ExcessBreaksQuota(add, limits, scope, good, xs);
    }
  }
}
