/** Whole amounts and tenths: where the rounding of doubles keeps a limit, and where it does not. */
module AdmissionRounding {
  import opened Outcomes
  import opened Utf16
  import opened Admission
  import opened AdmissionRuns
  import opened AdmissionLimits

  /** Two to the power of 53. */
  const EXACT: real := 9007199254740992.0

  predicate Whole(a: real) { a.Floor as real == a }

  /** Doubles add up whole numbers exactly as long as the sum is at most `EXACT`; larger sums round to `EXACT` or more. */
  ghost predicate ExactBelow(add: Adder)
  {
    forall a, b :: Whole(a) && Whole(b) && 0.0 <= a && 0.0 <= b ==>
      if a + b <= EXACT then add(a, b) == a + b else add(a, b) >= EXACT
  }

  lemma IsWhole(a: real, m: int)
    requires a == m as real
    ensures Whole(a)
  {
  }

  lemma WholeSum(a: real, b: real)
    requires Whole(a) && Whole(b)
    ensures Whole(a + b)
  {
    IsWhole(a + b, a.Floor + b.Floor);
  }

  lemma {:induction false} FoldIsExact(add: Adder, xs: seq<real>)
    requires ExactBelow(add) && Grows(add) && Amounts(xs, Whole)
    ensures 0.0 <= Sum(xs) && Whole(Sum(xs))
    ensures if Sum(xs) <= EXACT then Fold(add, xs) == Sum(xs) else Fold(add, xs) >= EXACT
    decreases |xs|
  {
    if xs != [] {
      hide Whole;
      var init, x := xs[..|xs| - 1], xs[|xs| - 1];
      assert x in xs && forall y :: y in init ==> y in xs;
      FoldIsExact(add, init);
      WholeSum(Sum(init), x);
    } else {
      assert Sum(xs) == 0.0;
    }
  }

  lemma WholeSumsKept(add: Adder, maximum: real)
    requires ExactBelow(add) && Grows(add) && maximum < EXACT
    ensures SumsKept(add, Whole, maximum)
  {
    hide Fold, Sum, Whole;
    forall xs | Amounts(xs, Whole) && Fold(add, xs) <= maximum ensures Sum(xs) <= maximum { FoldIsExact(add, xs); }
  }

  /** After every run of whole amounts, at every later instant, a limit below `EXACT` is kept. */
  lemma QuotaHolds(add: Adder, limits: map<Text, Limit>, start: int, ops: seq<Op>, scope: Scope, later: int)
    requires PositiveLimits(limits) && ExactBelow(add) && Grows(add) && Maximum(limits, scope.category) < EXACT
    requires GoodOps(ops, scope, Whole) && later >= Run(add, limits, System(EMPTY, start), ops).now
    ensures 0.0 <= Charged(OfTenant(Run(add, limits, System(EMPTY, start), ops).quota, scope.tenant), scope, later)
                <= Maximum(limits, scope.category)
  {
    hide Run, GoodOps, Charged, Maximum, SumsKept, Whole, Answered;
    EmptyIsSound();
    RunKeepsSound(add, limits, System(EMPTY, start), ops);
    var list := OfTenant(Run(add, limits, System(EMPTY, start), ops).quota, scope.tenant);
    assert Filed(list, scope.tenant);
    ChargeFalls(list, scope.tenant, scope, later, later);
    WholeSumsKept(add, Maximum(limits, scope.category));
    KeptSumsKeepQuota(add, limits, scope, Whole, start, ops, later);
  }

  function Ones(n: nat): seq<real> { if n == 0 then [] else Ones(n - 1) + [1.0] }

  lemma {:induction false} OnesAreAbsorbed(add: Adder, n: nat)
    requires add(0.0, EXACT) == EXACT && add(EXACT, 1.0) == EXACT
    ensures Fold(add, [EXACT] + Ones(n)) == EXACT && Sum([EXACT] + Ones(n)) == EXACT + n as real
    ensures Amounts([EXACT] + Ones(n), Whole)
  {
    var xs := [EXACT] + Ones(n);
    if n == 0 {
      assert xs == [EXACT] && xs[..0] == [];
    } else {
      OnesAreAbsorbed(add, n - 1);
      assert xs[..|xs| - 1] == [EXACT] + Ones(n - 1) && xs[|xs| - 1] == 1.0;
      assert xs == ([EXACT] + Ones(n - 1)) + [1.0];
    }
  }

  /** With the addition of doubles, whole amounts keep a limit in every run if and only if it is below `EXACT`. */
  lemma WholeQuotaExactly(add: Adder, limits: map<Text, Limit>, scope: Scope)
    requires PositiveLimits(limits) && scope.category in limits
    requires ExactBelow(add) && Grows(add) && add(EXACT, 1.0) == EXACT
    ensures QuotaKept(add, limits, scope, Whole) <==> limits[scope.category].maximum < EXACT
  {
    hide QuotaKept, Fold, Sum;
    var maximum := limits[scope.category].maximum;
    QuotaKeptExactly(add, limits, scope, Whole);
    if maximum < EXACT {
      WholeSumsKept(add, maximum);
    } else {
      var n := (maximum - EXACT).Floor + 1;
      assert Whole(0.0) && Whole(EXACT);
      OnesAreAbsorbed(add, n);
      assert Amounts([EXACT] + Ones(n), Whole);
    }
  }

  /** Exact up to `EXACT` and from two above it; between them, rounded down. */
  function CoarseAdd(a: real, b: real): real
  {
    if a + b <= EXACT || a + b >= EXACT + 2.0 then a + b else if a > EXACT then a else EXACT
  }

  /** The assumptions on the addition can be met together, with a loss of at most 2^-52. */
  lemma CoarseAddFaithful()
    ensures ExactBelow(CoarseAdd) && Grows(CoarseAdd) && CoarseAdd(EXACT, 1.0) == EXACT
    ensures Rounds(CoarseAdd, 1.0 / 4503599627370496.0)
  {
    hide Whole;
  }

  // ---------- ten tenths ----------

  /** Multiples of 2^-56, among which are all doubles from 1/16. */
  function Units(n: int): real { n as real / 72057594037927936.0 }

  /** The units in the last place of a double of `n` units, from 1/16 to 2. */
  function LastPlace(n: int): (u: int)
    ensures u > 0
  {
    if n < 9007199254740992 then 1
    else if n < 18014398509481984 then 2
    else if n < 36028797018963968 then 4
    else if n < 72057594037927936 then 8
    else 16
  }

  /** To the nearest double, ties to even. */
  function Rounded(n: int): int
  {
    var u := LastPlace(n);
    var q, rest := n / u, n % u;
    if 2 * rest < u || (2 * rest == u && q % 2 == 0) then q * u else (q + 1) * u
  }

  /** The addition of doubles from 1/16 whose sum is less than 2. */
  function DoubleAdd(a: real, b: real): real
  {
    var n := ((a + b) * 72057594037927936.0).Floor;
    if Units(n) == a + b && 4503599627370496 <= n < 144115188075855872 then Units(Rounded(n)) else a + b
  }

  lemma AddUnits(m: int, n: int)
    requires 4503599627370496 <= m + n < 144115188075855872
    ensures DoubleAdd(Units(m), Units(n)) == Units(Rounded(m + n))
  {
    hide Rounded;
    assert Units(m) + Units(n) == Units(m + n) && (Units(m + n) * 72057594037927936.0).Floor == m + n;
  }

  /** The double nearest to one tenth, in units. */
  const TENTH: int := 7205759403792794

  /** `n` amounts of one tenth. */
  function Tenths(n: nat): seq<real> { if n == 0 then [] else Tenths(n - 1) + [Units(TENTH)] }

  lemma OneMoreTenth(n: nat)
    ensures |Tenths(n)| == n && Tenths(n + 1)[..n] == Tenths(n) && Tenths(n + 1)[n] == Units(TENTH)
    ensures Fold(DoubleAdd, Tenths(n + 1)) == DoubleAdd(Fold(DoubleAdd, Tenths(n)), Units(TENTH))
    ensures Sum(Tenths(n + 1)) == Sum(Tenths(n)) + Units(TENTH)
  {
    hide DoubleAdd, Units;
    if n > 0 { OneMoreTenth(n - 1); }
  }

  /** The units of the sums of no to ten tenths, as the additions round them. */
  const SUMS: seq<int> := [0, 7205759403792794, 14411518807585588, 21617278211378384, 28823037615171176, 36028797018963968,
                           43234556422756760, 50440315826549552, 57646075230342344, 64851834634135136, 72057594037927928]

  lemma SumsAreRounded(n: nat)
    requires n < 10
    ensures 4503599627370496 <= SUMS[n] + TENTH < 144115188075855872 && SUMS[n + 1] == Rounded(SUMS[n] + TENTH)
  {
  }

  lemma {:induction false} TenthSums(n: nat)
    requires n <= 10
    ensures |Tenths(n)| == n && Sum(Tenths(n)) == Units(n * TENTH) && Fold(DoubleAdd, Tenths(n)) == Units(SUMS[n])
  {
    hide DoubleAdd, Rounded;
    if n > 0 {
      TenthSums(n - 1);
      OneMoreTenth(n - 1);
      SumsAreRounded(n - 1);
      AddUnits(SUMS[n - 1], TENTH);
    }
  }

  /** The rounded sums stay below one; the exact sum of ten does not. */
  lemma TenthsAgainstOne(n: nat)
    requires n <= 10
    ensures Units(SUMS[n]) <= 1.0 < Units(10 * TENTH)
  {
  }

  lemma TenthsPrefix(m: nat, n: nat)
    requires n <= m
    ensures |Tenths(m)| == m && Tenths(m)[..n] == Tenths(n)
  {
    if n < m { TenthsPrefix(m - 1, n); } else if n > 0 { TenthsPrefix(n - 1, n - 1); }
  }

  predicate IsTenth(a: real) { a == Units(TENTH) }

  /** Ten amounts of one tenth are all admitted under a limit of one, which their exact sum exceeds. */
  lemma TenTenthsBreakQuota(limits: map<Text, Limit>, scope: Scope)
    requires scope.category in limits && limits[scope.category].maximum == 1.0
    ensures !QuotaKept(DoubleAdd, limits, scope, IsTenth)
  {
    hide QuotaKept, DoubleAdd, Fold, Sum, Units;
    forall n: nat | n <= 10 ensures Fold(DoubleAdd, Tenths(10)[..n]) <= 1.0 {
      TenthsPrefix(10, n);
      TenthSums(n);
      TenthsAgainstOne(n);
    }
    TenthSums(10);
    TenthsAgainstOne(10);
    AllTenths(10);
    TenthsPrefix(10, 10);
    ExcessBreaksQuota(DoubleAdd, limits, scope, IsTenth, Tenths(10));
  }

  lemma {:induction false} AllTenths(n: nat)
    ensures Amounts(Tenths(n), IsTenth)
  {
    if n > 0 { AllTenths(n - 1); }
  }
}
