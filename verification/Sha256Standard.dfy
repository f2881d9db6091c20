/** What FIPS 180-4 says of the constants and functions of SHA-256, proved of those the digest is computed with. */
module Sha256Standard {
  import opened Sha256

  // ---------- primes in order ----------

  ghost predicate IsPrime(n: nat) { n >= 2 && forall d: nat :: 2 <= d < n ==> n % d != 0 }

  ghost function PrimesBelow(n: nat): nat
  {
    if n == 0 then 0 else PrimesBelow(n - 1) + if IsPrime(n - 1) then 1 else 0
  }

  /** The prime with `t` primes below it. */
  ghost predicate PrimeAt(t: nat, p: nat) { IsPrime(p) && PrimesBelow(p) == t }

  /** No prime below the root of 361 divides the number properly. */
  predicate Sieved(n: nat)
  {
    && n >= 2 && (n == 2 || n % 2 != 0) && (n == 3 || n % 3 != 0) && (n == 5 || n % 5 != 0) && (n == 7 || n % 7 != 0)
    && (n == 11 || n % 11 != 0) && (n == 13 || n % 13 != 0) && (n == 17 || n % 17 != 0)
  }

  lemma MultipleDivides(p: nat, k: nat)
    requires p > 0
    ensures (p * k) % p == 0
  {
    var x := p * k;
    Apart(k - x / p, p);
    assert (k - x / p) * p == x % p;
  }

  lemma Apart(q: int, p: nat)
    requires p > 0
    ensures q >= 1 ==> q * p >= p
    ensures q <= -1 ==> q * p < 0
  {
  }

  lemma DividesThrough(p: nat, d: nat, n: nat)
    requires p > 0 && d > 0 && d % p == 0 && n % d == 0
    ensures n % p == 0
  {
    var e, q := d / p, n / d;
    assert n == p * e * q == p * (e * q);
    MultipleDivides(p, e * q);
  }

  lemma SmallDivisor(n: nat, d: nat)
    requires 2 <= d <= 18 && d < n && n % d == 0
    ensures !Sieved(n)
  {
    var p := if d % 2 == 0 then 2 else if d % 3 == 0 then 3 else if d % 5 == 0 then 5 else d;
    DividesThrough(p, d, n);
    assert p == 2 || p == 3 || p == 5 || p == 7 || p == 11 || p == 13 || p == 17;
  }

  /** Of two factors of a number below 361, one is at most 18. */
  lemma SmallFactor(n: nat, d: nat)
    requires 18 < d < n < 361 && n % d == 0
    ensures 2 <= n / d <= 18 && n % (n / d) == 0
  {
    var q := n / d;
    assert n == d * q;
    if q >= 19 { BothLarge(d, q); }
    MultipleDivides(q, d);
  }

  lemma BothLarge(d: nat, q: nat)
    requires d >= 19 && q >= 19
    ensures d * q >= 361
  {
  }

  lemma SieveIsExact(n: nat)
    requires n < 361
    ensures IsPrime(n) <==> Sieved(n)
  {
    hide Sieved;
    if n >= 2 && !IsPrime(n) {
      var d: nat :| 2 <= d < n && n % d == 0;
      if d <= 18 {
        SmallDivisor(n, d);
      } else {
        SmallFactor(n, d);
        SmallDivisor(n, n / d);
      }
    }
    PrimesAreSieved(n);
  }

  lemma PrimesAreSieved(n: nat)
    ensures IsPrime(n) ==> Sieved(n)
    ensures n < 2 ==> !Sieved(n)
  {
  }

  lemma {:induction false} NoPrimesBetween(m: nat, n: nat)
    requires m <= n <= 361 && forall k: nat :: m <= k < n ==> !Sieved(k)
    ensures PrimesBelow(n) == PrimesBelow(m)
    decreases n
  {
    hide IsPrime, Sieved;
    if m < n {
      NoPrimesBetween(m, n - 1);
      SieveIsExact(n - 1);
    }
  }

  predicate NoneSieved(m: nat, n: nat)
    decreases n - m
  {
    m >= n || (!Sieved(m) && NoneSieved(m + 1, n))
  }

  lemma {:induction false} NoneBetween(m: nat, n: nat)
    requires NoneSieved(m, n)
    ensures forall k: nat :: m <= k < n ==> !Sieved(k)
    decreases n - m
  {
    hide Sieved;
    if m < n { NoneBetween(m + 1, n); }
  }

  lemma NextPrime(t: nat, p: nat, m: nat, q: nat)
    requires PrimeAt(t, p) && m == p + 1 <= q < 361 && Sieved(q) && NoneSieved(m, q)
    ensures PrimeAt(t + 1, q)
  {
    hide IsPrime, Sieved, NoneSieved;
    NoneBetween(p + 1, q);
    NoPrimesBetween(p + 1, q);
    SieveIsExact(q);
  }

  lemma FirstPrime()
    ensures PrimeAt(0, 2)
  {
    SieveIsExact(0);
    SieveIsExact(1);
    SieveIsExact(2);
  }

  // ---------- the constants ----------

  /** The first 32 bits of the fractional part of the cube root of `p`. */
  ghost predicate CubeRootWord(p: nat, w: Word)
  {
    exists c: nat :: c % 0x1_0000_0000 == w as int && FlooredCubeRoot(c, p * 0x1_0000_0000_0000_0000_0000_0000)
  }

  predicate FlooredCubeRoot(c: nat, n: nat) { c * c * c <= n < (c + 1) * (c + 1) * (c + 1) }

  /** The first 32 bits of the fractional part of the square root of `p`. */
  ghost predicate SquareRootWord(p: nat, w: Word)
  {
    exists c: nat :: c % 0x1_0000_0000 == w as int && FlooredSquareRoot(c, p * 0x1_0000_0000_0000_0000)
  }

  predicate FlooredSquareRoot(c: nat, n: nat) { c * c <= n < (c + 1) * (c + 1) }

  lemma LowWord(whole: nat, w: nat)
    requires w < 0x1_0000_0000
    ensures (whole * 0x1_0000_0000 + w) % 0x1_0000_0000 == w
  {
  }

  lemma CubeRootWith(p: nat, whole: nat, w: Word)
    requires FlooredCubeRoot(whole * 0x1_0000_0000 + w as int, p * 0x1_0000_0000_0000_0000_0000_0000)
    ensures CubeRootWord(p, w)
  {
    hide FlooredCubeRoot;
    LowWord(whole, w as int);
  }

  lemma SquareRootWith(p: nat, whole: nat, w: Word)
    requires FlooredSquareRoot(whole * 0x1_0000_0000 + w as int, p * 0x1_0000_0000_0000_0000)
    ensures SquareRootWord(p, w)
  {
    hide FlooredSquareRoot;
    LowWord(whole, w as int);
  }

  /** The round constant at place `t` comes from the prime at that place. */
  ghost predicate FromPrime(t: nat)
  {
    t < |K| && exists p :: PrimeAt(t, p) && CubeRootWord(p, K[t])
  }

  lemma ConstantsFrom0()
    requires PrimeAt(0, 2)
    ensures forall t :: 0 <= t < 4 ==> FromPrime(t)
    ensures PrimeAt(4, 11)
  {
    hide PrimeAt, CubeRootWord;
    NextPrime(0, 2, 3, 3); NextPrime(1, 3, 4, 5); NextPrime(2, 5, 6, 7); NextPrime(3, 7, 8, 11);
    CubeRootWith(2, 1, K[0]); CubeRootWith(3, 1, K[1]); CubeRootWith(5, 1, K[2]); CubeRootWith(7, 1, K[3]);
    forall t | 0 <= t < 4 ensures FromPrime(t) { assert t == 0 || t == 1 || t == 2 || t == 3; }
  }

  lemma ConstantsFrom4()
    requires PrimeAt(4, 11)
    ensures forall t :: 4 <= t < 8 ==> FromPrime(t)
    ensures PrimeAt(8, 23)
  {
    hide PrimeAt, CubeRootWord;
    NextPrime(4, 11, 12, 13); NextPrime(5, 13, 14, 17); NextPrime(6, 17, 18, 19); NextPrime(7, 19, 20, 23);
    CubeRootWith(11, 2, K[4]); CubeRootWith(13, 2, K[5]); CubeRootWith(17, 2, K[6]); CubeRootWith(19, 2, K[7]);
    forall t | 4 <= t < 8 ensures FromPrime(t) { assert t == 4 || t == 5 || t == 6 || t == 7; }
  }

  lemma ConstantsFrom8()
    requires PrimeAt(8, 23)
    ensures forall t :: 8 <= t < 12 ==> FromPrime(t)
    ensures PrimeAt(12, 41)
  {
    hide PrimeAt, CubeRootWord;
    NextPrime(8, 23, 24, 29); NextPrime(9, 29, 30, 31); NextPrime(10, 31, 32, 37); NextPrime(11, 37, 38, 41);
    CubeRootWith(23, 2, K[8]); CubeRootWith(29, 3, K[9]); CubeRootWith(31, 3, K[10]); CubeRootWith(37, 3, K[11]);
    forall t | 8 <= t < 12 ensures FromPrime(t) { assert t == 8 || t == 9 || t == 10 || t == 11; }
  }

  lemma ConstantsFrom12()
    requires PrimeAt(12, 41)
    ensures forall t :: 12 <= t < 16 ==> FromPrime(t)
    ensures PrimeAt(16, 59)
  {
    hide PrimeAt, CubeRootWord;
    NextPrime(12, 41, 42, 43); NextPrime(13, 43, 44, 47); NextPrime(14, 47, 48, 53); NextPrime(15, 53, 54, 59);
    CubeRootWith(41, 3, K[12]); CubeRootWith(43, 3, K[13]); CubeRootWith(47, 3, K[14]); CubeRootWith(53, 3, K[15]);
    forall t | 12 <= t < 16 ensures FromPrime(t) { assert t == 12 || t == 13 || t == 14 || t == 15; }
  }

  lemma ConstantsFrom16()
    requires PrimeAt(16, 59)
    ensures forall t :: 16 <= t < 20 ==> FromPrime(t)
    ensures PrimeAt(20, 73)
  {
    hide PrimeAt, CubeRootWord;
    NextPrime(16, 59, 60, 61); NextPrime(17, 61, 62, 67); NextPrime(18, 67, 68, 71); NextPrime(19, 71, 72, 73);
    CubeRootWith(59, 3, K[16]); CubeRootWith(61, 3, K[17]); CubeRootWith(67, 4, K[18]); CubeRootWith(71, 4, K[19]);
    forall t | 16 <= t < 20 ensures FromPrime(t) { assert t == 16 || t == 17 || t == 18 || t == 19; }
  }

  lemma ConstantsFrom20()
    requires PrimeAt(20, 73)
    ensures forall t :: 20 <= t < 24 ==> FromPrime(t)
    ensures PrimeAt(24, 97)
  {
    hide PrimeAt, CubeRootWord;
    NextPrime(20, 73, 74, 79); NextPrime(21, 79, 80, 83); NextPrime(22, 83, 84, 89); NextPrime(23, 89, 90, 97);
    CubeRootWith(73, 4, K[20]); CubeRootWith(79, 4, K[21]); CubeRootWith(83, 4, K[22]); CubeRootWith(89, 4, K[23]);
    forall t | 20 <= t < 24 ensures FromPrime(t) { assert t == 20 || t == 21 || t == 22 || t == 23; }
  }

  lemma ConstantsFrom24()
    requires PrimeAt(24, 97)
    ensures forall t :: 24 <= t < 28 ==> FromPrime(t)
    ensures PrimeAt(28, 109)
  {
    hide PrimeAt, CubeRootWord;
    NextPrime(24, 97, 98, 101); NextPrime(25, 101, 102, 103); NextPrime(26, 103, 104, 107); NextPrime(27, 107, 108, 109);
    CubeRootWith(97, 4, K[24]); CubeRootWith(101, 4, K[25]); CubeRootWith(103, 4, K[26]); CubeRootWith(107, 4, K[27]);
    forall t | 24 <= t < 28 ensures FromPrime(t) { assert t == 24 || t == 25 || t == 26 || t == 27; }
  }

  lemma ConstantsFrom28()
    requires PrimeAt(28, 109)
    ensures forall t :: 28 <= t < 32 ==> FromPrime(t)
    ensures PrimeAt(32, 137)
  {
    hide PrimeAt, CubeRootWord;
    NextPrime(28, 109, 110, 113); NextPrime(29, 113, 114, 127); NextPrime(30, 127, 128, 131); NextPrime(31, 131, 132, 137);
    CubeRootWith(109, 4, K[28]); CubeRootWith(113, 4, K[29]); CubeRootWith(127, 5, K[30]); CubeRootWith(131, 5, K[31]);
    forall t | 28 <= t < 32 ensures FromPrime(t) { assert t == 28 || t == 29 || t == 30 || t == 31; }
  }

  lemma ConstantsFrom32()
    requires PrimeAt(32, 137)
    ensures forall t :: 32 <= t < 36 ==> FromPrime(t)
    ensures PrimeAt(36, 157)
  {
    hide PrimeAt, CubeRootWord;
    NextPrime(32, 137, 138, 139); NextPrime(33, 139, 140, 149); NextPrime(34, 149, 150, 151); NextPrime(35, 151, 152, 157);
    CubeRootWith(137, 5, K[32]); CubeRootWith(139, 5, K[33]); CubeRootWith(149, 5, K[34]); CubeRootWith(151, 5, K[35]);
    forall t | 32 <= t < 36 ensures FromPrime(t) { assert t == 32 || t == 33 || t == 34 || t == 35; }
  }

  lemma ConstantsFrom36()
    requires PrimeAt(36, 157)
    ensures forall t :: 36 <= t < 40 ==> FromPrime(t)
    ensures PrimeAt(40, 179)
  {
    hide PrimeAt, CubeRootWord;
    NextPrime(36, 157, 158, 163); NextPrime(37, 163, 164, 167); NextPrime(38, 167, 168, 173); NextPrime(39, 173, 174, 179);
    CubeRootWith(157, 5, K[36]); CubeRootWith(163, 5, K[37]); CubeRootWith(167, 5, K[38]); CubeRootWith(173, 5, K[39]);
    forall t | 36 <= t < 40 ensures FromPrime(t) { assert t == 36 || t == 37 || t == 38 || t == 39; }
  }

  lemma ConstantsFrom40()
    requires PrimeAt(40, 179)
    ensures forall t :: 40 <= t < 44 ==> FromPrime(t)
    ensures PrimeAt(44, 197)
  {
    hide PrimeAt, CubeRootWord;
    NextPrime(40, 179, 180, 181); NextPrime(41, 181, 182, 191); NextPrime(42, 191, 192, 193); NextPrime(43, 193, 194, 197);
    CubeRootWith(179, 5, K[40]); CubeRootWith(181, 5, K[41]); CubeRootWith(191, 5, K[42]); CubeRootWith(193, 5, K[43]);
    forall t | 40 <= t < 44 ensures FromPrime(t) { assert t == 40 || t == 41 || t == 42 || t == 43; }
  }

  lemma ConstantsFrom44()
    requires PrimeAt(44, 197)
    ensures forall t :: 44 <= t < 48 ==> FromPrime(t)
    ensures PrimeAt(48, 227)
  {
    hide PrimeAt, CubeRootWord;
    NextPrime(44, 197, 198, 199); NextPrime(45, 199, 200, 211); NextPrime(46, 211, 212, 223); NextPrime(47, 223, 224, 227);
    CubeRootWith(197, 5, K[44]); CubeRootWith(199, 5, K[45]); CubeRootWith(211, 5, K[46]); CubeRootWith(223, 6, K[47]);
    forall t | 44 <= t < 48 ensures FromPrime(t) { assert t == 44 || t == 45 || t == 46 || t == 47; }
  }

  lemma ConstantsFrom48()
    requires PrimeAt(48, 227)
    ensures forall t :: 48 <= t < 52 ==> FromPrime(t)
    ensures PrimeAt(52, 241)
  {
    hide PrimeAt, CubeRootWord;
    NextPrime(48, 227, 228, 229); NextPrime(49, 229, 230, 233); NextPrime(50, 233, 234, 239); NextPrime(51, 239, 240, 241);
    CubeRootWith(227, 6, K[48]); CubeRootWith(229, 6, K[49]); CubeRootWith(233, 6, K[50]); CubeRootWith(239, 6, K[51]);
    forall t | 48 <= t < 52 ensures FromPrime(t) { assert t == 48 || t == 49 || t == 50 || t == 51; }
  }

  lemma ConstantsFrom52()
    requires PrimeAt(52, 241)
    ensures forall t :: 52 <= t < 56 ==> FromPrime(t)
    ensures PrimeAt(56, 269)
  {
    hide PrimeAt, CubeRootWord;
    NextPrime(52, 241, 242, 251); NextPrime(53, 251, 252, 257); NextPrime(54, 257, 258, 263); NextPrime(55, 263, 264, 269);
    CubeRootWith(241, 6, K[52]); CubeRootWith(251, 6, K[53]); CubeRootWith(257, 6, K[54]); CubeRootWith(263, 6, K[55]);
    forall t | 52 <= t < 56 ensures FromPrime(t) { assert t == 52 || t == 53 || t == 54 || t == 55; }
  }

  lemma ConstantsFrom56()
    requires PrimeAt(56, 269)
    ensures forall t :: 56 <= t < 60 ==> FromPrime(t)
    ensures PrimeAt(60, 283)
  {
    hide PrimeAt, CubeRootWord;
    NextPrime(56, 269, 270, 271); NextPrime(57, 271, 272, 277); NextPrime(58, 277, 278, 281); NextPrime(59, 281, 282, 283);
    CubeRootWith(269, 6, K[56]); CubeRootWith(271, 6, K[57]); CubeRootWith(277, 6, K[58]); CubeRootWith(281, 6, K[59]);
    forall t | 56 <= t < 60 ensures FromPrime(t) { assert t == 56 || t == 57 || t == 58 || t == 59; }
  }

  lemma ConstantsFrom60()
    requires PrimeAt(60, 283)
    ensures forall t :: 60 <= t < 64 ==> FromPrime(t)
    ensures PrimeAt(64, 313)
  {
    hide PrimeAt, CubeRootWord;
    NextPrime(60, 283, 284, 293); NextPrime(61, 293, 294, 307); NextPrime(62, 307, 308, 311); NextPrime(63, 311, 312, 313);
    CubeRootWith(283, 6, K[60]); CubeRootWith(293, 6, K[61]); CubeRootWith(307, 6, K[62]); CubeRootWith(311, 6, K[63]);
    forall t | 60 <= t < 64 ensures FromPrime(t) { assert t == 60 || t == 61 || t == 62 || t == 63; }
  }

  /** The round constants come from the cube roots of the first sixty-four primes, in order (section 4.2.2). */
  lemma RoundConstants(t: nat)
    requires t < 64
    ensures FromPrime(t)
  {
    hide PrimeAt, FromPrime;
    FirstPrime();
    ConstantsFrom0(); ConstantsFrom4(); ConstantsFrom8(); ConstantsFrom12();
    ConstantsFrom16(); ConstantsFrom20(); ConstantsFrom24(); ConstantsFrom28();
    ConstantsFrom32(); ConstantsFrom36(); ConstantsFrom40(); ConstantsFrom44();
    ConstantsFrom48(); ConstantsFrom52(); ConstantsFrom56(); ConstantsFrom60();
  }

  /** The word at place `j` of the initial hash value comes from the square root of the prime at that place. */
  ghost predicate InitialFromPrime(j: nat)
  {
    j < |INITIAL.Words()| && exists p :: PrimeAt(j, p) && SquareRootWord(p, INITIAL.Words()[j])
  }

  lemma InitialHalf0()
    requires PrimeAt(0, 2)
    ensures (forall j :: 0 <= j < 4 ==> InitialFromPrime(j)) && PrimeAt(4, 11)
  {
    hide PrimeAt, SquareRootWord;
    NextPrime(0, 2, 3, 3); NextPrime(1, 3, 4, 5); NextPrime(2, 5, 6, 7); NextPrime(3, 7, 8, 11);
    SquareRootWith(2, 1, INITIAL.a); SquareRootWith(3, 1, INITIAL.b);
    SquareRootWith(5, 2, INITIAL.c); SquareRootWith(7, 2, INITIAL.d);
    forall j | 0 <= j < 4 ensures InitialFromPrime(j) { assert j == 0 || j == 1 || j == 2 || j == 3; }
  }

  lemma InitialHalf4()
    requires PrimeAt(4, 11)
    ensures forall j :: 4 <= j < 8 ==> InitialFromPrime(j)
  {
    hide PrimeAt, SquareRootWord;
    NextPrime(4, 11, 12, 13); NextPrime(5, 13, 14, 17); NextPrime(6, 17, 18, 19);
    SquareRootWith(11, 3, INITIAL.e); SquareRootWith(13, 3, INITIAL.f);
    SquareRootWith(17, 4, INITIAL.g); SquareRootWith(19, 4, INITIAL.h);
    forall j | 4 <= j < 8 ensures InitialFromPrime(j) { assert j == 4 || j == 5 || j == 6 || j == 7; }
  }

  /** The initial hash value comes from the square roots of the first eight primes, in order (section 5.3.3). */
  lemma InitialHash(j: nat)
    requires j < 8
    ensures InitialFromPrime(j)
  {
    hide PrimeAt, InitialFromPrime;
    FirstPrime();
    InitialHalf0();
    InitialHalf4();
  }

  // ---------- the functions, bit by bit (section 4.1.2) ----------

  /** Bit `i` of a word, from the least significant; places are added modulo 32. */
  predicate Bit(x: Word, i: bv5) { (x >> i) & 1 == 1 }

  predicate Odd(a: bool, b: bool, c: bool) { (a != b) != c }

  lemma XoredBit(x: Word, y: Word, z: Word, i: bv5)
    ensures Bit(x ^ y ^ z, i) == Odd(Bit(x, i), Bit(y, i), Bit(z, i))
  {
  }

  lemma XorBit(x: Word, y: Word, z: Word, i: bv5)
    ensures Bit(Xor(x, y, z), i) == Odd(Bit(x, i), Bit(y, i), Bit(z, i))
  {
    hide Bit, Odd;
    XoredBit(x, y, z, i);
  }

  lemma ShiftedBit(x: Word, i: bv5)
    ensures Bit(x >> 3, i) == (i < 29 && Bit(x, i + 3))
    ensures Bit(x >> 10, i) == (i < 22 && Bit(x, i + 10))
  {
  }

  lemma Rotated2(x: Word, i: bv5)
    ensures Bit(RotateRight(x, 2), i) == Bit(x, i + 2)
  {
  }

  lemma Rotated6(x: Word, i: bv5)
    ensures Bit(RotateRight(x, 6), i) == Bit(x, i + 6)
  {
  }

  lemma Rotated7(x: Word, i: bv5)
    ensures Bit(RotateRight(x, 7), i) == Bit(x, i + 7)
  {
  }

  lemma Rotated11(x: Word, i: bv5)
    ensures Bit(RotateRight(x, 11), i) == Bit(x, i + 11)
  {
  }

  lemma Rotated13(x: Word, i: bv5)
    ensures Bit(RotateRight(x, 13), i) == Bit(x, i + 13)
  {
  }

  lemma Rotated17(x: Word, i: bv5)
    ensures Bit(RotateRight(x, 17), i) == Bit(x, i + 17)
  {
  }

  lemma Rotated18(x: Word, i: bv5)
    ensures Bit(RotateRight(x, 18), i) == Bit(x, i + 18)
  {
  }

  lemma Rotated19(x: Word, i: bv5)
    ensures Bit(RotateRight(x, 19), i) == Bit(x, i + 19)
  {
  }

  lemma Rotated22(x: Word, i: bv5)
    ensures Bit(RotateRight(x, 22), i) == Bit(x, i + 22)
  {
  }

  lemma Rotated25(x: Word, i: bv5)
    ensures Bit(RotateRight(x, 25), i) == Bit(x, i + 25)
  {
  }

  lemma BigSigma0Bits(x: Word, i: bv5)
    ensures Bit(BigSigma0(x), i) == Odd(Bit(x, i + 2), Bit(x, i + 13), Bit(x, i + 22))
  {
    hide Bit, RotateRight, Odd, Xor;
    Rotated2(x, i);
    Rotated13(x, i);
    Rotated22(x, i);
    XorBit(RotateRight(x, 2), RotateRight(x, 13), RotateRight(x, 22), i);
  }

  lemma BigSigma1Bits(x: Word, i: bv5)
    ensures Bit(BigSigma1(x), i) == Odd(Bit(x, i + 6), Bit(x, i + 11), Bit(x, i + 25))
  {
    hide Bit, RotateRight, Odd, Xor;
    Rotated6(x, i);
    Rotated11(x, i);
    Rotated25(x, i);
    XorBit(RotateRight(x, 6), RotateRight(x, 11), RotateRight(x, 25), i);
  }

  lemma SmallSigma0Bits(x: Word, i: bv5)
    ensures Bit(SmallSigma0(x), i) == Odd(Bit(x, i + 7), Bit(x, i + 18), i < 29 && Bit(x, i + 3))
  {
    hide Bit, RotateRight, Odd, Xor;
    Rotated7(x, i);
    Rotated18(x, i);
    ShiftedBit(x, i);
    XorBit(RotateRight(x, 7), RotateRight(x, 18), x >> 3, i);
  }

  lemma SmallSigma1Bits(x: Word, i: bv5)
    ensures Bit(SmallSigma1(x), i) == Odd(Bit(x, i + 17), Bit(x, i + 19), i < 22 && Bit(x, i + 10))
  {
    hide Bit, RotateRight, Odd, Xor;
    Rotated17(x, i);
    Rotated19(x, i);
    ShiftedBit(x, i);
    XorBit(RotateRight(x, 17), RotateRight(x, 19), x >> 10, i);
  }

  lemma SelectedBit(x: Word, y: Word, z: Word, i: bv5)
    ensures Bit((x & y) ^ (!x & z), i) == if Bit(x, i) then Bit(y, i) else Bit(z, i)
  {
  }

  lemma MajorBit(x: Word, y: Word, z: Word, i: bv5)
    ensures Bit((x & y) ^ (x & z) ^ (y & z), i) == if Bit(x, i) == Bit(y, i) then Bit(x, i) else Bit(z, i)
  {
  }

  /** `Ch` chooses between its last two arguments, and `Maj` takes the majority. */
  lemma ChoiceBits(x: Word, y: Word, z: Word, i: bv5)
    ensures Bit(Ch(x, y, z), i) == if Bit(x, i) then Bit(y, i) else Bit(z, i)
    ensures Bit(Maj(x, y, z), i) == if Bit(x, i) == Bit(y, i) then Bit(x, i) else Bit(z, i)
  {
    hide Bit;
    SelectedBit(x, y, z, i);
    MajorBit(x, y, z, i);
  }

  // ---------- the rounds, as two recurrences (section 6.2.2) ----------

  function Sum(a: Word, b: Word, c: Word, d: Word, e: Word): Word { Add(Add(Add(Add(a, b), c), d), e) }

  lemma OneRound(s: State, padded: seq<Byte>, offset: nat, t: nat)
    requires offset + 64 <= |padded| && t < 64
    ensures |K| == 64
    ensures var now, next := Rounds(s, padded, offset, t), Rounds(s, padded, offset, t + 1);
            var sum := Sum(now.h, BigSigma1(now.e), Ch(now.e, now.f, now.g), K[t], Schedule(padded, offset, t));
            next == State(Add(sum, Add(BigSigma0(now.a), Maj(now.a, now.b, now.c))), now.a, now.b, now.c,
                          Add(now.d, sum), now.e, now.f, now.g)
  {
    hide BigSigma0, BigSigma1, Ch, Maj, Schedule, Add;
  }

  /** The first and fifth words of the states make up all the states, and follow from those before them. */
  lemma RoundRecurrence(s: State, padded: seq<Byte>, offset: nat, t: nat)
    requires offset + 64 <= |padded| && 3 <= t < 64
    ensures |K| == 64
    ensures var now, one, two, three, next := Rounds(s, padded, offset, t), Rounds(s, padded, offset, t - 1),
                                              Rounds(s, padded, offset, t - 2), Rounds(s, padded, offset, t - 3),
                                              Rounds(s, padded, offset, t + 1);
            var sum := Sum(three.e, BigSigma1(now.e), Ch(now.e, one.e, two.e), K[t], Schedule(padded, offset, t));
            && next.e == Add(three.a, sum)
            && next.a == Add(sum, Add(BigSigma0(now.a), Maj(now.a, one.a, two.a)))
            && now == State(now.a, one.a, two.a, three.a, now.e, one.e, two.e, three.e)
  {
    hide BigSigma0, BigSigma1, Ch, Maj, Schedule, Rounds, Add, Sum;
    OneRound(s, padded, offset, t - 3);
    OneRound(s, padded, offset, t - 2);
    OneRound(s, padded, offset, t - 1);
    OneRound(s, padded, offset, t);
  }

  // ---------- the schedule, the chaining and the digest ----------

  /** A big-endian number of four bytes. */
  function Big(a: Byte, b: Byte, c: Byte, d: Byte): (n: int)
    ensures 0 <= n < 0x1_0000_0000
  {
    ((a as int * 256 + b as int) * 256 + c as int) * 256 + d as int
  }

  lemma FirstWord(padded: seq<Byte>, offset: nat, t: nat)
    requires offset + 64 <= |padded| && t < 16
    ensures var i := offset + 4 * t;
            Schedule(padded, offset, t) == Big(padded[i], padded[i + 1], padded[i + 2], padded[i + 3]) as bv32
  {
    hide Add4;
    var i := offset + 4 * t;
    WordRead(padded[i], padded[i + 1], padded[i + 2], padded[i + 3]);
  }

  lemma WordRead(a: Byte, b: Byte, c: Byte, d: Byte)
    ensures Big(a, b, c, d) == a as int * 0x100_0000 + b as int * 0x1_0000 + c as int * 0x100 + d as int
  {
  }

  /** The first sixteen words are those of the block, and each later one is a sum over four words before it. */
  lemma ScheduleRecurrence(padded: seq<Byte>, offset: nat, t: nat)
    requires offset + 64 <= |padded| && t < 64
    ensures t < 16 ==>
              var i := offset + 4 * t;
              Schedule(padded, offset, t) == Big(padded[i], padded[i + 1], padded[i + 2], padded[i + 3]) as bv32
    ensures t >= 16 ==>
              Schedule(padded, offset, t) ==
              Add4(SmallSigma1(Schedule(padded, offset, t - 2)), Schedule(padded, offset, t - 7),
                   SmallSigma0(Schedule(padded, offset, t - 15)), Schedule(padded, offset, t - 16))
  {
    hide Add4, SmallSigma0, SmallSigma1, WordAt, Big;
    if t < 16 { FirstWord(padded, offset, t); }
  }

  lemma {:induction false} WordOf(words: seq<Word>, j: nat)
    requires j < |words|
    ensures |Concatenate(words)| == 4 * |words|
    ensures Concatenate(words)[4 * j..4 * j + 4] == WordBytes(words[j])
    decreases |words|
  {
    hide WordBytes;
    var n := |words| - 1;
    ConcatenateSize(words[..n]);
    WordSize(words[n]);
    if j < n {
      WordOf(words[..n], j);
      assert Concatenate(words)[4 * j..4 * j + 4] == Concatenate(words[..n])[4 * j..4 * j + 4];
    }
  }

  lemma {:induction false} ConcatenateSize(words: seq<Word>)
    ensures |Concatenate(words)| == 4 * |words|
    decreases |words|
  {
    hide WordBytes;
    if words != [] {
      ConcatenateSize(words[..|words| - 1]);
      WordSize(words[|words| - 1]);
    }
  }

  lemma WordSize(w: Word)
    ensures |WordBytes(w)| == 4
  {
  }

  lemma WordValue(w: Word)
    ensures var b := WordBytes(w); |b| == 4 && Big(b[0], b[1], b[2], b[3]) == w as int
  {
    Places(w as int);
  }

  lemma Places(n: nat)
    requires n < 0x1_0000_0000
    ensures var b := BigEndian(n, 4); |b| == 4 && Big(b[0], b[1], b[2], b[3]) == n
  {
    var a, b, c := n / 0x100, n / 0x100 / 0x100, n / 0x100 / 0x100 / 0x100;
    assert BigEndian(c, 1) == BigEndian(c / 0x100, 0) + [c % 0x100];
    assert BigEndian(b, 2) == BigEndian(c, 1) + [b % 0x100];
    assert BigEndian(a, 3) == BigEndian(b, 2) + [a % 0x100];
    assert BigEndian(n, 4) == BigEndian(a, 3) + [n % 0x100];
    assert c < 0x100;
  }

  /** Each block adds the result of its rounds, word by word, to the hash of the blocks before it. */
  lemma Chaining(padded: seq<Byte>, n: nat)
    requires 64 * n + 64 <= |padded|
    ensures
      var s := HashBlocks(padded, n);
      var r := Rounds(s, padded, 64 * n, 64);
      HashBlocks(padded, n + 1) == State(Add(s.a, r.a), Add(s.b, r.b), Add(s.c, r.c), Add(s.d, r.d),
                                         Add(s.e, r.e), Add(s.f, r.f), Add(s.g, r.g), Add(s.h, r.h))
  {
    hide Rounds, Add;
  }

  /** The digest is the eight words of the last hash, in order, each with its most significant byte first. */
  lemma DigestWords(message: seq<Byte>, j: nat)
    requires j < 8
    ensures 64 * (PaddedLength(|message|) / 64) <= |Pad(message)| && |Digest(message)| == 32
    ensures
      var d, last := Digest(message), HashBlocks(Pad(message), PaddedLength(|message|) / 64);
      Big(d[4 * j], d[4 * j + 1], d[4 * j + 2], d[4 * j + 3]) == last.Words()[j] as int
  {
    hide HashBlocks, Concatenate, Pad, WordBytes, Big;
    PadIsPadding(message);
    var words := HashBlocks(Pad(message), PaddedLength(|message|) / 64).Words();
    WordOf(words, j);
    WordValue(words[j]);
    var d := Concatenate(words);
    var four := d[4 * j..4 * j + 4];
    assert four[0] == d[4 * j] && four[1] == d[4 * j + 1] && four[2] == d[4 * j + 2] && four[3] == d[4 * j + 3];
  }
}
