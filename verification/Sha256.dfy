/** SHA-256: FIPS 180-4 as functions, and the looped, array-reusing `sha256` proved equal to it. */
module Sha256 {
  type Byte = n: int | 0 <= n < 0x100
  type Word = bv32

  // ---------- padding, FIPS 180-4 section 5.1.1 ----------

  function Zeros(n: nat): (z: seq<Byte>) { seq(n, _ => 0) }

  /** `n` as `k` bytes, most significant first. */
  function BigEndian(n: nat, k: nat): (b: seq<Byte>)
    ensures |b| == k
  {
    if k == 0 then [] else BigEndian(n / 0x100, k - 1) + [n % 0x100]
  }

  /** Whole blocks: the message, the marker byte, the zeros and the eight length bytes. */
  predicate FillsBlocks(length: nat, zeros: nat) { (length + 1 + zeros + 8) % 64 == 0 }

  /** The message, a one bit, and the least zeros that leave room for the 64-bit length in whole blocks. */
  ghost predicate IsPaddingWith(message: seq<Byte>, padded: seq<Byte>, zeros: nat)
  {
    && padded == message + [0x80] + Zeros(zeros) + BigEndian(8 * |message|, 8)
    && FillsBlocks(|message|, zeros)
    && forall fewer: nat :: fewer < zeros ==> !FillsBlocks(|message|, fewer)
  }

  ghost predicate IsPadding(message: seq<Byte>, padded: seq<Byte>)
  {
    exists zeros: nat :: IsPaddingWith(message, padded, zeros)
  }

  /** `Math.ceil((length + 9) / 64) * 64` */
  function PaddedLength(length: nat): nat { (length + 9 + 63) / 64 * 64 }

  function Pad(message: seq<Byte>): seq<Byte>
  {
    message + [0x80] + Zeros(PaddedLength(|message|) - |message| - 9) + BigEndian(8 * |message|, 8)
  }

  lemma PaddedLengthRoom(length: nat)
    ensures length + 9 <= PaddedLength(length) < length + 9 + 64
    ensures PaddedLength(length) % 64 == 0
  {
  }

  lemma PadIsPadding(message: seq<Byte>)
    ensures IsPadding(message, Pad(message)) && |Pad(message)| == PaddedLength(|message|)
  {
    PaddedLengthRoom(|message|);
    var zeros := PaddedLength(|message|) - |message| - 9;
    forall fewer: nat | fewer < zeros ensures !FillsBlocks(|message|, fewer) {
      BetweenMultiples(PaddedLength(|message|) / 64 - 1, |message| + 1 + fewer + 8);
    }
    assert IsPaddingWith(message, Pad(message), zeros);
  }

  lemma BetweenMultiples(q: int, p: int)
    requires 64 * q < p < 64 * q + 64
    ensures p % 64 != 0
  {
  }

  lemma PaddingUnique(message: seq<Byte>, a: seq<Byte>, b: seq<Byte>)
    requires IsPadding(message, a) && IsPadding(message, b)
    ensures a == b
  {
    var x: nat :| IsPaddingWith(message, a, x);
    var y: nat :| IsPaddingWith(message, b, y);
    assert x == y;
  }

  // ---------- the compression function, FIPS 180-4 section 6.2.2 ----------

  function WordAt(bytes: seq<Byte>, i: nat): Word
    requires i + 4 <= |bytes|
  {
    var b0: int, b1: int, b2: int, b3: int := bytes[i], bytes[i + 1], bytes[i + 2], bytes[i + 3];
    (b0 * 0x100_0000 + b1 * 0x1_0000 + b2 * 0x100 + b3) as bv32
  }

  function WordBytes(w: Word): seq<Byte> { BigEndian(w as int, 4) }

  /** Addition modulo 2^32: `>>> 0` of a sum. */
  function Add(x: Word, y: Word): Word { x + y }

  function Add4(x: Word, y: Word, z: Word, w: Word): Word { x + y + z + w }

  function RotateRight(x: Word, n: bv6): Word
    requires n < 32
  {
    (x >> n) | (x << (32 - n))
  }

  function Xor(x: Word, y: Word, z: Word): Word { x ^ y ^ z }

  function SmallSigma0(x: Word): Word { Xor(RotateRight(x, 7), RotateRight(x, 18), x >> 3) }

  function SmallSigma1(x: Word): Word { Xor(RotateRight(x, 17), RotateRight(x, 19), x >> 10) }

  function BigSigma0(x: Word): Word { Xor(RotateRight(x, 2), RotateRight(x, 13), RotateRight(x, 22)) }

  function BigSigma1(x: Word): Word { Xor(RotateRight(x, 6), RotateRight(x, 11), RotateRight(x, 25)) }

  function Ch(x: Word, y: Word, z: Word): Word { (x & y) ^ (!x & z) }

  function Maj(x: Word, y: Word, z: Word): Word { (x & y) ^ (x & z) ^ (y & z) }

  const K: seq<Word> :=
    [0x428a2f98, 0x71374491, 0xb5c0fbcf, 0xe9b5dba5, 0x3956c25b, 0x59f111f1, 0x923f82a4, 0xab1c5ed5]
    + [0xd807aa98, 0x12835b01, 0x243185be, 0x550c7dc3, 0x72be5d74, 0x80deb1fe, 0x9bdc06a7, 0xc19bf174]
    + [0xe49b69c1, 0xefbe4786, 0x0fc19dc6, 0x240ca1cc, 0x2de92c6f, 0x4a7484aa, 0x5cb0a9dc, 0x76f988da]
    + [0x983e5152, 0xa831c66d, 0xb00327c8, 0xbf597fc7, 0xc6e00bf3, 0xd5a79147, 0x06ca6351, 0x14292967]
    + [0x27b70a85, 0x2e1b2138, 0x4d2c6dfc, 0x53380d13, 0x650a7354, 0x766a0abb, 0x81c2c92e, 0x92722c85]
    + [0xa2bfe8a1, 0xa81a664b, 0xc24b8b70, 0xc76c51a3, 0xd192e819, 0xd6990624, 0xf40e3585, 0x106aa070]
    + [0x19a4c116, 0x1e376c08, 0x2748774c, 0x34b0bcb5, 0x391c0cb3, 0x4ed8aa4a, 0x5b9cca4f, 0x682e6ff3]
    + [0x748f82ee, 0x78a5636f, 0x84c87814, 0x8cc70208, 0x90befffa, 0xa4506ceb, 0xbef9a3f7, 0xc67178f2]

  /** The message schedule word W_t of the block that starts at `offset`. */
  function Schedule(padded: seq<Byte>, offset: nat, t: nat): Word
    requires offset + 64 <= |padded| && t < 64
  {
    if t < 16 then WordAt(padded, offset + 4 * t)
    else Add4(SmallSigma1(Schedule(padded, offset, t - 2)), Schedule(padded, offset, t - 7),
              SmallSigma0(Schedule(padded, offset, t - 15)), Schedule(padded, offset, t - 16))
  }

  datatype State = State(a: Word, b: Word, c: Word, d: Word, e: Word, f: Word, g: Word, h: Word)
  {
    function Round(k: Word, w: Word): State
    {
      var t1 := Add(Add(Add(Add(h, BigSigma1(e)), Ch(e, f, g)), k), w);
      var t2 := Add(BigSigma0(a), Maj(a, b, c));
      State(Add(t1, t2), a, b, c, Add(d, t1), e, f, g)
    }

    function Plus(s: State): State
    {
      State(Add(a, s.a), Add(b, s.b), Add(c, s.c), Add(d, s.d), Add(e, s.e), Add(f, s.f), Add(g, s.g), Add(h, s.h))
    }

    function Words(): seq<Word> { [a, b, c, d, e, f, g, h] }
  }

  const INITIAL: State := State(
    0x6a09e667, 0xbb67ae85, 0x3c6ef372, 0xa54ff53a, 0x510e527f, 0x9b05688c, 0x1f83d9ab, 0x5be0cd19)

  function Rounds(s: State, padded: seq<Byte>, offset: nat, t: nat): State
    requires offset + 64 <= |padded| && t <= 64
  {
    if t == 0 then s else Rounds(s, padded, offset, t - 1).Round(K[t - 1], Schedule(padded, offset, t - 1))
  }

  /** The intermediate hash value after the first `n` blocks. */
  function HashBlocks(padded: seq<Byte>, n: nat): State
    requires 64 * n <= |padded|
  {
    if n == 0 then INITIAL else
      var s := HashBlocks(padded, n - 1);
      s.Plus(Rounds(s, padded, 64 * (n - 1), 64))
  }

  function Concatenate(words: seq<Word>): seq<Byte>
  {
    if words == [] then [] else Concatenate(words[..|words| - 1]) + WordBytes(words[|words| - 1])
  }

  /** FIPS 180-4 SHA-256 of a byte string. */
  function Digest(message: seq<Byte>): seq<Byte>
  {
    PadIsPadding(message);
    Concatenate(HashBlocks(Pad(message), PaddedLength(|message|) / 64).Words())
  }

  // ---------- the looped computation ----------

  lemma {:induction false} BigEndianSplit(hi: nat, lo: nat, k: nat)
    requires lo < 0x1_0000_0000
    ensures BigEndian(hi * 0x1_0000_0000 + lo, k + 4) == BigEndian(hi, k) + BigEndian(lo, 4)
  {
    var n := hi * 0x1_0000_0000 + lo;
    assert n / 0x100 == hi * 0x100_0000 + lo / 0x100 && n % 0x100 == lo % 0x100;
    assert n / 0x100 / 0x100 == hi * 0x1_0000 + lo / 0x100 / 0x100;
    assert n / 0x100 / 0x100 / 0x100 == hi * 0x100 + lo / 0x100 / 0x100 / 0x100;
    assert n / 0x100 / 0x100 / 0x100 / 0x100 == hi;
    Unfold4(n, k);
    Unfold4(lo, 0);
    assert lo / 0x100 / 0x100 / 0x100 / 0x100 == 0;
  }

  lemma Unfold4(n: nat, k: nat)
    ensures BigEndian(n, k + 4) == BigEndian(n / 0x100 / 0x100 / 0x100 / 0x100, k)
              + [n / 0x100 / 0x100 / 0x100 % 0x100, n / 0x100 / 0x100 % 0x100, n / 0x100 % 0x100, n % 0x100]
  {
    var n1 := n / 0x100;
    var n2 := n1 / 0x100;
    var n3 := n2 / 0x100;
    assert BigEndian(n3, k + 1) == BigEndian(n3 / 0x100, k) + [n3 % 0x100];
    assert BigEndian(n2, k + 2) == BigEndian(n3, k + 1) + [n2 % 0x100];
    assert BigEndian(n1, k + 3) == BigEndian(n2, k + 2) + [n1 % 0x100];
    assert BigEndian(n, k + 4) == BigEndian(n1, k + 3) + [n % 0x100];
  }

  /** `DataView.setUint32(at, value, false)` */
  method SetUint32(bytes: array<Byte>, at: nat, value: nat)
    requires at + 4 <= bytes.Length && value < 0x1_0000_0000
    modifies bytes
    ensures bytes[at..at + 4] == BigEndian(value, 4)
    ensures forall j :: 0 <= j < bytes.Length && !(at <= j < at + 4) ==> bytes[j] == old(bytes[j])
  {
    var n1 := value / 0x100;
    var n2 := n1 / 0x100;
    var n3 := n2 / 0x100;
    Unfold4(value, 0);
    bytes[at], bytes[at + 1], bytes[at + 2], bytes[at + 3] := n3 % 0x100, n2 % 0x100, n1 % 0x100, value % 0x100;
  }

  /** `new Uint8Array(length)` and `padded.set(bytes)`. */
  method CopyInto(bytes: seq<Byte>, length: nat) returns (padded: array<Byte>)
    requires |bytes| <= length
    ensures fresh(padded) && padded.Length == length
    ensures padded[..|bytes|] == bytes && forall j :: |bytes| <= j < length ==> padded[j] == 0
  {
    padded := new Byte[length](_ => 0);
    var i := 0;
    while i < |bytes|
      invariant 0 <= i <= |bytes|
      invariant padded[..i] == bytes[..i]
      invariant forall j :: i <= j < length ==> padded[j] == 0
    {
      padded[i] := bytes[i];
      i := i + 1;
    }
  }

  /** The padded copy of the input: typed-array fill, the marker byte and two 32-bit length words. */
  method PadArray(bytes: seq<Byte>) returns (padded: array<Byte>)
    requires |bytes| < 0x4_0000_0000_0000
    ensures fresh(padded) && padded[..] == Pad(bytes)
  {
    hide BigEndian, Pad;
    var bitLength := |bytes| * 8;
    var paddedLength := PaddedLength(|bytes|);
    PaddedLengthRoom(|bytes|);
    padded := CopyInto(bytes, paddedLength);
    padded[|bytes|] := 0x80;
    SetUint32(padded, paddedLength - 8, bitLength / 0x1_0000_0000);
    SetUint32(padded, paddedLength - 4, bitLength % 0x1_0000_0000);
    BigEndianSplit(bitLength / 0x1_0000_0000, bitLength % 0x1_0000_0000, 4);
    PaddedBytes(bytes, bitLength / 0x1_0000_0000, bitLength % 0x1_0000_0000, padded[..]);
  }

  lemma PaddedBytes(bytes: seq<Byte>, hi: nat, lo: nat, padded: seq<Byte>)
    requires |padded| == PaddedLength(|bytes|) && |padded| >= |bytes| + 9
    requires forall j :: 0 <= j < |bytes| ==> padded[j] == bytes[j]
    requires padded[|bytes|] == 0x80
    requires forall j :: |bytes| < j < |padded| - 8 ==> padded[j] == 0
    requires padded[|padded| - 8..|padded| - 4] == BigEndian(hi, 4) && padded[|padded| - 4..] == BigEndian(lo, 4)
    requires BigEndian(8 * |bytes|, 8) == BigEndian(hi, 4) + BigEndian(lo, 4)
    ensures padded == Pad(bytes)
  {
    hide BigEndian;
    var zeros := |padded| - |bytes| - 9;
    assert padded[|bytes| + 1..|padded| - 8] == Zeros(zeros);
    assert padded == bytes + [0x80] + padded[|bytes| + 1..|padded| - 8]
                     + (padded[|padded| - 8..|padded| - 4] + padded[|padded| - 4..]);
  }

  lemma SumOrder(p: Word, s0: Word, q: Word, s1: Word)
    ensures Add4(p, s0, q, s1) == Add4(s1, q, s0, p)
  {
  }

  lemma ScheduleSum(padded: seq<Byte>, offset: nat, t: nat)
    requires offset + 64 <= |padded| && 16 <= t < 64
    ensures Schedule(padded, offset, t)
            == Add4(Schedule(padded, offset, t - 16), SmallSigma0(Schedule(padded, offset, t - 15)),
                    Schedule(padded, offset, t - 7), SmallSigma1(Schedule(padded, offset, t - 2)))
  {
    SumOrder(Schedule(padded, offset, t - 16), SmallSigma0(Schedule(padded, offset, t - 15)),
             Schedule(padded, offset, t - 7), SmallSigma1(Schedule(padded, offset, t - 2)));
  }

  /** The message schedule, recomputed in the same 64-word array for each block. */
  method FillSchedule(padded: seq<Byte>, offset: nat, schedule: array<Word>)
    requires schedule.Length == 64 && offset + 64 <= |padded|
    modifies schedule
    ensures forall t :: 0 <= t < 64 ==> schedule[t] == Schedule(padded, offset, t)
  {
    hide SmallSigma0, SmallSigma1, Add4, WordAt;
    for index := 0 to 16
      invariant forall t :: 0 <= t < index ==> schedule[t] == Schedule(padded, offset, t)
    {
      schedule[index] := WordAt(padded, offset + index * 4);
    }
    for index := 16 to 64
      invariant forall t :: 0 <= t < index ==> schedule[t] == Schedule(padded, offset, t)
    {
      var s0 := SmallSigma0(schedule[index - 15]);
      var s1 := SmallSigma1(schedule[index - 2]);
      ScheduleSum(padded, offset, index);
      schedule[index] := Add4(schedule[index - 16], s0, schedule[index - 7], s1);
    }
  }

  /** The 64 rounds over eight working variables. */
  method Compress(start: State, ghost padded: seq<Byte>, ghost offset: nat, schedule: seq<Word>)
    returns (s: State)
    requires |schedule| == 64 && offset + 64 <= |padded|
    requires forall t :: 0 <= t < 64 ==> schedule[t] == Schedule(padded, offset, t)
    ensures s == Rounds(start, padded, offset, 64)
  {
    hide BigSigma0, BigSigma1, Ch, Maj, Add, Schedule;
    var a, b, c, d := start.a, start.b, start.c, start.d;
    var e, f, g, h := start.e, start.f, start.g, start.h;
    for index := 0 to 64
      invariant State(a, b, c, d, e, f, g, h) == Rounds(start, padded, offset, index)
    {
      var temp1 := Add(Add(Add(Add(h, BigSigma1(e)), Ch(e, f, g)), K[index]), schedule[index]);
      var temp2 := Add(BigSigma0(a), Maj(a, b, c));
      h := g;
      g := f;
      f := e;
      e := Add(d, temp1);
      d := c;
      c := b;
      b := a;
      a := Add(temp1, temp2);
    }
    s := State(a, b, c, d, e, f, g, h);
  }

  function StateOf(words: seq<Word>): State
    requires |words| == 8
  {
    State(words[0], words[1], words[2], words[3], words[4], words[5], words[6], words[7])
  }

  /** One block: the schedule, the rounds, and the eight words of `hash` updated in place. */
  method HashBlock(padded: seq<Byte>, offset: nat, ghost n: nat, schedule: array<Word>, hash: array<Word>)
    requires schedule.Length == 64 && hash.Length == 8 && schedule != hash
    requires offset == 64 * n && offset + 64 <= |padded| && StateOf(hash[..]) == HashBlocks(padded, n)
    modifies schedule, hash
    ensures StateOf(hash[..]) == HashBlocks(padded, n + 1)
  {
    hide Rounds, Schedule, Add;
    FillSchedule(padded, offset, schedule);
    var s := Compress(StateOf(hash[..]), padded, offset, schedule[..]);
    ghost var before := StateOf(hash[..]);
    hash[0] := Add(hash[0], s.a);
    hash[1] := Add(hash[1], s.b);
    hash[2] := Add(hash[2], s.c);
    hash[3] := Add(hash[3], s.d);
    hash[4] := Add(hash[4], s.e);
    hash[5] := Add(hash[5], s.f);
    hash[6] := Add(hash[6], s.g);
    hash[7] := Add(hash[7], s.h);
    assert StateOf(hash[..]) == before.Plus(s);
  }

  method Sha256(bytes: seq<Byte>) returns (output: seq<Byte>)
    requires |bytes| < 0x4_0000_0000_0000
    ensures output == Digest(bytes)
  {
    hide Concatenate, BigEndian, Zeros, Rounds, Schedule, Pad;
    var paddedArray := PadArray(bytes);
    var padded := paddedArray[..];
    PadIsPadding(bytes);
    PaddedLengthRoom(|bytes|);
    var hash := new Word[8] [0x6a09e667, 0xbb67ae85, 0x3c6ef372, 0xa54ff53a, 0x510e527f, 0x9b05688c, 0x1f83d9ab, 0x5be0cd19];
    var schedule := new Word[64];
    var offset := 0;
    ghost var blocks := 0;
    while offset < |padded|
      invariant offset == 64 * blocks <= |padded|
      invariant StateOf(hash[..]) == HashBlocks(padded, blocks)
    {
      HashBlock(padded, offset, blocks, schedule, hash);
      offset, blocks := offset + 64, blocks + 1;
    }
    WordsOfState(hash[..]);
    output := WriteWords(hash[..]);
  }

  lemma WordsOfState(words: seq<Word>)
    requires |words| == 8
    ensures StateOf(words).Words() == words
  {
  }

  method WriteWords(words: seq<Word>) returns (output: seq<Byte>)
    ensures output == Concatenate(words)
  {
    output := [];
    for index := 0 to |words|
      invariant output == Concatenate(words[..index])
    {
      assert words[..index + 1][..index] == words[..index];
      output := output + WordBytes(words[index]);
    }
    assert words[..|words|] == words;
  }
}
