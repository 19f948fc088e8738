/** SHA-1 as FIPS 180-4 defines it, on 32-bit words. */
module Sha1Spec {
  import opened Arithmetic

  type Word = bv32

  type Byte = bv8

  /** The five working variables, and also the five words of a hash value. */
  datatype Vars = Vars(a: Word, b: Word, c: Word, d: Word, e: Word)

  const BLOCK := 64

  // ----- Section 4.1.1: functions; section 4.2.1: constants ----------------------------

  function Rotl(x: Word, k: Word): Word
    requires 0 < k < 32
  {
    (x << k) | (x >> (32 - k))
  }

  // Addition modulo 2^32.
  function Plus(x: Word, y: Word): Word { x + y }

  /** The sum of the five terms of a step; by SumOrder it is the sum in the order of the
      standard. */
  function Sum(e: Word, f: Word, w: Word, k: Word, r: Word): Word { e + (f + w + k + r) }

  lemma SumOrder(e: Word, f: Word, w: Word, k: Word, r: Word)
    ensures e + (f + w + k + r) == r + f + e + k + w
  {
  }

  function Ch(x: Word, y: Word, z: Word): Word { (x & y) ^ (!x & z) }

  function Parity(x: Word, y: Word, z: Word): Word { x ^ y ^ z }

  function Maj(x: Word, y: Word, z: Word): Word { (x & y) ^ (x & z) ^ (y & z) }

  function F(t: int, x: Word, y: Word, z: Word): Word {
    if t < 20 then Ch(x, y, z)
    else if t < 40 then Parity(x, y, z)
    else if t < 60 then Maj(x, y, z)
    else Parity(x, y, z)
  }

  function K(t: int): Word {
    if t < 20 then 0x5a82_7999
    else if t < 40 then 0x6ed9_eba1
    else if t < 60 then 0x8f1b_bcdc
    else 0xca62_c1d6
  }

  const IV := Vars(0x6745_2301, 0xefcd_ab89, 0x98ba_dcfe, 0x1032_5476, 0xc3d2_e1f0)

  // ----- Section 6.1.2: the hash computation -------------------------------------------

  // Four bytes, the most significant first.
  function BigEndian(b0: Byte, b1: Byte, b2: Byte, b3: Byte): Word {
    ((b0 as Word) << 24) | ((b1 as Word) << 16) | ((b2 as Word) << 8) | b3 as Word
  }

  function Expand(x: Word, y: Word, z: Word, w: Word): Word { Rotl(x ^ y ^ z ^ w, 1) }

  /** The message schedule of a block. */
  function W(m: seq<Byte>, t: int): Word
    requires |m| == BLOCK && t >= 0
    decreases t
  {
    if t < 16 then BigEndian(m[4 * t], m[4 * t + 1], m[4 * t + 2], m[4 * t + 3])
    else Expand(W(m, t - 3), W(m, t - 8), W(m, t - 14), W(m, t - 16))
  }

  function Step(v: Vars, t: int, w: Word): Vars {
    var T := Sum(v.e, F(t, v.b, v.c, v.d), w, K(t), Rotl(v.a, 5));
    Vars(T, v.a, Rotl(v.b, 30), v.c, v.d)
  }

  function Rounds(s: Vars, m: seq<Byte>, t: nat): Vars
    requires |m| == BLOCK
  {
    if t == 0 then s else Step(Rounds(s, m, t - 1), t - 1, W(m, t - 1))
  }

  function Add(s: Vars, v: Vars): Vars {
    Vars(Plus(s.a, v.a), Plus(s.b, v.b), Plus(s.c, v.c), Plus(s.d, v.d), Plus(s.e, v.e))
  }

  /** The hash value after one more block. */
  function Compress(s: Vars, m: seq<Byte>): Vars
    requires |m| == BLOCK
  {
    Add(s, Rounds(s, m, 80))
  }

  /** The hash value after all the whole blocks of `m`. */
  function Hash(s: Vars, m: seq<Byte>): Vars
    decreases |m|
  {
    if |m| < BLOCK then s else Hash(Compress(s, m[..BLOCK]), m[BLOCK..])
  }

  // ----- Section 5.1.1: padding --------------------------------------------------------

  function Zeros(k: nat): seq<Byte> { if k == 0 then [] else Zeros(k - 1) + [0] }

  /** The number of zero bytes: the padded message is a whole number of blocks. */
  function ZeroCount(len: nat): nat { (119 - len % BLOCK) % BLOCK }

  /** A digit of `x` to the base 256; digit 0 is the last. */
  function Digit(x: nat, k: nat): (d: int)
    ensures 0 <= d < 256
  {
    x / Power256(k) % 256
  }

  function ByteOf(x: nat, k: nat): Byte { Digit(x, k) as Byte }

  function Power256(k: nat): (p: nat)
    ensures p > 0
  {
    if k == 0 then 1 else 256 * Power256(k - 1)
  }

  // The 64-bit number `x`, the most significant byte first.
  function Length64(x: nat): (s: seq<Byte>)
    ensures |s| == 8
  {
    [ByteOf(x, 7), ByteOf(x, 6), ByteOf(x, 5), ByteOf(x, 4), ByteOf(x, 3), ByteOf(x, 2), ByteOf(x, 1), ByteOf(x, 0)]
  }

  function Pad(m: seq<Byte>): seq<Byte> {
    m + [0x80] + Zeros(ZeroCount(|m|)) + Length64(8 * |m|)
  }

  // The most significant byte first.
  function WordBytes(x: Word): (r: seq<Byte>)
    ensures |r| == 4
  {
    [((x >> 24) & 255) as Byte, ((x >> 16) & 255) as Byte, ((x >> 8) & 255) as Byte, (x & 255) as Byte]
  }

  function Digest(m: seq<Byte>): seq<Byte> {
    var h := Hash(IV, Pad(m));
    WordBytes(h.a) + WordBytes(h.b) + WordBytes(h.c) + WordBytes(h.d) + WordBytes(h.e)
  }

  // ----- Properties --------------------------------------------------------------------

  lemma {:induction false} ZerosLength(k: nat)
    ensures |Zeros(k)| == k
  {
    if k > 0 { ZerosLength(k - 1); }
  }

  lemma PadWhole(m: seq<Byte>)
    ensures |Pad(m)| % BLOCK == 0
  {
    ZerosLength(ZeroCount(|m|));
    PadLength(|m|);
    hide *;
  }

  lemma PadLength(n: nat)
    ensures (n + 1 + ZeroCount(n) + 8) % BLOCK == 0
  {
    var q, r := n / BLOCK, n % BLOCK;
    assert ZeroCount(n) == if r <= 55 then 55 - r else 119 - r;
    assert n + 1 + ZeroCount(n) + 8 == if r <= 55 then BLOCK * (q + 1) else BLOCK * (q + 2);
  }

  /** The number that digits to the base 256 stand for, the most significant first. */
  function NumberOf(ds: seq<int>): int {
    if ds == [] then 0 else 256 * NumberOf(ds[..|ds| - 1]) + ds[|ds| - 1]
  }

  lemma Snoc(ds: seq<int>, d: int)
    ensures NumberOf(ds + [d]) == 256 * NumberOf(ds) + d
  {
    assert (ds + [d])[..|ds|] == ds;
  }

  // A digit is what one more division leaves.
  lemma NextDigit(x: nat, k: nat)
    ensures x / Power256(k) == 256 * (x / Power256(k + 1)) + Digit(x, k)
  {
    assert Power256(k + 1) == Power256(k) * 256;
    DividedTwice(x, Power256(k), 256);
  }

  /** The `k` most significant of the eight digits of a length. */
  function Upper(x: nat, k: nat): (ds: seq<int>)
    requires k <= 8
    ensures |ds| == k && forall i | 0 <= i < k :: ds[i] == Digit(x, 7 - i)
  {
    if k == 0 then [] else Upper(x, k - 1) + [Digit(x, 8 - k)]
  }

  lemma {:induction false} UpperIs(x: nat, k: nat)
    requires k <= 8
    ensures NumberOf(Upper(x, k)) + Power256(k) * (x / Power256(8)) == x / Power256(8 - k)
    ensures 0 <= NumberOf(Upper(x, k)) < Power256(k)
  {
    hide Digit;
    if k > 0 {
      var q := x / Power256(8);
      UpperIs(x, k - 1);
      NextDigit(x, 8 - k);
      Snoc(Upper(x, k - 1), Digit(x, 8 - k));
      Associates(256, Power256(k - 1), q);
    }
  }

  lemma LengthAt(x: nat, i: nat)
    requires i < 8
    ensures Length64(x)[i] == ByteOf(x, 7 - i)
  {
    hide ByteOf;
  }

  lemma PowerEight()
    ensures Power256(8) == 0x1_0000_0000_0000_0000 && Power256(0) == 1
  {
    assert Power256(4) == 0x1_0000_0000;
  }

  /** The eight bytes stand for the length, modulo 2^64. */
  lemma LengthRead(x: nat) returns (ds: seq<int>)
    ensures |ds| == 8 && forall i | 0 <= i < 8 :: 0 <= ds[i] < 256 && Length64(x)[i] == ds[i] as Byte
    ensures NumberOf(ds) == x % 0x1_0000_0000_0000_0000
  {
    hide NumberOf, Length64, Power256, Digit;
    ds := Upper(x, 8);
    forall i | 0 <= i < 8 ensures 0 <= ds[i] < 256 && Length64(x)[i] == ds[i] as Byte {
      LengthAt(x, i);
    }
    UpperIs(x, 8);
    PowerEight();
    QuotientIs(x, Power256(8), x / Power256(8), NumberOf(ds));
  }

  /** What is left of `m` after its whole blocks. */
  function Tail(m: seq<Byte>): (t: seq<Byte>)
    ensures |t| == |m| % BLOCK
  {
    m[|m| - |m| % BLOCK..]
  }

  /** Hashing goes on from what was hashed before and the bytes that were left. */
  lemma {:induction false} HashAppend(s: Vars, m: seq<Byte>, x: seq<Byte>)
    ensures Hash(s, m + x) == Hash(Hash(s, m), Tail(m) + x)
    ensures Tail(m + x) == Tail(Tail(m) + x)
    decreases |m|
  {
    hide Compress;
    if |m| < BLOCK {
      assert Tail(m) == m;
    } else {
      HashAppend(Compress(s, m[..BLOCK]), m[BLOCK..], x);
      assert (m + x)[..BLOCK] == m[..BLOCK];
      assert (m + x)[BLOCK..] == m[BLOCK..] + x;
      TailOfTail(m);
      TailOfTail(m + x);
    }
  }

  lemma TailOfTail(m: seq<Byte>)
    requires |m| >= BLOCK
    ensures Tail(m[BLOCK..]) == Tail(m)
  {
    var r := m[BLOCK..];
    assert |r| % BLOCK == |m| % BLOCK;
  }

  lemma HashBlock(s: Vars, m: seq<Byte>, b: seq<Byte>)
    requires |m| % BLOCK == 0 && |b| == BLOCK
    ensures Hash(s, m + b) == Compress(Hash(s, m), b)
  {
    hide Compress;
    HashAppend(s, m, b);
    assert Tail(m) + b == b && b[..BLOCK] == b && |b[BLOCK..]| == 0;
  }

  lemma HashPart(s: Vars, m: seq<Byte>, x: seq<Byte>)
    requires |m| % BLOCK == 0 && |x| < BLOCK
    ensures Hash(s, m + x) == Hash(s, m) && Tail(m + x) == x
  {
    hide Compress;
    HashAppend(s, m, x);
    assert Tail(m) + x == x;
  }
}
