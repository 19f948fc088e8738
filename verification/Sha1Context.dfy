/** The SHA-1 context: a message that arrives in pieces of any size. */
module Sha1Context {
  import opened Arithmetic
  import opened Sha1
  import opened Sha1Spec

  const TWO32 := 0x1_0000_0000
  const TWO64 := 0x1_0000_0000_0000_0000

  // ----- Counting bits ----------------------------------------------------------------

  /** The two words of the count, low and high, hold the number of bits modulo 2^64. */
  predicate Counts(low: int, high: int, n: int) {
    0 <= low < TWO32 && 0 <= high < TWO32 && low + TWO32 * high == (8 * n) % TWO64
  }

  lemma CountAdds(low: int, high: int, n: int, len: int)
    requires Counts(low, high, n) && 0 <= len < TWO32
    ensures var low' := (low + (8 * len) % TWO32) % TWO32;
            var carry := if low' < low then 1 else 0;
            Counts(low', ((high + carry) % TWO32 + len / 0x2000_0000) % TWO32, n + len)
  {
    var a, top := (8 * len) % TWO32, len / 0x2000_0000;
    var low' := (low + a) % TWO32;
    var carry := if low' < low then 1 else 0;
    var high' := ((high + carry) % TWO32 + top) % TWO32;
    TopBits(len);
    Carry(low, a);
    var q := HighSum(high + carry, top);
    var r := Wraps(low + TWO32 * high, 8 * n);
    CountSum(low, high, n, len, a, top, low', carry, high', q, r);
    CountIs(low', high', n + len, q + r);
  }

  // How often the sum wraps around.
  lemma HighSum(x: int, y: int) returns (q: int)
    ensures x + y == (x % TWO32 + y) % TWO32 + TWO32 * q && 0 <= (x % TWO32 + y) % TWO32 < TWO32
  {
    Division(x, TWO32);
    Division(x % TWO32 + y, TWO32);
    q := x / TWO32 + (x % TWO32 + y) / TWO32;
  }

  lemma Wraps(x: int, y: int) returns (q: int)
    requires x == y % TWO64
    ensures x + TWO64 * q == y
  {
    Division(y, TWO64);
    q := y / TWO64;
  }

  lemma CountIs(low: int, high: int, n: int, q: int)
    requires 0 <= low < TWO32 && 0 <= high < TWO32 && 8 * n == low + TWO32 * high + TWO64 * q
    ensures Counts(low, high, n)
  {
    SameRemainder(8 * n, low + TWO32 * high, TWO64, q);
    Small(low + TWO32 * high, TWO64);
  }

  lemma CountSum(low: int, high: int, n: int, len: int, a: int, top: int, low': int, carry: int, high': int,
                 q: int, r: int)
    requires low + TWO32 * high + TWO64 * r == 8 * n && 8 * len == a + TWO32 * top
    requires low + a == low' + TWO32 * carry && high + carry + top == high' + TWO32 * q
    ensures 8 * (n + len) == low' + TWO32 * high' + TWO64 * (q + r)
  {
  }

  lemma TopBits(len: int)
    requires 0 <= len < TWO32
    ensures 8 * len == (8 * len) % TWO32 + TWO32 * (len / 0x2000_0000)
  {
    var t, r := len / 0x2000_0000, len % 0x2000_0000;
    assert 8 * len == TWO32 * t + 8 * r;
    SameRemainder(8 * len, 8 * r, TWO32, t);
    Small(8 * r, TWO32);
  }

  lemma Carry(low: int, a: int)
    requires 0 <= low < TWO32 && 0 <= a < TWO32
    ensures var low' := (low + a) % TWO32;
            0 <= low' < TWO32 && low + a == low' + if low' < low then TWO32 else 0
  {
    if low + a < TWO32 {
      Small(low + a, TWO32);
    } else {
      SameRemainder(low + a, low + a - TWO32, TWO32, 1);
      Small(low + a - TWO32, TWO32);
    }
  }

  lemma HighWord(low: int, high: int, n: int)
    requires Counts(low, high, n)
    ensures high % TWO32 == high
  {
    Small(high, TWO32);
  }

  /** The low word tells how much of the buffer is filled. */
  lemma Filled(low: int, high: int, n: int)
    requires Counts(low, high, n)
    ensures (low / 8) % 64 == n % 64
  {
    Division(8 * n, TWO64);
    var q := 8 * n / TWO64;
    assert 8 * n == low + TWO32 * high + TWO64 * q;
    var l := low / 8;
    assert low == 8 * l;
    assert n == l + 64 * (0x80_0000 * high + 0x80_0000_0000_0000 * q);
    SameRemainder(n, l, 64, 0x80_0000 * high + 0x80_0000_0000_0000 * q);
  }

  // ----- Bytes of the count -----------------------------------------------------------

  /** A byte of a number is not changed by what lies above it. */
  lemma ByteBelow(x: nat, y: nat, k: nat, c: nat)
    requires y == x + Power256(k) * (256 * c)
    ensures ByteOf(y, k) == ByteOf(x, k)
  {
    var p := Power256(k);
    Division(x, p);
    AddMultiple(x, p, 256 * c);
    SameRemainder(y / p, x / p, 256, c);
  }

  lemma {:induction false} PowerSum(i: nat, j: nat)
    ensures Power256(i) * Power256(j) == Power256(i + j)
  {
    if i > 0 {
      PowerSum(i - 1, j);
      Associates(256, Power256(i - 1), Power256(j));
    }
  }

  lemma Power4()
    ensures Power256(4) == TWO32
  {
    assert Power256(2) == 65536;
  }

  /** The bytes of the two words of the count are the bytes of the number of bits. */
  lemma CountByte(low: int, high: int, n: nat, i: int)
    requires Counts(low, high, n) && 0 <= i < 8
    ensures ByteOf(if i >= 4 then low else high, 3 - i % 4) == ByteOf(8 * n, 7 - i)
  {
    hide Power256, ByteOf;
    Division(8 * n, TWO64);
    var r := 8 * n / TWO64;
    var h := high + TWO32 * r;
    Power4();
    var k := 3 - i % 4;
    PowerSum(k, 4 - k);
    OneMore(3 - k);
    if i >= 4 {
      Regroup(k, h);
      ByteBelow(low, 8 * n, k, Power256(3 - k) * h);
    } else {
      Regroup(k, r);
      ByteBelow(high, h, k, Power256(3 - k) * r);
      PowerSum(4, k);
      DividedTwice(8 * n, TWO32, Power256(k));
      QuotientIs(8 * n, TWO32, h, low);
      HighByte(8 * n, h, k);
    }
  }

  lemma OneMore(k: nat)
    ensures Power256(k + 1) == 256 * Power256(k)
  {
  }

  lemma Regroup(k: nat, h: nat)
    requires k <= 3
    ensures Power256(k) * (256 * (Power256(3 - k) * h)) == TWO32 * h
  {
    Power4();
    PowerSum(k, 4 - k);
    OneMore(3 - k);
    Associates(Power256(k), Power256(4 - k), h);
    Associates(256, Power256(3 - k), h);
  }

  lemma HighByte(x: nat, h: nat, k: nat)
    requires x / Power256(k + 4) == h / Power256(k)
    ensures ByteOf(x, k + 4) == ByteOf(h, k)
  {
  }

  // ----- The context ------------------------------------------------------------------

  class Context {
    var state: Vars
    var count0: int
    var count1: int
    const buffer: array<Byte>

    /** Everything hashed so far. */
    ghost var message: seq<Byte>

    ghost predicate Valid()
      reads this, buffer
    {
      && buffer.Length == BLOCK
      && Counts(count0, count1, |message|)
      && state == Hash(IV, message)
      && buffer[..|message| % BLOCK] == Tail(message)
    }

    constructor ()
      ensures Valid() && message == [] && fresh(buffer)
    {
      hide Power256;
      state := IV;
      count0, count1 := 0, 0;
      message := [];
      buffer := new Byte[BLOCK](i => 0);
    }

    method AddCount(len: int)
      requires Counts(count0, count1, |message|) && 0 <= len < TWO32
      modifies this`count0, this`count1
      ensures Counts(count0, count1, |message| + len)
    {
      hide Counts;
      CountAdds(count0, count1, |message|, len);
      HighWord(count0, count1, |message|);
      var j := count0;
      count0 := (count0 + (8 * len) % TWO32) % TWO32;
      if count0 < j {
        count1 := (count1 + 1) % TWO32;
      }
      count1 := (count1 + len / 0x2000_0000) % TWO32;
    }

    /** The bytes `data` are put into the buffer from `j` on. */
    method Copy(j: nat, data: seq<Byte>)
      requires j + |data| <= buffer.Length
      modifies buffer
      ensures buffer[..j] == old(buffer[..j]) && buffer[j..j + |data|] == data
    {
      forall k | 0 <= k < |data| {
        buffer[j + k] := data[k];
      }
    }

    /** The bytes in the buffer and those of `data` are hashed, block by block; what is left
        stays in the buffer. */
    method Absorb(j0: nat, data: seq<Byte>)
      requires buffer.Length == BLOCK && j0 < BLOCK
      modifies this`state, buffer
      ensures var pending := old(buffer[..j0]) + data;
              state == Hash(old(state), pending) && buffer[..|pending| % BLOCK] == Tail(pending)
    {
      hide Compress, Hash, Tail;
      var j := j0;
      var i := 0;
      ghost var s, b := state, buffer[..j];
      ghost var p := b + data;
      if j + |data| > 63 {
        i := 64 - j;
        Copy(j, data[..i]);
        FirstPart(s, b, data);
        assert buffer[..] == b + data[..i] by { assert buffer[..] == buffer[..j] + buffer[j..j + i]; }
        state := Transform(state, buffer[..]);
        while i + 63 < |data|
          invariant 64 - j <= i <= |data| && (j + i) % BLOCK == 0
          invariant state == Hash(s, p[..j + i])
        {
          NextPart(s, b, data, i);
          state := Transform(state, data[i..i + 64]);
          i := i + 64;
        }
        LastPart(s, b, data, i);
        j := 0;
      } else {
        HashFew(s, p);
      }
      Copy(j, data[i..]);
      assert buffer[..j + |data| - i] == buffer[..j] + buffer[j..j + |data| - i];
      assert buffer[..|p| % BLOCK] == Tail(p) by { TailLength(p); }
    }

    /** Hashing does not depend on how the message is cut up. */
    method Update(data: seq<Byte>)
      requires Valid() && |data| <= TWO32 - 64
      modifies this, buffer
      ensures Valid() && message == old(message) + data
    {
      hide Hash, Compress, Counts;
      Filled(count0, count1, |message|);
      HashAppend(IV, message, data);
      LengthOf(message, data);
      var j := (count0 / 8) % 64;
      AddCount(|data|);
      Absorb(j, data);
      message := message + data;
    }

    /** The count, the most significant byte first. */
    method FinalCount() returns (finalCount: seq<Byte>)
      requires Counts(count0, count1, |message|)
      ensures finalCount == Length64(8 * |message|)
    {
      hide ByteOf, Counts;
      finalCount := [];
      var i := 0;
      while i < 8
        invariant 0 <= i <= 8 && |finalCount| == i
        invariant forall k | 0 <= k < i :: finalCount[k] == ByteOf(8 * |message|, 7 - k)
      {
        CountNatural(count0, count1, |message|);
        CountByte(count0, count1, |message|, i);
        finalCount := finalCount + [ByteOf(if i >= 4 then count0 else count1, 3 - i % 4)];
        i := i + 1;
      }
    }

    /** A one bit, zeros, and the count bring the message to a whole number of blocks. */
    method Padding()
      requires Valid()
      modifies this, buffer
      ensures Valid() && message == Pad(old(message))
    {
      hide Hash, Compress, Counts, Zeros, Length64, ByteOf, ZeroCount, Tail;
      var finalCount := FinalCount();
      Update([0x80]);
      ghost var m, k := old(message), 0;
      ZerosStep(0);
      while true
        invariant Valid() && 0 <= k <= ZeroCount(|m|)
        invariant message == m + [0x80] + Zeros(k)
        decreases ZeroCount(|m|) - k
      {
        Filled(count0, count1, |message|);
        ZerosLength(k);
        ZerosStep(k);
        PaddingEnds(|m|, k);
        // The bits 504 of the low word, eight times the filled part of the buffer, are 448.
        if (count0 / 8) % 64 == 56 {
          break;
        }
        Update([0]);
        k := k + 1;
      }
      LengthBytes(8 * |m|);
      Update(finalCount);
    }

    /** The digest of the message, as twenty bytes. */
    method Final() returns (digest: seq<Byte>)
      requires Valid()
      modifies this, buffer
      ensures digest == Digest(old(message))
    {
      hide Hash, Pad, WordBytes, Counts;
      Padding();
      digest := [];
      ghost var h := state;
      ghost var all := AllBytes(h);
      var i := 0;
      while i < 20
        invariant 0 <= i <= 20 && digest == all[..i] && state == h
      {
        ByteAtIs(state, i);
        assert all[..i + 1] == all[..i] + [all[i]];
        digest := digest + [ByteAt(WordAt(state, i / 4), i % 4)];
        i := i + 1;
      }
      assert all[..20] == all;
    }
  }

  /** The digest of `str`, hashed one byte at a time. */
  method SHA1(str: seq<Byte>) returns (hashOut: seq<Byte>)
    ensures hashOut == Digest(str)
  {
    hide Digest;
    var ctx := new Context();
    var i := 0;
    while i < |str|
      invariant 0 <= i <= |str| && ctx.Valid() && ctx.message == str[..i]
      invariant fresh(ctx) && fresh(ctx.buffer)
    {
      ctx.Update([str[i]]);
      i := i + 1;
    }
    assert str[..i] == str;
    hashOut := ctx.Final();
  }

  lemma CountNatural(low: int, high: int, n: int)
    requires Counts(low, high, n)
    ensures low >= 0 && high >= 0
  {
  }

  lemma ZerosStep(k: nat)
    ensures Zeros(0) == [] && Zeros(k + 1) == Zeros(k) + [0]
  {
  }

  /** With 56 bytes in the last block the padding is as long as it should be. */
  lemma PaddingEnds(n: nat, k: nat)
    requires k <= ZeroCount(n)
    ensures (n + 1 + k) % BLOCK == 56 <==> k == ZeroCount(n)
  {
    var q, r := n / BLOCK, n % BLOCK;
    Division(n, BLOCK);
    assert ZeroCount(n) == if r <= 55 then 55 - r else 119 - r;
    SameRemainder(n + 1 + k, r + 1 + k, BLOCK, q);
    if r <= 55 { Small(r + 1 + k, BLOCK); } else {
      if r + 1 + k < BLOCK { Small(r + 1 + k, BLOCK); } else {
        SameRemainder(r + 1 + k, r + 1 + k - BLOCK, BLOCK, 1);
        Small(r + 1 + k - BLOCK, BLOCK);
      }
    }
  }

  lemma LengthBytes(x: nat)
    ensures |Length64(x)| == 8
  {
    hide ByteOf;
  }

  function WordAt(v: Vars, i: int): Word
    requires 0 <= i < 5
  {
    if i == 0 then v.a else if i == 1 then v.b else if i == 2 then v.c else if i == 3 then v.d else v.e
  }

  function ByteAt(x: Word, i: int): Byte
    requires 0 <= i < 4
  {
    WordBytes(x)[i]
  }

  function AllBytes(v: Vars): (r: seq<Byte>)
    ensures |r| == 20
  {
    WordBytes(v.a) + WordBytes(v.b) + WordBytes(v.c) + WordBytes(v.d) + WordBytes(v.e)
  }

  lemma ByteAtIs(v: Vars, i: int)
    requires 0 <= i < 20
    ensures AllBytes(v)[i] == ByteAt(WordAt(v, i / 4), i % 4)
  {
    hide WordBytes;
    var a, b, c, d, e := WordBytes(v.a), WordBytes(v.b), WordBytes(v.c), WordBytes(v.d), WordBytes(v.e);
    assert (a + b + c + d + e)[i]
        == if i < 4 then a[i] else if i < 8 then b[i - 4] else if i < 12 then c[i - 8]
           else if i < 16 then d[i - 12] else e[i - 16];
  }

  // The bytes hashed are those that wait, `b`, and then `data`: the first block of them, ...
  lemma FirstPart(s: Vars, b: seq<Byte>, data: seq<Byte>)
    requires |b| < BLOCK <= |b| + |data|
    ensures b + data[..BLOCK - |b|] == (b + data)[..BLOCK]
    ensures Compress(s, (b + data)[..BLOCK]) == Hash(s, (b + data)[..BLOCK])
  {
    hide Compress, Hash;
    Cut(b, data, BLOCK - |b|);
    HashOne(s, (b + data)[..BLOCK]);
  }

  lemma HashOne(s: Vars, f: seq<Byte>)
    requires |f| == BLOCK
    ensures Hash(s, f) == Compress(s, f)
  {
    hide Compress;
    assert f[..BLOCK] == f && |f[BLOCK..]| == 0;
  }

  lemma HashFew(s: Vars, p: seq<Byte>)
    requires |p| < BLOCK
    ensures Hash(s, p) == s && Tail(p) == p
  {
    hide Compress;
    assert p[0..] == p;
  }

  lemma Cut(b: seq<Byte>, data: seq<Byte>, i: nat)
    requires i <= |data|
    ensures (b + data)[..|b| + i] == b + data[..i] && (b + data)[|b| + i..] == data[i..]
  {
  }

  // ... one block more, from byte `i` of the data on, ...
  lemma NextPart(s: Vars, b: seq<Byte>, data: seq<Byte>, i: nat)
    requires (|b| + i) % BLOCK == 0 && i + BLOCK <= |data|
    ensures var p, k := b + data, |b| + i;
            Compress(Hash(s, p[..k]), data[i..i + BLOCK]) == Hash(s, p[..k + BLOCK])
  {
    hide Compress, Hash;
    var p, k := b + data, |b| + i;
    Cut(b, data, i);
    Cut(b, data, i + BLOCK);
    HashBlock(s, p[..k], data[i..i + BLOCK]);
    assert data[..i + BLOCK] == data[..i] + data[i..i + BLOCK];
    assert b + (data[..i] + data[i..i + BLOCK]) == (b + data[..i]) + data[i..i + BLOCK];
  }

  // ... and what is left.
  lemma LastPart(s: Vars, b: seq<Byte>, data: seq<Byte>, i: nat)
    requires (|b| + i) % BLOCK == 0 && i <= |data| < i + BLOCK
    ensures Hash(s, b + data) == Hash(s, (b + data)[..|b| + i]) && Tail(b + data) == data[i..]
  {
    hide Compress, Hash;
    var p := b + data;
    Cut(b, data, i);
    HashPart(s, p[..|b| + i], data[i..]);
    assert p == p[..|b| + i] + p[|b| + i..];
  }

  lemma TailLength(m: seq<Byte>)
    ensures |Tail(m)| == |m| % BLOCK
  {
  }

  lemma LengthOf(m: seq<Byte>, x: seq<Byte>)
    ensures |m + x| % BLOCK == |Tail(m) + x| % BLOCK
  {
    TailLength(m);
    Division(|m|, BLOCK);
    SameRemainder(|m| + |x|, |m| % BLOCK + |x|, BLOCK, |m| / BLOCK);
  }
}
