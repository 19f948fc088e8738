/** The SHA-1 of the C library: a sixteen word window that is overwritten as it goes, working
    variables that change roles instead of values, and a message that arrives in pieces. */
module Sha1 {
  import opened Sha1Spec

  // ----- One block --------------------------------------------------------------------

  // A word as it lies in memory, the least significant byte first.
  function LittleEndian(b0: Byte, b1: Byte, b2: Byte, b3: Byte): Word {
    (b0 as Word) | ((b1 as Word) << 8) | ((b2 as Word) << 16) | ((b3 as Word) << 24)
  }

  function RawWord(m: seq<Byte>, j: int): Word
    requires |m| == BLOCK && 0 <= j < 16
  {
    LittleEndian(m[4 * j], m[4 * j + 1], m[4 * j + 2], m[4 * j + 3])
  }

  lemma SwapBits(w0: Word, w1: Word, w2: Word, w3: Word)
    requires w0 <= 255 && w1 <= 255 && w2 <= 255 && w3 <= 255
    ensures var l := w0 | (w1 << 8) | (w2 << 16) | (w3 << 24);
            (((l << 24) | (l >> 8)) & 0xFF00_FF00) | (((l << 8) | (l >> 24)) & 0x00FF_00FF)
            == (w0 << 24) | (w1 << 16) | (w2 << 8) | w3
  {
  }

  lemma ByteBound(b: Byte)
    ensures b as Word <= 255
  {
  }

  lemma Swapped(b0: Byte, b1: Byte, b2: Byte, b3: Byte)
    ensures var l := LittleEndian(b0, b1, b2, b3);
            Swap(l) == BigEndian(b0, b1, b2, b3)
  {
    ByteBound(b0);
    ByteBound(b1);
    ByteBound(b2);
    ByteBound(b3);
    SwapBits(b0 as Word, b1 as Word, b2 as Word, b3 as Word);
  }

  // The choice and the majority as the macros compute them.
  function FastCh(x: Word, y: Word, z: Word): Word { (x & (y ^ z)) ^ z }

  lemma ChBits(x: Word, y: Word, z: Word)
    ensures (x & (y ^ z)) ^ z == (x & y) ^ (!x & z)
  {
  }

  lemma FastChIs(x: Word, y: Word, z: Word)
    ensures FastCh(x, y, z) == Ch(x, y, z)
  {
    ChBits(x, y, z);
  }

  function FastMaj(x: Word, y: Word, z: Word): Word { ((x | y) & z) | (x & y) }

  lemma MajBits(x: Word, y: Word, z: Word)
    ensures ((x | y) & z) | (x & y) == (x & y) ^ (x & z) ^ (y & z)
  {
  }

  lemma FastMajIs(x: Word, y: Word, z: Word)
    ensures FastMaj(x, y, z) == Maj(x, y, z)
  {
    MajBits(x, y, z);
  }

  function Swap(l: Word): Word { (Rotl(l, 24) & 0xFF00_FF00) | (Rotl(l, 8) & 0x00FF_00FF) }

  /** Before round `t` the window holds the last sixteen words of the schedule, or, early on,
      those words made so far and the rest of the block as it lies in memory. */
  ghost predicate Slot(l: seq<Word>, m: seq<Byte>, t: nat, j: int)
    requires |l| == 16 && |m| == BLOCK && 0 <= j < 16
  {
    if t <= j then l[j] == RawWord(m, j) else l[j] == W(m, Latest(t, j))
  }

  /** The last round before `t` that used slot `j`. */
  function Latest(t: int, j: int): (r: int)
    requires 0 <= j < 16 && j < t
    ensures 0 <= r < t && r % 16 == j && t <= r + 16
  {
    t - 1 - (t - 1 - j) % 16
  }

  lemma LatestIs(t: int, j: int, r: int)
    requires 0 <= j < 16 && j < t && 0 <= r < t && r % 16 == j && t <= r + 16
    ensures Latest(t, j) == r
  {
  }

  ghost predicate Window(l: seq<Word>, m: seq<Byte>, t: nat) {
    |l| == 16 && |m| == BLOCK && forall j {:trigger Slot(l, m, t, j)} | 0 <= j < 16 :: Slot(l, m, t, j)
  }

  lemma SlotMoves(l: seq<Word>, m: seq<Byte>, t: nat, j: int)
    requires |l| == 16 && |m| == BLOCK && 0 <= j < 16 && Slot(l, m, t, j)
    ensures Slot(l[t % 16 := W(m, t)], m, t + 1, j)
  {
    hide W, RawWord, Latest;
    if j == t % 16 {
      assert j <= t;
      LatestIs(t + 1, j, t);
    } else if j < t {
      var r := Latest(t, j);
      assert r + 16 != t by { assert (r + 16) % 16 == r % 16; }
      LatestIs(t + 1, j, r);
    } else {
      assert t % 16 == t;
    }
  }

  /** The window moves on by one word. */
  lemma WindowMoves(l: seq<Word>, m: seq<Byte>, t: nat)
    requires Window(l, m, t)
    ensures Window(l[t % 16 := W(m, t)], m, t + 1)
  {
    hide W, RawWord;
    var l' := l[t % 16 := W(m, t)];
    forall j {:trigger Slot(l', m, t + 1, j)} | 0 <= j < 16 ensures Slot(l', m, t + 1, j) {
      SlotMoves(l, m, t, j);
    }
  }

  lemma WindowRaw(l: seq<Word>, m: seq<Byte>, t: nat)
    requires Window(l, m, t) && t < 16
    ensures l[t] == RawWord(m, t)
  {
    assert Slot(l, m, t, t);
  }

  /** The word made `back` rounds ago is still in the window. */
  lemma WindowRecent(l: seq<Word>, m: seq<Byte>, t: nat, back: int)
    requires Window(l, m, t) && 16 <= t && 1 <= back <= 16
    ensures l[(t - back) % 16] == W(m, t - back)
  {
    hide W, RawWord;
    assert Slot(l, m, t, (t - back) % 16);
    LatestIs(t, (t - back) % 16, t - back);
  }

  lemma FirstWindow(l: seq<Word>, m: seq<Byte>)
    requires |m| == BLOCK && |l| == 16 && forall j | 0 <= j < 16 :: l[j] == RawWord(m, j)
    ensures Window(l, m, 0)
  {
  }

  /** blk0: the word of the block is put into its big-endian order. */
  method Blk0(block: array<Word>, i: nat, ghost m: seq<Byte>) returns (w: Word)
    requires Window(block[..], m, i) && i < 16
    modifies block
    ensures w == W(m, i) && Window(block[..], m, i + 1)
  {
    hide W, RawWord, Slot, Swap, Window;
    WindowLength(block[..], m, i);
    ghost var l := block[..];
    WindowRaw(l, m, i);
    SwappedWord(m, i);
    WindowMoves(l, m, i);
    block[i] := Swap(block[i]);
    w := block[i];
    assert block[..] == l[i := w];
  }

  lemma SwappedWord(m: seq<Byte>, i: nat)
    requires |m| == BLOCK && i < 16
    ensures Swap(RawWord(m, i)) == W(m, i)
  {
    hide Swap, BigEndian, LittleEndian, Rotl;
    Swapped(m[4 * i], m[4 * i + 1], m[4 * i + 2], m[4 * i + 3]);
  }

  /** blk: the next word of the schedule takes the place of the one sixteen before it. */
  method Blk(block: array<Word>, i: nat, ghost m: seq<Byte>) returns (w: Word)
    requires Window(block[..], m, i) && 16 <= i
    modifies block
    ensures w == W(m, i) && Window(block[..], m, i + 1)
  {
    hide W, RawWord, Slot, Expand, Window;
    WindowLength(block[..], m, i);
    ghost var l := block[..];
    WindowRecent(l, m, i, 3);
    WindowRecent(l, m, i, 8);
    WindowRecent(l, m, i, 14);
    WindowRecent(l, m, i, 16);
    WindowMoves(l, m, i);
    NextWord(m, i);
    block[i % 16] := Expand(block[(i + 13) % 16], block[(i + 8) % 16], block[(i + 2) % 16], block[i % 16]);
    w := block[i % 16];
    assert block[..] == l[i % 16 := w];
  }

  lemma NextWord(m: seq<Byte>, i: nat)
    requires |m| == BLOCK && 16 <= i
    ensures W(m, i) == Expand(W(m, i - 3), W(m, i - 8), W(m, i - 14), W(m, i - 16))
    ensures (i + 13) % 16 == (i - 3) % 16 && (i + 8) % 16 == (i - 8) % 16
    ensures (i + 2) % 16 == (i - 14) % 16 && i % 16 == (i - 16) % 16
  {
    hide Expand;
    NextTurn(i - 3);
    NextTurn(i - 8);
    NextTurn(i - 14);
    NextTurn(i - 16);
  }

  lemma NextTurn(x: int)
    ensures (x + 16) % 16 == x % 16
  {
  }

  lemma WindowLength(l: seq<Word>, m: seq<Byte>, t: nat)
    requires Window(l, m, t)
    ensures |l| == 16 && |m| == BLOCK
  {
  }

  /** `t` rounds are done: the variables, read in their present roles, and the window. */
  ghost predicate Done(block: array<Word>, s: Vars, m: seq<Byte>, v: Vars, t: nat)
    reads block
  {
    |m| == BLOCK && Window(block[..], m, t) && v == Rounds(s, m, t)
  }

  lemma RoundDone(s: Vars, m: seq<Byte>, v: Vars, t: nat, f: Word, k: Word)
    requires |m| == BLOCK && v == Rounds(s, m, t) && f == F(t, v.b, v.c, v.d) && k == K(t)
    ensures Rounds(s, m, t + 1)
            == Vars(Sum(v.e, f, W(m, t), k, Rotl(v.a, 5)), v.a, Rotl(v.b, 30), v.c, v.d)
  {
    hide W, Rounds, Sum;
    RoundsStep(s, m, t);
    StepSum(v, t, W(m, t));
  }

  lemma RoundsStep(s: Vars, m: seq<Byte>, t: nat)
    requires |m| == BLOCK
    ensures Rounds(s, m, t + 1) == Step(Rounds(s, m, t), t, W(m, t))
  {
  }

  lemma StepSum(v: Vars, t: int, w: Word)
    ensures Step(v, t, w)
            == Vars(Sum(v.e, F(t, v.b, v.c, v.d), w, K(t), Rotl(v.a, 5)), v.a, Rotl(v.b, 30), v.c, v.d)
  {
    hide F, K, Rotl, Sum;
  }

  method R0(block: array<Word>, ghost s: Vars, ghost m: seq<Byte>,
            v: Word, w: Word, x: Word, y: Word, z: Word, i: nat)
    returns (z': Word, w': Word)
    requires Done(block, s, m, Vars(v, w, x, y, z), i) && i < 16
    modifies block
    ensures Done(block, s, m, Vars(z', v, w', x, y), i + 1)
  {
    hide W, Window, Rounds, Rotl, Sum, FastCh, FastMaj, Ch, Maj, Parity, Plus;
    FastChIs(w, x, y);
    RoundDone(s, m, Vars(v, w, x, y, z), i, FastCh(w, x, y), 0x5A82_7999);
    var word := Blk0(block, i, m);
    z' := Sum(z, FastCh(w, x, y), word, 0x5A82_7999, Rotl(v, 5));
    w' := Rotl(w, 30);
  }

  method R1(block: array<Word>, ghost s: Vars, ghost m: seq<Byte>,
            v: Word, w: Word, x: Word, y: Word, z: Word, i: nat)
    returns (z': Word, w': Word)
    requires Done(block, s, m, Vars(v, w, x, y, z), i) && 16 <= i < 20
    modifies block
    ensures Done(block, s, m, Vars(z', v, w', x, y), i + 1)
  {
    hide W, Window, Rounds, Rotl, Sum, FastCh, FastMaj, Ch, Maj, Parity, Plus;
    FastChIs(w, x, y);
    RoundDone(s, m, Vars(v, w, x, y, z), i, FastCh(w, x, y), 0x5A82_7999);
    var word := Blk(block, i, m);
    z' := Sum(z, FastCh(w, x, y), word, 0x5A82_7999, Rotl(v, 5));
    w' := Rotl(w, 30);
  }

  method R2(block: array<Word>, ghost s: Vars, ghost m: seq<Byte>,
            v: Word, w: Word, x: Word, y: Word, z: Word, i: nat)
    returns (z': Word, w': Word)
    requires Done(block, s, m, Vars(v, w, x, y, z), i) && 20 <= i < 40
    modifies block
    ensures Done(block, s, m, Vars(z', v, w', x, y), i + 1)
  {
    hide W, Window, Rounds, Rotl, Sum, FastCh, FastMaj, Ch, Maj, Parity, Plus;
    RoundDone(s, m, Vars(v, w, x, y, z), i, Parity(w, x, y), 0x6ED9_EBA1);
    var word := Blk(block, i, m);
    z' := Sum(z, Parity(w, x, y), word, 0x6ED9_EBA1, Rotl(v, 5));
    w' := Rotl(w, 30);
  }

  method R3(block: array<Word>, ghost s: Vars, ghost m: seq<Byte>,
            v: Word, w: Word, x: Word, y: Word, z: Word, i: nat)
    returns (z': Word, w': Word)
    requires Done(block, s, m, Vars(v, w, x, y, z), i) && 40 <= i < 60
    modifies block
    ensures Done(block, s, m, Vars(z', v, w', x, y), i + 1)
  {
    hide W, Window, Rounds, Rotl, Sum, FastCh, FastMaj, Ch, Maj, Parity, Plus;
    FastMajIs(w, x, y);
    RoundDone(s, m, Vars(v, w, x, y, z), i, FastMaj(w, x, y), 0x8F1B_BCDC);
    var word := Blk(block, i, m);
    z' := Sum(z, FastMaj(w, x, y), word, 0x8F1B_BCDC, Rotl(v, 5));
    w' := Rotl(w, 30);
  }

  method R4(block: array<Word>, ghost s: Vars, ghost m: seq<Byte>,
            v: Word, w: Word, x: Word, y: Word, z: Word, i: nat)
    returns (z': Word, w': Word)
    requires Done(block, s, m, Vars(v, w, x, y, z), i) && 60 <= i < 80
    modifies block
    ensures Done(block, s, m, Vars(z', v, w', x, y), i + 1)
  {
    hide W, Window, Rounds, Rotl, Sum, FastCh, FastMaj, Ch, Maj, Parity, Plus;
    RoundDone(s, m, Vars(v, w, x, y, z), i, Parity(w, x, y), 0xCA62_C1D6);
    var word := Blk(block, i, m);
    z' := Sum(z, Parity(w, x, y), word, 0xCA62_C1D6, Rotl(v, 5));
    w' := Rotl(w, 30);
  }

  method Rounds0(block: array<Word>, ghost s: Vars, ghost m: seq<Byte>, v: Vars) returns (r: Vars)
    requires Done(block, s, m, v, 0)
    modifies block
    ensures Done(block, s, m, r, 20)
  {
    hide Done;
    var Vars(a, b, c, d, e) := v;
    e, b := R0(block, s, m, a, b, c, d, e, 0);
    d, a := R0(block, s, m, e, a, b, c, d, 1);
    c, e := R0(block, s, m, d, e, a, b, c, 2);
    b, d := R0(block, s, m, c, d, e, a, b, 3);
    a, c := R0(block, s, m, b, c, d, e, a, 4);
    e, b := R0(block, s, m, a, b, c, d, e, 5);
    d, a := R0(block, s, m, e, a, b, c, d, 6);
    c, e := R0(block, s, m, d, e, a, b, c, 7);
    b, d := R0(block, s, m, c, d, e, a, b, 8);
    a, c := R0(block, s, m, b, c, d, e, a, 9);
    e, b := R0(block, s, m, a, b, c, d, e, 10);
    d, a := R0(block, s, m, e, a, b, c, d, 11);
    c, e := R0(block, s, m, d, e, a, b, c, 12);
    b, d := R0(block, s, m, c, d, e, a, b, 13);
    a, c := R0(block, s, m, b, c, d, e, a, 14);
    e, b := R0(block, s, m, a, b, c, d, e, 15);
    d, a := R1(block, s, m, e, a, b, c, d, 16);
    c, e := R1(block, s, m, d, e, a, b, c, 17);
    b, d := R1(block, s, m, c, d, e, a, b, 18);
    a, c := R1(block, s, m, b, c, d, e, a, 19);
    r := Vars(a, b, c, d, e);
  }

  method Rounds20(block: array<Word>, ghost s: Vars, ghost m: seq<Byte>, v: Vars) returns (r: Vars)
    requires Done(block, s, m, v, 20)
    modifies block
    ensures Done(block, s, m, r, 40)
  {
    hide Done;
    var Vars(a, b, c, d, e) := v;
    e, b := R2(block, s, m, a, b, c, d, e, 20);
    d, a := R2(block, s, m, e, a, b, c, d, 21);
    c, e := R2(block, s, m, d, e, a, b, c, 22);
    b, d := R2(block, s, m, c, d, e, a, b, 23);
    a, c := R2(block, s, m, b, c, d, e, a, 24);
    e, b := R2(block, s, m, a, b, c, d, e, 25);
    d, a := R2(block, s, m, e, a, b, c, d, 26);
    c, e := R2(block, s, m, d, e, a, b, c, 27);
    b, d := R2(block, s, m, c, d, e, a, b, 28);
    a, c := R2(block, s, m, b, c, d, e, a, 29);
    e, b := R2(block, s, m, a, b, c, d, e, 30);
    d, a := R2(block, s, m, e, a, b, c, d, 31);
    c, e := R2(block, s, m, d, e, a, b, c, 32);
    b, d := R2(block, s, m, c, d, e, a, b, 33);
    a, c := R2(block, s, m, b, c, d, e, a, 34);
    e, b := R2(block, s, m, a, b, c, d, e, 35);
    d, a := R2(block, s, m, e, a, b, c, d, 36);
    c, e := R2(block, s, m, d, e, a, b, c, 37);
    b, d := R2(block, s, m, c, d, e, a, b, 38);
    a, c := R2(block, s, m, b, c, d, e, a, 39);
    r := Vars(a, b, c, d, e);
  }

  method Rounds40(block: array<Word>, ghost s: Vars, ghost m: seq<Byte>, v: Vars) returns (r: Vars)
    requires Done(block, s, m, v, 40)
    modifies block
    ensures Done(block, s, m, r, 60)
  {
    hide Done;
    var Vars(a, b, c, d, e) := v;
    e, b := R3(block, s, m, a, b, c, d, e, 40);
    d, a := R3(block, s, m, e, a, b, c, d, 41);
    c, e := R3(block, s, m, d, e, a, b, c, 42);
    b, d := R3(block, s, m, c, d, e, a, b, 43);
    a, c := R3(block, s, m, b, c, d, e, a, 44);
    e, b := R3(block, s, m, a, b, c, d, e, 45);
    d, a := R3(block, s, m, e, a, b, c, d, 46);
    c, e := R3(block, s, m, d, e, a, b, c, 47);
    b, d := R3(block, s, m, c, d, e, a, b, 48);
    a, c := R3(block, s, m, b, c, d, e, a, 49);
    e, b := R3(block, s, m, a, b, c, d, e, 50);
    d, a := R3(block, s, m, e, a, b, c, d, 51);
    c, e := R3(block, s, m, d, e, a, b, c, 52);
    b, d := R3(block, s, m, c, d, e, a, b, 53);
    a, c := R3(block, s, m, b, c, d, e, a, 54);
    e, b := R3(block, s, m, a, b, c, d, e, 55);
    d, a := R3(block, s, m, e, a, b, c, d, 56);
    c, e := R3(block, s, m, d, e, a, b, c, 57);
    b, d := R3(block, s, m, c, d, e, a, b, 58);
    a, c := R3(block, s, m, b, c, d, e, a, 59);
    r := Vars(a, b, c, d, e);
  }

  method Rounds60(block: array<Word>, ghost s: Vars, ghost m: seq<Byte>, v: Vars) returns (r: Vars)
    requires Done(block, s, m, v, 60)
    modifies block
    ensures Done(block, s, m, r, 80)
  {
    hide Done;
    var Vars(a, b, c, d, e) := v;
    e, b := R4(block, s, m, a, b, c, d, e, 60);
    d, a := R4(block, s, m, e, a, b, c, d, 61);
    c, e := R4(block, s, m, d, e, a, b, c, 62);
    b, d := R4(block, s, m, c, d, e, a, b, 63);
    a, c := R4(block, s, m, b, c, d, e, a, 64);
    e, b := R4(block, s, m, a, b, c, d, e, 65);
    d, a := R4(block, s, m, e, a, b, c, d, 66);
    c, e := R4(block, s, m, d, e, a, b, c, 67);
    b, d := R4(block, s, m, c, d, e, a, b, 68);
    a, c := R4(block, s, m, b, c, d, e, a, 69);
    e, b := R4(block, s, m, a, b, c, d, e, 70);
    d, a := R4(block, s, m, e, a, b, c, d, 71);
    c, e := R4(block, s, m, d, e, a, b, c, 72);
    b, d := R4(block, s, m, c, d, e, a, b, 73);
    a, c := R4(block, s, m, b, c, d, e, a, 74);
    e, b := R4(block, s, m, a, b, c, d, e, 75);
    d, a := R4(block, s, m, e, a, b, c, d, 76);
    c, e := R4(block, s, m, d, e, a, b, c, 77);
    b, d := R4(block, s, m, c, d, e, a, b, 78);
    a, c := R4(block, s, m, b, c, d, e, a, 79);
    r := Vars(a, b, c, d, e);
  }

  /** The words of `m` as they lie in memory. */
  method Load(m: seq<Byte>) returns (block: array<Word>)
    requires |m| == BLOCK
    ensures fresh(block) && Window(block[..], m, 0)
  {
    hide W;
    block := new Word[16](j requires 0 <= j < 16 => RawWord(m, j));
    FirstWindow(block[..], m);
  }

  method Transform(state: Vars, buffer: seq<Byte>) returns (next: Vars)
    requires |buffer| == BLOCK
    ensures next == Compress(state, buffer)
  {
    hide Window, Rounds, W, Add;
    var block := Load(buffer);
    NoRounds(state, buffer);
    var v := Rounds0(block, state, buffer, state);
    v := Rounds20(block, state, buffer, v);
    v := Rounds40(block, state, buffer, v);
    v := Rounds60(block, state, buffer, v);
    next := AddBack(state, v);
  }

  method AddBack(state: Vars, v: Vars) returns (next: Vars)
    ensures next == Add(state, v)
  {
    hide Plus;
    next := Vars(Plus(state.a, v.a), Plus(state.b, v.b), Plus(state.c, v.c), Plus(state.d, v.d), Plus(state.e, v.e));
  }

  lemma NoRounds(s: Vars, m: seq<Byte>)
    requires |m| == BLOCK
    ensures Rounds(s, m, 0) == s
  {
  }
}
