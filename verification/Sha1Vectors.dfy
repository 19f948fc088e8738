/** The published examples of SHA-1, for a message of one block and one of two: what the
    specification computes, step by step.  A block is followed through its schedule, sixteen
    words at a time, and then through its rounds, sixteen at a time, with the first of the five
    variables after each. */
module Sha1Vectors {
  import opened Sha1Spec

  type Block = m: seq<Byte> | |m| == BLOCK witness seq(64, i => 0)

  /** Eight words of the message schedule, from word `t` on. */
  predicate Words(m: Block, t: nat, w0: Word, w1: Word, w2: Word, w3: Word, w4: Word, w5: Word, w6: Word, w7: Word) {
    && W(m, t) == w0 && W(m, t + 1) == w1 && W(m, t + 2) == w2 && W(m, t + 3) == w3
    && W(m, t + 4) == w4 && W(m, t + 5) == w5 && W(m, t + 6) == w6 && W(m, t + 7) == w7
  }

  // ----- The block of "abc" ----------------------------------------------------------------

  predicate AbcWords0(m: Block) {
    Words(m, 0, 0x61626380, 0x00000000, 0x00000000, 0x00000000, 0x00000000, 0x00000000, 0x00000000, 0x00000000) &&
    Words(m, 8, 0x00000000, 0x00000000, 0x00000000, 0x00000000, 0x00000000, 0x00000000, 0x00000000, 0x00000018)
  }

  predicate AbcWords1(m: Block) {
    Words(m, 16, 0xc2c4c700, 0x00000000, 0x00000030, 0x85898e01, 0x00000000, 0x00000060, 0x0b131c03, 0x00000030) &&
    Words(m, 24, 0x85898ec1, 0x16263806, 0x00000000, 0x00000180, 0x2c4c700c, 0x000000f0, 0x93afb507, 0x5898e048)
  }

  lemma AbcSchedule1(m: Block)
    requires AbcWords0(m)
    ensures AbcWords1(m)
  {
  }

  predicate AbcWords2(m: Block) {
    Words(m, 32, 0x8e9a9202, 0x00000600, 0xb131c0f0, 0x16263bc6, 0x4ebed41e, 0x626380a1, 0x16263806, 0x000018c0) &&
    Words(m, 40, 0xd2e138c4, 0x00000f00, 0x3afb5079, 0x898e04e5, 0xe2ba3c2b, 0x000060c0, 0x053a37cd, 0x74458547)
  }

  lemma AbcSchedule2(m: Block)
    requires AbcWords1(m)
    ensures AbcWords2(m)
  {
  }

  predicate AbcWords3(m: Block) {
    Words(m, 48, 0xda9415ed, 0x26380a16, 0x626383a1, 0x4ebf54de, 0x3835b44b, 0x0000f600, 0x1e84c7a3, 0x98e04d98) &&
    Words(m, 56, 0x651d16a0, 0x62658ca1, 0x458544d6, 0x44584cb7, 0x7ba06619, 0x6380aea2, 0x0ae55269, 0x627b49a1)
  }

  lemma AbcSchedule3(m: Block)
    requires AbcWords2(m)
    ensures AbcWords3(m)
  {
  }

  predicate AbcWords4(m: Block) {
    Words(m, 64, 0x7cd45c9d, 0x000f0000, 0xfb50753a, 0xec6765e8, 0xba3c2be2, 0x0060c000, 0x3a37cd05, 0x458546f4) &&
    Words(m, 72, 0xb8599dd6, 0x380a1a26, 0x01e02203, 0xe7cc3456, 0xe6e60b69, 0x00f60a00, 0x5795ef4f, 0x822e0879)
  }

  lemma AbcSchedule4(m: Block)
    requires AbcWords3(m)
    ensures AbcWords4(m)
  {
  }

  lemma AbcRounds0(s: Vars, m: Block)
    requires AbcWords0(m)
    requires Rounds(s, m, 0) == Vars(0x67452301, 0xefcdab89, 0x98badcfe, 0x10325476, 0xc3d2e1f0)
    ensures Rounds(s, m, 16) == Vars(0x20bdd62f, 0x196bee77, 0x644a3da5, 0x1181ed99, 0x18c623f9)
  {
    assert Rounds(s, m, 1).a == 0x0116fc33 && Rounds(s, m, 2).a == 0x8990536d && Rounds(s, m, 3).a == 0xa1390f08;
    assert Rounds(s, m, 4).a == 0xcdd8e11b && Rounds(s, m, 5).a == 0xcfd499de && Rounds(s, m, 6).a == 0x3fc7ca40;
    assert Rounds(s, m, 7).a == 0x993e30c1 && Rounds(s, m, 8).a == 0x9e8c07d4 && Rounds(s, m, 9).a == 0x4b6ae328;
    assert Rounds(s, m, 10).a == 0x8351f929 && Rounds(s, m, 11).a == 0xfbda9e89 && Rounds(s, m, 12).a == 0x63188fe4;
    assert Rounds(s, m, 13).a == 0x4607b664 && Rounds(s, m, 14).a == 0x9128f695 && Rounds(s, m, 15).a == 0x196bee77;
  }

  lemma AbcRounds1(s: Vars, m: Block)
    requires AbcWords1(m)
    requires Rounds(s, m, 16) == Vars(0x20bdd62f, 0x196bee77, 0x644a3da5, 0x1181ed99, 0x18c623f9)
    ensures Rounds(s, m, 32) == Vars(0x3b845d33, 0x1267b407, 0x717eebd7, 0xa0dc2d4b, 0xd2aa1365)
  {
    assert Rounds(s, m, 17).a == 0x4e925823 && Rounds(s, m, 18).a == 0x82aa6728 && Rounds(s, m, 19).a == 0xdc64901d;
    assert Rounds(s, m, 20).a == 0xfd9e1d7d && Rounds(s, m, 21).a == 0x1a37b0ca && Rounds(s, m, 22).a == 0x33a23bfc;
    assert Rounds(s, m, 23).a == 0x21283486 && Rounds(s, m, 24).a == 0xd541f12d && Rounds(s, m, 25).a == 0xc7567dc6;
    assert Rounds(s, m, 26).a == 0x48413ba4 && Rounds(s, m, 27).a == 0xbe35fbd5 && Rounds(s, m, 28).a == 0x4aa84d97;
    assert Rounds(s, m, 29).a == 0x8370b52e && Rounds(s, m, 30).a == 0xc5fbaf5d && Rounds(s, m, 31).a == 0x1267b407;
  }

  lemma AbcRounds2(s: Vars, m: Block)
    requires AbcWords2(m)
    requires Rounds(s, m, 32) == Vars(0x3b845d33, 0x1267b407, 0x717eebd7, 0xa0dc2d4b, 0xd2aa1365)
    ensures Rounds(s, m, 48) == Vars(0xbead02ca, 0xa01b846c, 0x8714787c, 0x503ca382, 0xfb86c6ab)
  {
    assert Rounds(s, m, 33).a == 0x046faa0a && Rounds(s, m, 34).a == 0x2c0ebc11 && Rounds(s, m, 35).a == 0x21796ad4;
    assert Rounds(s, m, 36).a == 0xdcbbb0cb && Rounds(s, m, 37).a == 0x0f511fd8 && Rounds(s, m, 38).a == 0xdc63973f;
    assert Rounds(s, m, 39).a == 0x4c986405 && Rounds(s, m, 40).a == 0x32de1cba && Rounds(s, m, 41).a == 0xfc87dedf;
    assert Rounds(s, m, 42).a == 0x970a0d5c && Rounds(s, m, 43).a == 0x7f193dc5 && Rounds(s, m, 44).a == 0xee1b1aaf;
    assert Rounds(s, m, 45).a == 0x40f28e09 && Rounds(s, m, 46).a == 0x1c51e1f2 && Rounds(s, m, 47).a == 0xa01b846c;
  }

  lemma AbcRounds3(s: Vars, m: Block)
    requires AbcWords3(m)
    requires Rounds(s, m, 48) == Vars(0xbead02ca, 0xa01b846c, 0x8714787c, 0x503ca382, 0xfb86c6ab)
    ensures Rounds(s, m, 64) == Vars(0x6b61c9e1, 0xb66c020b, 0x9523272c, 0xf5d5b051, 0x8fd4b796)
  {
    assert Rounds(s, m, 49).a == 0xbaf39337 && Rounds(s, m, 50).a == 0x120731c5 && Rounds(s, m, 51).a == 0x641db2ce;
    assert Rounds(s, m, 52).a == 0x3847ad66 && Rounds(s, m, 53).a == 0xe490436d && Rounds(s, m, 54).a == 0x27e9f1d8;
    assert Rounds(s, m, 55).a == 0x7b71f76d && Rounds(s, m, 56).a == 0x5e6456af && Rounds(s, m, 57).a == 0xc846093f;
    assert Rounds(s, m, 58).a == 0xd262ff50 && Rounds(s, m, 59).a == 0x09d785fd && Rounds(s, m, 60).a == 0x3f52de5a;
    assert Rounds(s, m, 61).a == 0xd756c147 && Rounds(s, m, 62).a == 0x548c9cb2 && Rounds(s, m, 63).a == 0xb66c020b;
  }

  lemma AbcRounds4(s: Vars, m: Block)
    requires AbcWords4(m)
    requires Rounds(s, m, 64) == Vars(0x6b61c9e1, 0xb66c020b, 0x9523272c, 0xf5d5b051, 0x8fd4b796)
    ensures Rounds(s, m, 80) == Vars(0x42541b35, 0x5738d5e1, 0x21834873, 0x681e6df6, 0xd8fdf6ad)
  {
    assert Rounds(s, m, 65).a == 0x19dfa7ac && Rounds(s, m, 66).a == 0x101655f9 && Rounds(s, m, 67).a == 0x0c3df2b4;
    assert Rounds(s, m, 68).a == 0x78dd4d2b && Rounds(s, m, 69).a == 0x497093c0 && Rounds(s, m, 70).a == 0x3f2588c2;
    assert Rounds(s, m, 71).a == 0xc199f8c7 && Rounds(s, m, 72).a == 0x39859de7 && Rounds(s, m, 73).a == 0xedb42de4;
    assert Rounds(s, m, 74).a == 0x11793f6f && Rounds(s, m, 75).a == 0x5ee76897 && Rounds(s, m, 76).a == 0x63f7dab7;
    assert Rounds(s, m, 77).a == 0xa079b7d9 && Rounds(s, m, 78).a == 0x860d21cc && Rounds(s, m, 79).a == 0x5738d5e1;
  }

  lemma AbcCompress(m: Block)
    requires AbcWords0(m)
    ensures Compress(Vars(0x67452301, 0xefcdab89, 0x98badcfe, 0x10325476, 0xc3d2e1f0), m)
            == Vars(0xa9993e36, 0x4706816a, 0xba3e2571, 0x7850c26c, 0x9cd0d89d)
  {
    hide AbcWords0, AbcWords1, AbcWords2, AbcWords3, AbcWords4, W;
    var s := Vars(0x67452301, 0xefcdab89, 0x98badcfe, 0x10325476, 0xc3d2e1f0);
    AbcSchedule1(m);
    AbcSchedule2(m);
    AbcSchedule3(m);
    AbcSchedule4(m);
    AbcRounds0(s, m);
    AbcRounds1(s, m);
    AbcRounds2(s, m);
    AbcRounds3(s, m);
    AbcRounds4(s, m);
  }

  // ----- The two blocks of a message of 56 bytes -------------------------------------------

  predicate FirstWords0(m: Block) {
    Words(m, 0, 0x61626364, 0x62636465, 0x63646566, 0x64656667, 0x65666768, 0x66676869, 0x6768696a, 0x68696a6b) &&
    Words(m, 8, 0x696a6b6c, 0x6a6b6c6d, 0x6b6c6d6e, 0x6c6d6e6f, 0x6d6e6f70, 0x6e6f7071, 0x80000000, 0x00000000)
  }

  predicate FirstWords1(m: Block) {
    Words(m, 16, 0x0a063a3e, 0xd8dadcdf, 0xdadcdec0, 0xc8d2b4be, 0x6f757b5b, 0x757b5967, 0x8da16d70, 0xdaeefaba) &&
    Words(m, 24, 0xfaf6cab6, 0xa6fb675a, 0x0c604cc8, 0x604cc02c, 0x49c0e6e2, 0x2ee8cbbc, 0xcfd72ec4, 0x97e9810e)
  }

  lemma FirstSchedule1(m: Block)
    requires FirstWords0(m)
    ensures FirstWords1(m)
  {
  }

  predicate FirstWords2(m: Block) {
    Words(m, 32, 0x0989cbe8, 0xf24843fe, 0x5c40d0ba, 0xa8d9cc3b, 0xb2b9666e, 0xba7b71b7, 0x20b28a72, 0xb28af500) &&
    Words(m, 40, 0x8ac87842, 0x289addf4, 0x56d51f21, 0xd96b7fd2, 0x3868e778, 0xab5e4848, 0x7f0e2118, 0xde87a111)
  }

  lemma FirstSchedule2(m: Block)
    requires FirstWords1(m)
    ensures FirstWords2(m)
  {
  }

  predicate FirstWords3(m: Block) {
    Words(m, 48, 0xe8be56b0, 0x1a0ae652, 0xcd5611c8, 0x46ef29dc, 0x60d3da6d, 0xddf3ba6e, 0x2737f5e9, 0x4888a710) &&
    Words(m, 56, 0xd2a1177b, 0x9999633b, 0xd6c69d03, 0xccf6127b, 0x7c58fe6d, 0xfdd99c68, 0xf8e32074, 0xe0ba3c7d)
  }

  lemma FirstSchedule3(m: Block)
    requires FirstWords2(m)
    ensures FirstWords3(m)
  {
  }

  predicate FirstWords4(m: Block) {
    Words(m, 64, 0x152198d6, 0x7b3f1982, 0x37f2d5b7, 0x8596323e, 0x810790d6, 0xbea0a942, 0x11c7e1b1, 0x6158d101) &&
    Words(m, 72, 0x5fcd77d9, 0x7f2f12e6, 0xf868cfb1, 0xd6e997e9, 0xf526b852, 0xb7578dcc, 0x55d99df4, 0x1ff69958)
  }

  lemma FirstSchedule4(m: Block)
    requires FirstWords3(m)
    ensures FirstWords4(m)
  {
  }

  lemma FirstRounds0(s: Vars, m: Block)
    requires FirstWords0(m)
    requires Rounds(s, m, 0) == Vars(0x67452301, 0xefcdab89, 0x98badcfe, 0x10325476, 0xc3d2e1f0)
    ensures Rounds(s, m, 16) == Vars(0x42637e39, 0xb2e7a8be, 0x4cbe52a1, 0xa180d207, 0xb867b2a8)
  {
    assert Rounds(s, m, 1).a == 0x0116fc17 && Rounds(s, m, 2).a == 0xebf3b452 && Rounds(s, m, 3).a == 0x5109913a;
    assert Rounds(s, m, 4).a == 0x2c4f6eac && Rounds(s, m, 5).a == 0x33f4ae5b && Rounds(s, m, 6).a == 0x96b85189;
    assert Rounds(s, m, 7).a == 0xdb04cb58 && Rounds(s, m, 8).a == 0x45833f0f && Rounds(s, m, 9).a == 0xc565c35e;
    assert Rounds(s, m, 10).a == 0x6350afda && Rounds(s, m, 11).a == 0x8993ea77 && Rounds(s, m, 12).a == 0xe19ecaa2;
    assert Rounds(s, m, 13).a == 0x8603481e && Rounds(s, m, 14).a == 0x32f94a85 && Rounds(s, m, 15).a == 0xb2e7a8be;
  }

  lemma FirstRounds1(s: Vars, m: Block)
    requires FirstWords1(m)
    requires Rounds(s, m, 16) == Vars(0x42637e39, 0xb2e7a8be, 0x4cbe52a1, 0xa180d207, 0xb867b2a8)
    ensures Rounds(s, m, 32) == Vars(0x52e31f60, 0xa9c84bec, 0x816d15ec, 0x78448908, 0x3549a991)
  {
    assert Rounds(s, m, 17).a == 0x6b068048 && Rounds(s, m, 18).a == 0x426b9c35 && Rounds(s, m, 19).a == 0x944b1bd1;
    assert Rounds(s, m, 20).a == 0x6c445652 && Rounds(s, m, 21).a == 0x95836da5 && Rounds(s, m, 22).a == 0x09511177;
    assert Rounds(s, m, 23).a == 0xe2b92dc4 && Rounds(s, m, 24).a == 0xfd224575 && Rounds(s, m, 25).a == 0xeeb82d9a;
    assert Rounds(s, m, 26).a == 0x5a142c1a && Rounds(s, m, 27).a == 0x2972f7c7 && Rounds(s, m, 28).a == 0xd526a644;
    assert Rounds(s, m, 29).a == 0xe1122421 && Rounds(s, m, 30).a == 0x05b457b2 && Rounds(s, m, 31).a == 0xa9c84bec;
  }

  lemma FirstRounds2(s: Vars, m: Block)
    requires FirstWords2(m)
    requires Rounds(s, m, 32) == Vars(0x52e31f60, 0xa9c84bec, 0x816d15ec, 0x78448908, 0x3549a991)
    ensures Rounds(s, m, 48) == Vars(0xc8a69090, 0xa2ad4f02, 0xb1ba8907, 0x26307a99, 0x58cfa558)
  {
    assert Rounds(s, m, 33).a == 0x5af3242c && Rounds(s, m, 34).a == 0x31c756a9 && Rounds(s, m, 35).a == 0xe9ac987c;
    assert Rounds(s, m, 36).a == 0xab7c32ee && Rounds(s, m, 37).a == 0x5933fc99 && Rounds(s, m, 38).a == 0x43f87ae9;
    assert Rounds(s, m, 39).a == 0x24957f22 && Rounds(s, m, 40).a == 0xadeb7478 && Rounds(s, m, 41).a == 0xd70e5010;
    assert Rounds(s, m, 42).a == 0x79bcfb08 && Rounds(s, m, 43).a == 0xf9bcb8de && Rounds(s, m, 44).a == 0x633e9561;
    assert Rounds(s, m, 45).a == 0x98c1ea64 && Rounds(s, m, 46).a == 0xc6ea241e && Rounds(s, m, 47).a == 0xa2ad4f02;
  }

  lemma FirstRounds3(s: Vars, m: Block)
    requires FirstWords3(m)
    requires Rounds(s, m, 48) == Vars(0xc8a69090, 0xa2ad4f02, 0xb1ba8907, 0x26307a99, 0x58cfa558)
    ensures Rounds(s, m, 64) == Vars(0x513f9ca0, 0x2bfaf7a8, 0x10203537, 0xcd8952c4, 0xe7bddd70)
  {
    assert Rounds(s, m, 49).a == 0x88341600 && Rounds(s, m, 50).a == 0x7e846f58 && Rounds(s, m, 51).a == 0x86e358ba;
    assert Rounds(s, m, 52).a == 0x8d2e76c8 && Rounds(s, m, 53).a == 0xce892e10 && Rounds(s, m, 54).a == 0xedea95b1;
    assert Rounds(s, m, 55).a == 0x36d1230a && Rounds(s, m, 56).a == 0x776c3910 && Rounds(s, m, 57).a == 0xa681b723;
    assert Rounds(s, m, 58).a == 0xac0a794f && Rounds(s, m, 59).a == 0xf03d3782 && Rounds(s, m, 60).a == 0x9ef775c3;
    assert Rounds(s, m, 61).a == 0x36254b13 && Rounds(s, m, 62).a == 0x4080d4dc && Rounds(s, m, 63).a == 0x2bfaf7a8;
  }

  lemma FirstRounds4(s: Vars, m: Block)
    requires FirstWords4(m)
    requires Rounds(s, m, 64) == Vars(0x513f9ca0, 0x2bfaf7a8, 0x10203537, 0xcd8952c4, 0xe7bddd70)
    ensures Rounds(s, m, 80) == Vars(0x8ce34517, 0xd3ad7c25, 0x6b4e1883, 0x74351cd2, 0x86838382)
  {
    assert Rounds(s, m, 65).a == 0xe5895c81 && Rounds(s, m, 66).a == 0x1037d2d5 && Rounds(s, m, 67).a == 0x14a82da9;
    assert Rounds(s, m, 68).a == 0x6d17c9fd && Rounds(s, m, 69).a == 0x2c7b07bd && Rounds(s, m, 70).a == 0xfdf6efff;
    assert Rounds(s, m, 71).a == 0x112b96e3 && Rounds(s, m, 72).a == 0x84065712 && Rounds(s, m, 73).a == 0xab89fb71;
    assert Rounds(s, m, 74).a == 0xc5210e35 && Rounds(s, m, 75).a == 0x352d9f4b && Rounds(s, m, 76).a == 0x1a0e0e0a;
    assert Rounds(s, m, 77).a == 0xd0d47349 && Rounds(s, m, 78).a == 0xad38620d && Rounds(s, m, 79).a == 0xd3ad7c25;
  }

  lemma FirstCompress(m: Block)
    requires FirstWords0(m)
    ensures Compress(Vars(0x67452301, 0xefcdab89, 0x98badcfe, 0x10325476, 0xc3d2e1f0), m)
            == Vars(0xf4286818, 0xc37b27ae, 0x0408f581, 0x84677148, 0x4a566572)
  {
    hide FirstWords0, FirstWords1, FirstWords2, FirstWords3, FirstWords4, W;
    var s := Vars(0x67452301, 0xefcdab89, 0x98badcfe, 0x10325476, 0xc3d2e1f0);
    FirstSchedule1(m);
    FirstSchedule2(m);
    FirstSchedule3(m);
    FirstSchedule4(m);
    FirstRounds0(s, m);
    FirstRounds1(s, m);
    FirstRounds2(s, m);
    FirstRounds3(s, m);
    FirstRounds4(s, m);
  }

  // ----- The second block ------------------------------------------------------------------

  predicate SecondWords0(m: Block) {
    Words(m, 0, 0x00000000, 0x00000000, 0x00000000, 0x00000000, 0x00000000, 0x00000000, 0x00000000, 0x00000000) &&
    Words(m, 8, 0x00000000, 0x00000000, 0x00000000, 0x00000000, 0x00000000, 0x00000000, 0x00000000, 0x000001c0)
  }

  predicate SecondWords1(m: Block) {
    Words(m, 16, 0x00000000, 0x00000000, 0x00000380, 0x00000000, 0x00000000, 0x00000700, 0x00000000, 0x00000380) &&
    Words(m, 24, 0x00000e00, 0x00000000, 0x00000000, 0x00001c00, 0x00000000, 0x00000d80, 0x00003800, 0x00000480)
  }

  lemma SecondSchedule1(m: Block)
    requires SecondWords0(m)
    ensures SecondWords1(m)
  {
  }

  predicate SecondWords2(m: Block) {
    Words(m, 32, 0x00000000, 0x00007000, 0x00000e00, 0x00003600, 0x0000e000, 0x00000e00, 0x00000000, 0x0001ce00) &&
    Words(m, 40, 0x00000000, 0x0000d800, 0x00038000, 0x00004f00, 0x00000000, 0x00070e00, 0x0000ee00, 0x00037500)
  }

  lemma SecondSchedule2(m: Block)
    requires SecondWords1(m)
    ensures SecondWords2(m)
  {
  }

  predicate SecondWords3(m: Block) {
    Words(m, 48, 0x000e0000, 0x0000e000, 0x00003600, 0x001cee00, 0x00000000, 0x000df000, 0x00380000, 0x0004c600) &&
    Words(m, 56, 0x0000e000, 0x0070ee00, 0x000ee000, 0x00369e00, 0x00e00000, 0x000ed600, 0x0000e000, 0x01cea600)
  }

  lemma SecondSchedule3(m: Block)
    requires SecondWords2(m)
    ensures SecondWords3(m)
  {
  }

  predicate SecondWords4(m: Block) {
    Words(m, 64, 0x00000000, 0x00d80000, 0x0380e000, 0x004f0000, 0x00000000, 0x070e0000, 0x00ee0000, 0x03751c00) &&
    Words(m, 72, 0x0e000000, 0x00e0e000, 0x00363800, 0x1cee9000, 0x00000000, 0x0df09000, 0x3800e000, 0x04c77400)
  }

  lemma SecondSchedule4(m: Block)
    requires SecondWords3(m)
    ensures SecondWords4(m)
  {
  }

  lemma SecondRounds0(s: Vars, m: Block)
    requires SecondWords0(m)
    requires Rounds(s, m, 0) == Vars(0xf4286818, 0xc37b27ae, 0x0408f581, 0x84677148, 0x4a566572)
    ensures Rounds(s, m, 16) == Vars(0xd9772360, 0x258b0baa, 0x2898132a, 0xffb35eef, 0xd0e89e4b)
  {
    assert Rounds(s, m, 1).a == 0x2df257e9 && Rounds(s, m, 2).a == 0x4d3dc58f && Rounds(s, m, 3).a == 0xc352bb05;
    assert Rounds(s, m, 4).a == 0xeef743c6 && Rounds(s, m, 5).a == 0x41e34277 && Rounds(s, m, 6).a == 0x5443915c;
    assert Rounds(s, m, 7).a == 0xe7fa0377 && Rounds(s, m, 8).a == 0xc6946813 && Rounds(s, m, 9).a == 0xfdde1de1;
    assert Rounds(s, m, 10).a == 0xb8538aca && Rounds(s, m, 11).a == 0x6ba94f63 && Rounds(s, m, 12).a == 0x43a2792f;
    assert Rounds(s, m, 13).a == 0xfecd7bbf && Rounds(s, m, 14).a == 0xa2604ca8 && Rounds(s, m, 15).a == 0x258b0baa;
  }

  lemma SecondRounds1(s: Vars, m: Block)
    requires SecondWords1(m)
    requires Rounds(s, m, 16) == Vars(0xd9772360, 0x258b0baa, 0x2898132a, 0xffb35eef, 0xd0e89e4b)
    ensures Rounds(s, m, 32) == Vars(0x8a4af384, 0x17986223, 0x028bec42, 0xc90a6f97, 0xd7105b6b)
  {
    assert Rounds(s, m, 17).a == 0x5507db6e && Rounds(s, m, 18).a == 0xa51b58bc && Rounds(s, m, 19).a == 0xc2eb709f;
    assert Rounds(s, m, 20).a == 0xd8992153 && Rounds(s, m, 21).a == 0x37482f5f && Rounds(s, m, 22).a == 0xee8700bd;
    assert Rounds(s, m, 23).a == 0x9ad594b9 && Rounds(s, m, 24).a == 0x8fbaa5b9 && Rounds(s, m, 25).a == 0x88fb5867;
    assert Rounds(s, m, 26).a == 0xeec50521 && Rounds(s, m, 27).a == 0x50bce434 && Rounds(s, m, 28).a == 0x5c416daf;
    assert Rounds(s, m, 29).a == 0x2429be5f && Rounds(s, m, 30).a == 0x0a2fb108 && Rounds(s, m, 31).a == 0x17986223;
  }

  lemma SecondRounds2(s: Vars, m: Block)
    requires SecondWords2(m)
    requires Rounds(s, m, 32) == Vars(0x8a4af384, 0x17986223, 0x028bec42, 0xc90a6f97, 0xd7105b6b)
    ensures Rounds(s, m, 48) == Vars(0x46f93b68, 0x7316056a, 0xb0f40cfa, 0xcf2bb5eb, 0x7b074f58)
  {
    assert Rounds(s, m, 33).a == 0x6b629993 && Rounds(s, m, 34).a == 0xf15f04f3 && Rounds(s, m, 35).a == 0x295cc25b;
    assert Rounds(s, m, 36).a == 0x696da404 && Rounds(s, m, 37).a == 0xcef5ae12 && Rounds(s, m, 38).a == 0x87d5b80c;
    assert Rounds(s, m, 39).a == 0x84e2a5f2 && Rounds(s, m, 40).a == 0x03bb6310 && Rounds(s, m, 41).a == 0xc2d8f75f;
    assert Rounds(s, m, 42).a == 0xbfb25768 && Rounds(s, m, 43).a == 0x28589152 && Rounds(s, m, 44).a == 0xec1d3d61;
    assert Rounds(s, m, 45).a == 0x3caed7af && Rounds(s, m, 46).a == 0xc3d033ea && Rounds(s, m, 47).a == 0x7316056a;
  }

  lemma SecondRounds3(s: Vars, m: Block)
    requires SecondWords3(m)
    requires Rounds(s, m, 48) == Vars(0x46f93b68, 0x7316056a, 0xb0f40cfa, 0xcf2bb5eb, 0x7b074f58)
    ensures Rounds(s, m, 64) == Vars(0xd504902b, 0xf66d9bf4, 0x24d85327, 0xdeaac406, 0xe996063d)
  {
    assert Rounds(s, m, 49).a == 0xdc8e7f26 && Rounds(s, m, 50).a == 0x850d411c && Rounds(s, m, 51).a == 0x7e4672c0;
    assert Rounds(s, m, 52).a == 0x89fbd41d && Rounds(s, m, 53).a == 0x1797e228 && Rounds(s, m, 54).a == 0x431d65bc;
    assert Rounds(s, m, 55).a == 0x2bdbb8cb && Rounds(s, m, 56).a == 0x6da72e7f && Rounds(s, m, 57).a == 0xa8495a9b;
    assert Rounds(s, m, 58).a == 0xe785655a && Rounds(s, m, 59).a == 0x5b086c42 && Rounds(s, m, 60).a == 0xa65818f7;
    assert Rounds(s, m, 61).a == 0x7aab101b && Rounds(s, m, 62).a == 0x93614c9c && Rounds(s, m, 63).a == 0xf66d9bf4;
  }

  lemma SecondRounds4(s: Vars, m: Block)
    requires SecondWords4(m)
    requires Rounds(s, m, 64) == Vars(0xd504902b, 0xf66d9bf4, 0x24d85327, 0xdeaac406, 0xe996063d)
    ensures Rounds(s, m, 80) == Vars(0x906fd62c, 0x58c0aac0, 0xb6a55520, 0x74e9b89d, 0x9af00b7f)
  {
    assert Rounds(s, m, 65).a == 0x60a9da62 && Rounds(s, m, 66).a == 0x8b687819 && Rounds(s, m, 67).a == 0x083e90c3;
    assert Rounds(s, m, 68).a == 0xf6226bbf && Rounds(s, m, 69).a == 0x76c0563b && Rounds(s, m, 70).a == 0x989dd165;
    assert Rounds(s, m, 71).a == 0x8b2c7573 && Rounds(s, m, 72).a == 0xae1b8e7b && Rounds(s, m, 73).a == 0xca1840de;
    assert Rounds(s, m, 74).a == 0x16f3babb && Rounds(s, m, 75).a == 0xd28d83ad && Rounds(s, m, 76).a == 0x6bc02dfe;
    assert Rounds(s, m, 77).a == 0xd3a6e275 && Rounds(s, m, 78).a == 0xda955482 && Rounds(s, m, 79).a == 0x58c0aac0;
  }

  lemma SecondCompress(m: Block)
    requires SecondWords0(m)
    ensures Compress(Vars(0xf4286818, 0xc37b27ae, 0x0408f581, 0x84677148, 0x4a566572), m)
            == Vars(0x84983e44, 0x1c3bd26e, 0xbaae4aa1, 0xf95129e5, 0xe54670f1)
  {
    hide SecondWords0, SecondWords1, SecondWords2, SecondWords3, SecondWords4, W;
    var s := Vars(0xf4286818, 0xc37b27ae, 0x0408f581, 0x84677148, 0x4a566572);
    SecondSchedule1(m);
    SecondSchedule2(m);
    SecondSchedule3(m);
    SecondSchedule4(m);
    SecondRounds0(s, m);
    SecondRounds1(s, m);
    SecondRounds2(s, m);
    SecondRounds3(s, m);
    SecondRounds4(s, m);
  }

  // ----- Messages -----------------------------------------------------------------------

  // "abc"
  const ABC: seq<Byte> := [0x61, 0x62, 0x63]

  // "abcdbcdecdefdefgefghfghighijhijkijkljklmklmnlmnomnopnopq", by 16 bytes
  const ROW0: seq<Byte> :=
    [0x61, 0x62, 0x63, 0x64, 0x62, 0x63, 0x64, 0x65, 0x63, 0x64, 0x65, 0x66, 0x64, 0x65, 0x66, 0x67]

  const ROW1: seq<Byte> :=
    [0x65, 0x66, 0x67, 0x68, 0x66, 0x67, 0x68, 0x69, 0x67, 0x68, 0x69, 0x6a, 0x68, 0x69, 0x6a, 0x6b]

  const ROW2: seq<Byte> :=
    [0x69, 0x6a, 0x6b, 0x6c, 0x6a, 0x6b, 0x6c, 0x6d, 0x6b, 0x6c, 0x6d, 0x6e, 0x6c, 0x6d, 0x6e, 0x6f]

  const ROW3: seq<Byte> :=
    [0x6d, 0x6e, 0x6f, 0x70, 0x6e, 0x6f, 0x70, 0x71]

  const LETTERS := ROW0 + ROW1 + ROW2 + ROW3

  lemma {:induction false} ZerosAt(k: nat, i: nat)
    requires i < k
    ensures |Zeros(k)| == k && Zeros(k)[i] == 0
  {
    ZerosLength(k);
    ZerosLength(k - 1);
    if i < k - 1 { ZerosAt(k - 1, i); }
  }

  /** The bytes of a padded message, when `z` zeros and the length `l` complete it. */
  lemma PadAt(m: seq<Byte>, z: nat, l: seq<Byte>)
    requires ZeroCount(|m|) == z && Length64(8 * |m|) == l
    ensures |Pad(m)| == |m| + z + 9
    ensures forall i | 0 <= i < |m| :: Pad(m)[i] == m[i]
    ensures Pad(m)[|m|] == 0x80
    ensures forall i | |m| < i <= |m| + z :: Pad(m)[i] == 0
    ensures Pad(m)[|m| + z + 1..] == l
  {
    hide ByteOf;
    ZerosLength(z);
    var p := Pad(m);
    assert p == (m + [0x80] + Zeros(z)) + l;
    forall i | |m| < i <= |m| + z ensures p[i] == 0 {
      ZerosAt(z, i - |m| - 1);
      assert p[i] == Zeros(z)[i - |m| - 1];
    }
  }

  // The `k`th byte of a number is `n`.
  lemma ByteIs(x: nat, k: nat, n: int)
    requires 0 <= n < 256 && x / Power256(k) % 256 == n
    ensures ByteOf(x, k) == n as Byte
  {
    hide Power256;
  }

  lemma {:induction false} PowerGrows(k: nat)
    requires k >= 2
    ensures Power256(k) >= 0x1_0000
  {
    if k > 2 { PowerGrows(k - 1); }
  }

  lemma UpperByte(x: nat, k: nat)
    requires x < 0x1_0000 && k >= 2
    ensures ByteOf(x, k) == 0
  {
    hide ByteOf;
    PowerGrows(k);
    Small(x, Power256(k));
    ByteIs(x, k, 0);
  }

  lemma LowerBytes(x: nat, hi: int, lo: int)
    requires x == 256 * hi + lo && 0 <= hi < 256 && 0 <= lo < 256
    ensures ByteOf(x, 1) == hi as Byte && ByteOf(x, 0) == lo as Byte
  {
    hide ByteOf;
    assert Power256(1) == 256 && Power256(0) == 1;
    ByteIs(x, 1, hi);
    ByteIs(x, 0, lo);
  }

  lemma Small(x: nat, d: int)
    requires x < d
    ensures x / d == 0
  {
  }

  /** A length of less than 2^16 bits. */
  lemma LengthOf(x: nat, hi: int, lo: int)
    requires x == 256 * hi + lo && 0 <= hi < 256 && 0 <= lo < 256
    ensures Length64(x) == [0, 0, 0, 0, 0, 0, hi as Byte, lo as Byte]
  {
    hide ByteOf;
    UpperByte(x, 7);
    UpperByte(x, 6);
    UpperByte(x, 5);
    UpperByte(x, 4);
    UpperByte(x, 3);
    UpperByte(x, 2);
    LowerBytes(x, hi, lo);
  }

  lemma HashOne(s: Vars, m: Block)
    ensures Hash(s, m) == Compress(s, m)
  {
    hide Compress;
    assert m[..BLOCK] == m && m[BLOCK..] == [];
  }

  // ----- "abc" --------------------------------------------------------------------------

  lemma AbcPadded()
    ensures var p := Pad(ABC);
            && |p| == BLOCK && p[0] == 0x61 && p[1] == 0x62 && p[2] == 0x63 && p[3] == 0x80
            && (forall i | 4 <= i < 63 :: p[i] == 0) && p[63] == 0x18
  {
    hide ByteOf, Pad, Length64;
    LengthOf(24, 0, 24);
    PadAt(ABC, 52, [0, 0, 0, 0, 0, 0, 0, 24]);
    var p := Pad(ABC);
    assert forall i | 56 <= i < 64 :: p[i] == p[56..][i - 56];
  }

  lemma AbcFirstWords(p: Block)
    requires p[0] == 0x61 && p[1] == 0x62 && p[2] == 0x63 && p[3] == 0x80
    requires (forall i | 4 <= i < 63 :: p[i] == 0) && p[63] == 0x18
    ensures AbcWords0(p)
  {
  }

  // Five words of four bytes, one after the other.
  lemma Joined(a: seq<Byte>, b: seq<Byte>, c: seq<Byte>, d: seq<Byte>, e: seq<Byte>)
    requires |a| == 4 && |b| == 4 && |c| == 4 && |d| == 4 && |e| == 4
    ensures a + b + c + d + e == [a[0], a[1], a[2], a[3], b[0], b[1], b[2], b[3], c[0], c[1], c[2], c[3],
                                  d[0], d[1], d[2], d[3], e[0], e[1], e[2], e[3]]
  {
  }

  lemma AbcBytes()
    ensures WordBytes(0xa9993e36) + WordBytes(0x4706816a) + WordBytes(0xba3e2571) + WordBytes(0x7850c26c)
            + WordBytes(0x9cd0d89d) ==
            [0xa9, 0x99, 0x3e, 0x36, 0x47, 0x06, 0x81, 0x6a, 0xba, 0x3e,
             0x25, 0x71, 0x78, 0x50, 0xc2, 0x6c, 0x9c, 0xd0, 0xd8, 0x9d]
  {
    Joined(WordBytes(0xa9993e36), WordBytes(0x4706816a), WordBytes(0xba3e2571), WordBytes(0x7850c26c),
           WordBytes(0x9cd0d89d));
  }

  /** The first published example: "abc". */
  lemma AbcDigest()
    ensures Digest(ABC) ==
            [0xa9, 0x99, 0x3e, 0x36, 0x47, 0x06, 0x81, 0x6a, 0xba, 0x3e,
             0x25, 0x71, 0x78, 0x50, 0xc2, 0x6c, 0x9c, 0xd0, 0xd8, 0x9d]
  {
    hide AbcWords0, Compress, Pad, Hash, WordBytes;
    AbcPadded();
    var p: Block := Pad(ABC);
    AbcFirstWords(p);
    AbcCompress(p);
    HashOne(IV, p);
    AbcBytes();
  }

  // ----- A message of 56 bytes ------------------------------------------------------------

  lemma LettersPadded()
    ensures var p := Pad(LETTERS);
            && |p| == 128 && p[..56] == LETTERS && p[56] == 0x80
            && (forall i | 57 <= i < 126 :: p[i] == 0) && p[126] == 1 && p[127] == 0xc0
  {
    hide ByteOf, Pad, Length64;
    LengthOf(448, 1, 0xc0);
    PadAt(LETTERS, 63, [0, 0, 0, 0, 0, 0, 1, 0xc0]);
    var p := Pad(LETTERS);
    assert forall i | 120 <= i < 128 :: p[i] == p[120..][i - 120];
  }

  lemma Row0Words(b: Block)
    requires forall i | 0 <= i < 16 :: b[i] == ROW0[i]
    ensures W(b, 0) == 0x61626364 && W(b, 1) == 0x62636465 && W(b, 2) == 0x63646566 && W(b, 3) == 0x64656667
  {
    assert b[0] == ROW0[0] && b[1] == ROW0[1] && b[2] == ROW0[2] && b[3] == ROW0[3];
    assert b[4] == ROW0[4] && b[5] == ROW0[5] && b[6] == ROW0[6] && b[7] == ROW0[7];
    assert b[8] == ROW0[8] && b[9] == ROW0[9] && b[10] == ROW0[10] && b[11] == ROW0[11];
    assert b[12] == ROW0[12] && b[13] == ROW0[13] && b[14] == ROW0[14] && b[15] == ROW0[15];
  }

  lemma Row1Words(b: Block)
    requires forall i | 16 <= i < 32 :: b[i] == ROW1[i - 16]
    ensures W(b, 4) == 0x65666768 && W(b, 5) == 0x66676869 && W(b, 6) == 0x6768696a && W(b, 7) == 0x68696a6b
  {
    assert b[16] == ROW1[0] && b[17] == ROW1[1] && b[18] == ROW1[2] && b[19] == ROW1[3];
    assert b[20] == ROW1[4] && b[21] == ROW1[5] && b[22] == ROW1[6] && b[23] == ROW1[7];
    assert b[24] == ROW1[8] && b[25] == ROW1[9] && b[26] == ROW1[10] && b[27] == ROW1[11];
    assert b[28] == ROW1[12] && b[29] == ROW1[13] && b[30] == ROW1[14] && b[31] == ROW1[15];
  }

  lemma Row2Words(b: Block)
    requires forall i | 32 <= i < 48 :: b[i] == ROW2[i - 32]
    ensures W(b, 8) == 0x696a6b6c && W(b, 9) == 0x6a6b6c6d && W(b, 10) == 0x6b6c6d6e && W(b, 11) == 0x6c6d6e6f
  {
    assert b[32] == ROW2[0] && b[33] == ROW2[1] && b[34] == ROW2[2] && b[35] == ROW2[3];
    assert b[36] == ROW2[4] && b[37] == ROW2[5] && b[38] == ROW2[6] && b[39] == ROW2[7];
    assert b[40] == ROW2[8] && b[41] == ROW2[9] && b[42] == ROW2[10] && b[43] == ROW2[11];
    assert b[44] == ROW2[12] && b[45] == ROW2[13] && b[46] == ROW2[14] && b[47] == ROW2[15];
  }

  lemma Row3Words(b: Block)
    requires forall i | 48 <= i < 56 :: b[i] == ROW3[i - 48]
    ensures W(b, 12) == 0x6d6e6f70 && W(b, 13) == 0x6e6f7071
  {
    assert b[48] == ROW3[0] && b[49] == ROW3[1] && b[50] == ROW3[2] && b[51] == ROW3[3];
    assert b[52] == ROW3[4] && b[53] == ROW3[5] && b[54] == ROW3[6] && b[55] == ROW3[7];
  }

  lemma RowLengths()
    ensures |ROW0| == 16 && |ROW1| == 16 && |ROW2| == 16 && |ROW3| == 8
  {
  }

  lemma FirstBlockWords(b: Block)
    requires b[..56] == LETTERS && b[56] == 0x80 && forall i | 57 <= i < 64 :: b[i] == 0
    ensures FirstWords0(b)
  {
    hide ROW0, ROW1, ROW2, ROW3;
    RowLengths();
    assert forall i | 0 <= i < 16 :: b[i] == LETTERS[i];
    Row0Words(b);
    Row1Words(b);
    Row2Words(b);
    Row3Words(b);
  }

  lemma SecondBlockWords(b: Block)
    requires (forall i | 0 <= i < 62 :: b[i] == 0) && b[62] == 1 && b[63] == 0xc0
    ensures SecondWords0(b)
  {
  }

  lemma LettersBytes()
    ensures WordBytes(0x84983e44) + WordBytes(0x1c3bd26e) + WordBytes(0xbaae4aa1) + WordBytes(0xf95129e5)
            + WordBytes(0xe54670f1) ==
            [0x84, 0x98, 0x3e, 0x44, 0x1c, 0x3b, 0xd2, 0x6e, 0xba, 0xae,
             0x4a, 0xa1, 0xf9, 0x51, 0x29, 0xe5, 0xe5, 0x46, 0x70, 0xf1]
  {
    Joined(WordBytes(0x84983e44), WordBytes(0x1c3bd26e), WordBytes(0xbaae4aa1), WordBytes(0xf95129e5),
           WordBytes(0xe54670f1));
  }

  lemma HashTwo(s: Vars, a: Block, b: Block)
    ensures Hash(s, a + b) == Compress(Compress(s, a), b)
  {
    hide Compress;
    HashOne(s, a);
    HashBlock(s, a, b);
  }

  /** The second published example: a message that takes two blocks. */
  lemma LettersDigest()
    ensures Digest(LETTERS) ==
            [0x84, 0x98, 0x3e, 0x44, 0x1c, 0x3b, 0xd2, 0x6e, 0xba, 0xae,
             0x4a, 0xa1, 0xf9, 0x51, 0x29, 0xe5, 0xe5, 0x46, 0x70, 0xf1]
  {
    hide FirstWords0, SecondWords0, Compress, Pad, Hash, WordBytes;
    LettersPadded();
    var p := Pad(LETTERS);
    var a: Block, b: Block := p[..BLOCK], p[BLOCK..];
    assert p == a + b && a[..56] == p[..56];
    FirstBlockWords(a);
    SecondBlockWords(b);
    FirstCompress(a);
    SecondCompress(b);
    HashTwo(IV, a, b);
    LettersBytes();
  }
}
