/** Two examples of the standard: the digests of "abc" and of a message of two blocks. */
module ShaExamples {
  import opened Arith
  import opened Bits
  import opened Fips180
  import opened WordBits
  import opened ShaOnBits

  // ---- the messages ----

  const ABC: seq<Byte> := [0x61, 0x62, 0x63]

  /** "abcdbcdecdefdefgefghfghighijhijkijkljklmklmnlmnomnopnopq" */
  const LETTERS: seq<Byte> := seq(56, k requires 0 <= k < 56 => 0x61 + k / 4 + k % 4)

  lemma Short()
    ensures BlockCount(|ABC|) == 1
  {
  }

  lemma Long()
    ensures BlockCount(|LETTERS|) == 2
  {
  }

  lemma LengthOf(n: nat, i: nat)
    requires i < 8 && n < 8192
    ensures LengthByte(n, i) == if i == 7 then 8 * n % 256 else if i == 6 then 8 * n / 256 else 0
  {
    if i < 6 {
      var e := 8 * (7 - i);
      Pow2Values();
      Pow2Add(16, e - 16);
      MulMono(1, Pow2(e - 16), 0x1_0000);
      SmallMod(8 * n, Pow2(e));
    } else {
      Pow2Values();
      assert Pow2(0) == 1;
    }
  }

  lemma AbcBytes(pos: nat)
    requires pos < 64
    ensures BlockCount(|ABC|) == 1 && LastEight(|ABC|) == 56
    ensures PaddedByte(ABC, pos) == if pos < 3 then 0x61 + pos else if pos == 3 then 0x80 else if pos == 63 then 24 else 0
  {
    if pos >= 56 { LengthOf(3, pos - 56); }
  }

  lemma AbcWord(t: nat)
    requires t < 16
    ensures BlockCount(|ABC|) == 1 && BlockWord(ABC, 0, t) == if t == 0 then 0x61626380 else if t == 15 then 24 else 0
  {
    AbcBytes(4 * t);
    AbcBytes(4 * t + 1);
    AbcBytes(4 * t + 2);
    AbcBytes(4 * t + 3);
  }

  lemma LettersBytes(pos: nat)
    requires pos < 128
    ensures BlockCount(|LETTERS|) == 2 && LastEight(|LETTERS|) == 120
    ensures PaddedByte(LETTERS, pos) == if pos < 56 then 0x61 + pos / 4 + pos % 4 else if pos == 56 then 0x80
                                        else if pos == 126 then 1 else if pos == 127 then 0xc0 else 0
  {
    if pos >= 120 { LengthOf(56, pos - 120); }
  }

  lemma LettersWord(b: nat, t: nat)
    requires b < 2 && t < 16
    ensures BlockCount(|LETTERS|) == 2
    ensures BlockWord(LETTERS, b, t) == if b == 0 && t < 14 then 0x61626364 + 0x01010101 * t
                                        else if b == 0 && t == 14 then 0x80000000 else if b == 1 && t == 15 then 0x1c0 else 0
  {
    hide PaddedByte, LastEight, BlockCount;
    LettersBytes(64 * b + 4 * t);
    LettersBytes(64 * b + 4 * t + 1);
    LettersBytes(64 * b + 4 * t + 2);
    LettersBytes(64 * b + 4 * t + 3);
  }

  lemma LettersRead(b: nat, t: nat, w: bv32)
    requires b < 2 && t < 16
    requires Value(w) == if b == 0 && t < 14 then 0x61626364 + 0x01010101 * t
                         else if b == 0 && t == 14 then 0x80000000 else if b == 1 && t == 15 then 0x1c0 else 0
    ensures BlockCount(|LETTERS|) == 2 && WordIs(LETTERS, b, t, w)
  {
    hide Num, Value, WordIs, BlockWord, BlockCount;
    LettersWord(b, t);
    Is(w, Value(w));
    WordFirst(LETTERS, b, t, w);
  }

  // ---- the round constants as bits ----

  lemma Keys1a()
    ensures KeyIs(0, 0x428a2f98) && KeyIs(1, 0x71374491) && KeyIs(2, 0xb5c0fbcf) && KeyIs(3, 0xe9b5dba5)
  {
    hide KeyIs;
    KeyRead(0, 0x428a2f98, 0x428a2f98);
    KeyRead(1, 0x71374491, 0x71374491);
    KeyRead(2, 0xb5c0fbcf, 0xb5c0fbcf);
    KeyRead(3, 0xe9b5dba5, 0xe9b5dba5);
  }

  lemma Keys1b()
    ensures KeyIs(4, 0x3956c25b) && KeyIs(5, 0x59f111f1) && KeyIs(6, 0x923f82a4) && KeyIs(7, 0xab1c5ed5)
  {
    hide KeyIs;
    KeyRead(4, 0x3956c25b, 0x3956c25b);
    KeyRead(5, 0x59f111f1, 0x59f111f1);
    KeyRead(6, 0x923f82a4, 0x923f82a4);
    KeyRead(7, 0xab1c5ed5, 0xab1c5ed5);
  }

  lemma Keys2a()
    ensures KeyIs(8, 0xd807aa98) && KeyIs(9, 0x12835b01) && KeyIs(10, 0x243185be) && KeyIs(11, 0x550c7dc3)
  {
    hide KeyIs;
    KeyRead(8, 0xd807aa98, 0xd807aa98);
    KeyRead(9, 0x12835b01, 0x12835b01);
    KeyRead(10, 0x243185be, 0x243185be);
    KeyRead(11, 0x550c7dc3, 0x550c7dc3);
  }

  lemma Keys2b()
    ensures KeyIs(12, 0x72be5d74) && KeyIs(13, 0x80deb1fe) && KeyIs(14, 0x9bdc06a7) && KeyIs(15, 0xc19bf174)
  {
    hide KeyIs;
    KeyRead(12, 0x72be5d74, 0x72be5d74);
    KeyRead(13, 0x80deb1fe, 0x80deb1fe);
    KeyRead(14, 0x9bdc06a7, 0x9bdc06a7);
    KeyRead(15, 0xc19bf174, 0xc19bf174);
  }

  lemma Keys3a()
    ensures KeyIs(16, 0xe49b69c1) && KeyIs(17, 0xefbe4786) && KeyIs(18, 0x0fc19dc6) && KeyIs(19, 0x240ca1cc)
  {
    hide KeyIs;
    KeyRead(16, 0xe49b69c1, 0xe49b69c1);
    KeyRead(17, 0xefbe4786, 0xefbe4786);
    KeyRead(18, 0x0fc19dc6, 0x0fc19dc6);
    KeyRead(19, 0x240ca1cc, 0x240ca1cc);
  }

  lemma Keys3b()
    ensures KeyIs(20, 0x2de92c6f) && KeyIs(21, 0x4a7484aa) && KeyIs(22, 0x5cb0a9dc) && KeyIs(23, 0x76f988da)
  {
    hide KeyIs;
    KeyRead(20, 0x2de92c6f, 0x2de92c6f);
    KeyRead(21, 0x4a7484aa, 0x4a7484aa);
    KeyRead(22, 0x5cb0a9dc, 0x5cb0a9dc);
    KeyRead(23, 0x76f988da, 0x76f988da);
  }

  lemma Keys4a()
    ensures KeyIs(24, 0x983e5152) && KeyIs(25, 0xa831c66d) && KeyIs(26, 0xb00327c8) && KeyIs(27, 0xbf597fc7)
  {
    hide KeyIs;
    KeyRead(24, 0x983e5152, 0x983e5152);
    KeyRead(25, 0xa831c66d, 0xa831c66d);
    KeyRead(26, 0xb00327c8, 0xb00327c8);
    KeyRead(27, 0xbf597fc7, 0xbf597fc7);
  }

  lemma Keys4b()
    ensures KeyIs(28, 0xc6e00bf3) && KeyIs(29, 0xd5a79147) && KeyIs(30, 0x06ca6351) && KeyIs(31, 0x14292967)
  {
    hide KeyIs;
    KeyRead(28, 0xc6e00bf3, 0xc6e00bf3);
    KeyRead(29, 0xd5a79147, 0xd5a79147);
    KeyRead(30, 0x06ca6351, 0x06ca6351);
    KeyRead(31, 0x14292967, 0x14292967);
  }

  lemma Keys5a()
    ensures KeyIs(32, 0x27b70a85) && KeyIs(33, 0x2e1b2138) && KeyIs(34, 0x4d2c6dfc) && KeyIs(35, 0x53380d13)
  {
    hide KeyIs;
    KeyRead(32, 0x27b70a85, 0x27b70a85);
    KeyRead(33, 0x2e1b2138, 0x2e1b2138);
    KeyRead(34, 0x4d2c6dfc, 0x4d2c6dfc);
    KeyRead(35, 0x53380d13, 0x53380d13);
  }

  lemma Keys5b()
    ensures KeyIs(36, 0x650a7354) && KeyIs(37, 0x766a0abb) && KeyIs(38, 0x81c2c92e) && KeyIs(39, 0x92722c85)
  {
    hide KeyIs;
    KeyRead(36, 0x650a7354, 0x650a7354);
    KeyRead(37, 0x766a0abb, 0x766a0abb);
    KeyRead(38, 0x81c2c92e, 0x81c2c92e);
    KeyRead(39, 0x92722c85, 0x92722c85);
  }

  lemma Keys6a()
    ensures KeyIs(40, 0xa2bfe8a1) && KeyIs(41, 0xa81a664b) && KeyIs(42, 0xc24b8b70) && KeyIs(43, 0xc76c51a3)
  {
    hide KeyIs;
    KeyRead(40, 0xa2bfe8a1, 0xa2bfe8a1);
    KeyRead(41, 0xa81a664b, 0xa81a664b);
    KeyRead(42, 0xc24b8b70, 0xc24b8b70);
    KeyRead(43, 0xc76c51a3, 0xc76c51a3);
  }

  lemma Keys6b()
    ensures KeyIs(44, 0xd192e819) && KeyIs(45, 0xd6990624) && KeyIs(46, 0xf40e3585) && KeyIs(47, 0x106aa070)
  {
    hide KeyIs;
    KeyRead(44, 0xd192e819, 0xd192e819);
    KeyRead(45, 0xd6990624, 0xd6990624);
    KeyRead(46, 0xf40e3585, 0xf40e3585);
    KeyRead(47, 0x106aa070, 0x106aa070);
  }

  lemma Keys7a()
    ensures KeyIs(48, 0x19a4c116) && KeyIs(49, 0x1e376c08) && KeyIs(50, 0x2748774c) && KeyIs(51, 0x34b0bcb5)
  {
    hide KeyIs;
    KeyRead(48, 0x19a4c116, 0x19a4c116);
    KeyRead(49, 0x1e376c08, 0x1e376c08);
    KeyRead(50, 0x2748774c, 0x2748774c);
    KeyRead(51, 0x34b0bcb5, 0x34b0bcb5);
  }

  lemma Keys7b()
    ensures KeyIs(52, 0x391c0cb3) && KeyIs(53, 0x4ed8aa4a) && KeyIs(54, 0x5b9cca4f) && KeyIs(55, 0x682e6ff3)
  {
    hide KeyIs;
    KeyRead(52, 0x391c0cb3, 0x391c0cb3);
    KeyRead(53, 0x4ed8aa4a, 0x4ed8aa4a);
    KeyRead(54, 0x5b9cca4f, 0x5b9cca4f);
    KeyRead(55, 0x682e6ff3, 0x682e6ff3);
  }

  lemma Keys8a()
    ensures KeyIs(56, 0x748f82ee) && KeyIs(57, 0x78a5636f) && KeyIs(58, 0x84c87814) && KeyIs(59, 0x8cc70208)
  {
    hide KeyIs;
    KeyRead(56, 0x748f82ee, 0x748f82ee);
    KeyRead(57, 0x78a5636f, 0x78a5636f);
    KeyRead(58, 0x84c87814, 0x84c87814);
    KeyRead(59, 0x8cc70208, 0x8cc70208);
  }

  lemma Keys8b()
    ensures KeyIs(60, 0x90befffa) && KeyIs(61, 0xa4506ceb) && KeyIs(62, 0xbef9a3f7) && KeyIs(63, 0xc67178f2)
  {
    hide KeyIs;
    KeyRead(60, 0x90befffa, 0x90befffa);
    KeyRead(61, 0xa4506ceb, 0xa4506ceb);
    KeyRead(62, 0xbef9a3f7, 0xbef9a3f7);
    KeyRead(63, 0xc67178f2, 0xc67178f2);
  }

  lemma InitialNumsa()
    ensures Num(0x6a09e667) == 0x6a09e667 && Num(0xbb67ae85) == 0xbb67ae85
    ensures Num(0x3c6ef372) == 0x3c6ef372 && Num(0xa54ff53a) == 0xa54ff53a
  {
    hide Num;
    Is(0x6a09e667, 0x6a09e667);
    Is(0xbb67ae85, 0xbb67ae85);
    Is(0x3c6ef372, 0x3c6ef372);
    Is(0xa54ff53a, 0xa54ff53a);
  }

  lemma InitialNumsb()
    ensures Num(0x510e527f) == 0x510e527f && Num(0x9b05688c) == 0x9b05688c
    ensures Num(0x1f83d9ab) == 0x1f83d9ab && Num(0x5be0cd19) == 0x5be0cd19
  {
    hide Num;
    Is(0x510e527f, 0x510e527f);
    Is(0x9b05688c, 0x9b05688c);
    Is(0x1f83d9ab, 0x1f83d9ab);
    Is(0x5be0cd19, 0x5be0cd19);
  }

  lemma InitialNums()
    ensures Nums(Words(0x6a09e667, 0xbb67ae85, 0x3c6ef372, 0xa54ff53a, 0x510e527f, 0x9b05688c, 0x1f83d9ab, 0x5be0cd19)) == H0
  {
    hide Num;
    InitialNumsa();
    InitialNumsb();
  }

  // ---- "abc" ----

  lemma AbcStart()
    ensures HashIs(ABC, 0, Words(0x6a09e667, 0xbb67ae85, 0x3c6ef372, 0xa54ff53a, 0x510e527f, 0x9b05688c, 0x1f83d9ab, 0x5be0cd19))
  {
    hide HashIs;
    InitialNums();
    FirstHash(ABC, Words(0x6a09e667, 0xbb67ae85, 0x3c6ef372, 0xa54ff53a, 0x510e527f, 0x9b05688c, 0x1f83d9ab, 0x5be0cd19));
  }

  lemma AbcWords1()
    ensures WordIs(ABC, 0, 0, 0x61626380) && WordIs(ABC, 0, 1, 0x00000000)
    ensures WordIs(ABC, 0, 2, 0x00000000) && WordIs(ABC, 0, 3, 0x00000000)
    ensures WordIs(ABC, 0, 4, 0x00000000) && WordIs(ABC, 0, 5, 0x00000000)
    ensures WordIs(ABC, 0, 6, 0x00000000) && WordIs(ABC, 0, 7, 0x00000000)
  {
    hide Num, WordIs, BlockWord, BlockCount;
    Is(0, 0);
    Is(0x61626380, 0x61626380);
    AbcWord(0);
    WordFirst(ABC, 0, 0, 0x61626380);
    AbcWord(1);
    WordFirst(ABC, 0, 1, 0x00000000);
    AbcWord(2);
    WordFirst(ABC, 0, 2, 0x00000000);
    AbcWord(3);
    WordFirst(ABC, 0, 3, 0x00000000);
    AbcWord(4);
    WordFirst(ABC, 0, 4, 0x00000000);
    AbcWord(5);
    WordFirst(ABC, 0, 5, 0x00000000);
    AbcWord(6);
    WordFirst(ABC, 0, 6, 0x00000000);
    AbcWord(7);
    WordFirst(ABC, 0, 7, 0x00000000);
  }

  lemma AbcWords2()
    ensures WordIs(ABC, 0, 8, 0x00000000) && WordIs(ABC, 0, 9, 0x00000000)
    ensures WordIs(ABC, 0, 10, 0x00000000) && WordIs(ABC, 0, 11, 0x00000000)
    ensures WordIs(ABC, 0, 12, 0x00000000) && WordIs(ABC, 0, 13, 0x00000000)
    ensures WordIs(ABC, 0, 14, 0x00000000) && WordIs(ABC, 0, 15, 0x00000018)
  {
    hide Num, WordIs, BlockWord, BlockCount;
    Is(0, 0);
    Is(0x00000018, 0x00000018);
    AbcWord(8);
    WordFirst(ABC, 0, 8, 0x00000000);
    AbcWord(9);
    WordFirst(ABC, 0, 9, 0x00000000);
    AbcWord(10);
    WordFirst(ABC, 0, 10, 0x00000000);
    AbcWord(11);
    WordFirst(ABC, 0, 11, 0x00000000);
    AbcWord(12);
    WordFirst(ABC, 0, 12, 0x00000000);
    AbcWord(13);
    WordFirst(ABC, 0, 13, 0x00000000);
    AbcWord(14);
    WordFirst(ABC, 0, 14, 0x00000000);
    AbcWord(15);
    WordFirst(ABC, 0, 15, 0x00000018);
  }

  lemma AbcWords3()
    ensures WordIs(ABC, 0, 16, 0x61626380) && WordIs(ABC, 0, 17, 0x000f0000)
    ensures WordIs(ABC, 0, 18, 0x7da86405) && WordIs(ABC, 0, 19, 0x600003c6)
    ensures WordIs(ABC, 0, 20, 0x3e9d7b78) && WordIs(ABC, 0, 21, 0x0183fc00)
    ensures WordIs(ABC, 0, 22, 0x12dcbfdb) && WordIs(ABC, 0, 23, 0xe2e2c38e)
    ensures WordIs(ABC, 0, 24, 0xc8215c1a) && WordIs(ABC, 0, 25, 0xb73679a2)
    ensures WordIs(ABC, 0, 26, 0xe5bc3909) && WordIs(ABC, 0, 27, 0x32663c5b)
    ensures WordIs(ABC, 0, 28, 0x9d209d67) && WordIs(ABC, 0, 29, 0xec8726cb)
    ensures WordIs(ABC, 0, 30, 0x702138a4) && WordIs(ABC, 0, 31, 0xd3b7973b)
  {
    hide WordIs, BlockCount;
    Short();
    AbcWords1();
    AbcWords2();
    WordNext(ABC, 0, 16, 0x00000000, 0x00000000, 0x00000000, 0x61626380, 0x61626380);
    WordNext(ABC, 0, 17, 0x00000018, 0x00000000, 0x00000000, 0x00000000, 0x000f0000);
    WordNext(ABC, 0, 18, 0x61626380, 0x00000000, 0x00000000, 0x00000000, 0x7da86405);
    WordNext(ABC, 0, 19, 0x000f0000, 0x00000000, 0x00000000, 0x00000000, 0x600003c6);
    WordNext(ABC, 0, 20, 0x7da86405, 0x00000000, 0x00000000, 0x00000000, 0x3e9d7b78);
    WordNext(ABC, 0, 21, 0x600003c6, 0x00000000, 0x00000000, 0x00000000, 0x0183fc00);
    WordNext(ABC, 0, 22, 0x3e9d7b78, 0x00000018, 0x00000000, 0x00000000, 0x12dcbfdb);
    WordNext(ABC, 0, 23, 0x0183fc00, 0x61626380, 0x00000000, 0x00000000, 0xe2e2c38e);
    WordNext(ABC, 0, 24, 0x12dcbfdb, 0x000f0000, 0x00000000, 0x00000000, 0xc8215c1a);
    WordNext(ABC, 0, 25, 0xe2e2c38e, 0x7da86405, 0x00000000, 0x00000000, 0xb73679a2);
    WordNext(ABC, 0, 26, 0xc8215c1a, 0x600003c6, 0x00000000, 0x00000000, 0xe5bc3909);
    WordNext(ABC, 0, 27, 0xb73679a2, 0x3e9d7b78, 0x00000000, 0x00000000, 0x32663c5b);
    WordNext(ABC, 0, 28, 0xe5bc3909, 0x0183fc00, 0x00000000, 0x00000000, 0x9d209d67);
    WordNext(ABC, 0, 29, 0x32663c5b, 0x12dcbfdb, 0x00000000, 0x00000000, 0xec8726cb);
    WordNext(ABC, 0, 30, 0x9d209d67, 0xe2e2c38e, 0x00000018, 0x00000000, 0x702138a4);
    WordNext(ABC, 0, 31, 0xec8726cb, 0xc8215c1a, 0x61626380, 0x00000018, 0xd3b7973b);
  }

  lemma AbcWords4()
    ensures WordIs(ABC, 0, 32, 0x93f5997f) && WordIs(ABC, 0, 33, 0x3b68ba73)
    ensures WordIs(ABC, 0, 34, 0xaff4ffc1) && WordIs(ABC, 0, 35, 0xf10a5c62)
    ensures WordIs(ABC, 0, 36, 0x0a8b3996) && WordIs(ABC, 0, 37, 0x72af830a)
    ensures WordIs(ABC, 0, 38, 0x9409e33e) && WordIs(ABC, 0, 39, 0x24641522)
    ensures WordIs(ABC, 0, 40, 0x9f47bf94) && WordIs(ABC, 0, 41, 0xf0a64f5a)
    ensures WordIs(ABC, 0, 42, 0x3e246a79) && WordIs(ABC, 0, 43, 0x27333ba3)
    ensures WordIs(ABC, 0, 44, 0x0c4763f2) && WordIs(ABC, 0, 45, 0x840abf27)
    ensures WordIs(ABC, 0, 46, 0x7a290d5d) && WordIs(ABC, 0, 47, 0x065c43da)
  {
    hide WordIs, BlockCount;
    Short();
    AbcWords3();
    WordNext(ABC, 0, 32, 0x702138a4, 0xb73679a2, 0x000f0000, 0x61626380, 0x93f5997f);
    WordNext(ABC, 0, 33, 0xd3b7973b, 0xe5bc3909, 0x7da86405, 0x000f0000, 0x3b68ba73);
    WordNext(ABC, 0, 34, 0x93f5997f, 0x32663c5b, 0x600003c6, 0x7da86405, 0xaff4ffc1);
    WordNext(ABC, 0, 35, 0x3b68ba73, 0x9d209d67, 0x3e9d7b78, 0x600003c6, 0xf10a5c62);
    WordNext(ABC, 0, 36, 0xaff4ffc1, 0xec8726cb, 0x0183fc00, 0x3e9d7b78, 0x0a8b3996);
    WordNext(ABC, 0, 37, 0xf10a5c62, 0x702138a4, 0x12dcbfdb, 0x0183fc00, 0x72af830a);
    WordNext(ABC, 0, 38, 0x0a8b3996, 0xd3b7973b, 0xe2e2c38e, 0x12dcbfdb, 0x9409e33e);
    WordNext(ABC, 0, 39, 0x72af830a, 0x93f5997f, 0xc8215c1a, 0xe2e2c38e, 0x24641522);
    WordNext(ABC, 0, 40, 0x9409e33e, 0x3b68ba73, 0xb73679a2, 0xc8215c1a, 0x9f47bf94);
    WordNext(ABC, 0, 41, 0x24641522, 0xaff4ffc1, 0xe5bc3909, 0xb73679a2, 0xf0a64f5a);
    WordNext(ABC, 0, 42, 0x9f47bf94, 0xf10a5c62, 0x32663c5b, 0xe5bc3909, 0x3e246a79);
    WordNext(ABC, 0, 43, 0xf0a64f5a, 0x0a8b3996, 0x9d209d67, 0x32663c5b, 0x27333ba3);
    WordNext(ABC, 0, 44, 0x3e246a79, 0x72af830a, 0xec8726cb, 0x9d209d67, 0x0c4763f2);
    WordNext(ABC, 0, 45, 0x27333ba3, 0x9409e33e, 0x702138a4, 0xec8726cb, 0x840abf27);
    WordNext(ABC, 0, 46, 0x0c4763f2, 0x24641522, 0xd3b7973b, 0x702138a4, 0x7a290d5d);
    WordNext(ABC, 0, 47, 0x840abf27, 0x9f47bf94, 0x93f5997f, 0xd3b7973b, 0x065c43da);
  }

  lemma AbcWords5()
    ensures WordIs(ABC, 0, 48, 0xfb3e89cb) && WordIs(ABC, 0, 49, 0xcc7617db)
    ensures WordIs(ABC, 0, 50, 0xb9e66c34) && WordIs(ABC, 0, 51, 0xa9993667)
    ensures WordIs(ABC, 0, 52, 0x84badedd) && WordIs(ABC, 0, 53, 0xc21462bc)
    ensures WordIs(ABC, 0, 54, 0x1487472c) && WordIs(ABC, 0, 55, 0xb20f7a99)
    ensures WordIs(ABC, 0, 56, 0xef57b9cd) && WordIs(ABC, 0, 57, 0xebe6b238)
    ensures WordIs(ABC, 0, 58, 0x9fe3095e) && WordIs(ABC, 0, 59, 0x78bc8d4b)
    ensures WordIs(ABC, 0, 60, 0xa43fcf15) && WordIs(ABC, 0, 61, 0x668b2ff8)
    ensures WordIs(ABC, 0, 62, 0xeeaba2cc) && WordIs(ABC, 0, 63, 0x12b1edeb)
  {
    hide WordIs, BlockCount;
    Short();
    AbcWords4();
    WordNext(ABC, 0, 48, 0x7a290d5d, 0xf0a64f5a, 0x3b68ba73, 0x93f5997f, 0xfb3e89cb);
    WordNext(ABC, 0, 49, 0x065c43da, 0x3e246a79, 0xaff4ffc1, 0x3b68ba73, 0xcc7617db);
    WordNext(ABC, 0, 50, 0xfb3e89cb, 0x27333ba3, 0xf10a5c62, 0xaff4ffc1, 0xb9e66c34);
    WordNext(ABC, 0, 51, 0xcc7617db, 0x0c4763f2, 0x0a8b3996, 0xf10a5c62, 0xa9993667);
    WordNext(ABC, 0, 52, 0xb9e66c34, 0x840abf27, 0x72af830a, 0x0a8b3996, 0x84badedd);
    WordNext(ABC, 0, 53, 0xa9993667, 0x7a290d5d, 0x9409e33e, 0x72af830a, 0xc21462bc);
    WordNext(ABC, 0, 54, 0x84badedd, 0x065c43da, 0x24641522, 0x9409e33e, 0x1487472c);
    WordNext(ABC, 0, 55, 0xc21462bc, 0xfb3e89cb, 0x9f47bf94, 0x24641522, 0xb20f7a99);
    WordNext(ABC, 0, 56, 0x1487472c, 0xcc7617db, 0xf0a64f5a, 0x9f47bf94, 0xef57b9cd);
    WordNext(ABC, 0, 57, 0xb20f7a99, 0xb9e66c34, 0x3e246a79, 0xf0a64f5a, 0xebe6b238);
    WordNext(ABC, 0, 58, 0xef57b9cd, 0xa9993667, 0x27333ba3, 0x3e246a79, 0x9fe3095e);
    WordNext(ABC, 0, 59, 0xebe6b238, 0x84badedd, 0x0c4763f2, 0x27333ba3, 0x78bc8d4b);
    WordNext(ABC, 0, 60, 0x9fe3095e, 0xc21462bc, 0x840abf27, 0x0c4763f2, 0xa43fcf15);
    WordNext(ABC, 0, 61, 0x78bc8d4b, 0x1487472c, 0x7a290d5d, 0x840abf27, 0x668b2ff8);
    WordNext(ABC, 0, 62, 0xa43fcf15, 0xb20f7a99, 0x065c43da, 0x7a290d5d, 0xeeaba2cc);
    WordNext(ABC, 0, 63, 0x668b2ff8, 0xef57b9cd, 0xfb3e89cb, 0x065c43da, 0x12b1edeb);
  }

  lemma AbcRounds0()
    ensures After(ABC, 0, 8,
                  Words(0x85a07b5f, 0xe5030380, 0x2b4209f5, 0x04409a6a, 0x0c657a79, 0x9b27a401, 0x714260ad, 0x43ada245))
  {
    hide After, WordIs, KeyIs, HashIs, BlockCount;
    Short();
    AbcStart();
    FirstRound(ABC, 0, Words(0x6a09e667, 0xbb67ae85, 0x3c6ef372, 0xa54ff53a, 0x510e527f, 0x9b05688c, 0x1f83d9ab, 0x5be0cd19));
    AbcWords1();
    Keys1a();
    Keys1b();
    var s0 := Words(0x6a09e667, 0xbb67ae85, 0x3c6ef372, 0xa54ff53a, 0x510e527f, 0x9b05688c, 0x1f83d9ab, 0x5be0cd19);
    var s1 := Words(0x5d6aebcd, 0x6a09e667, 0xbb67ae85, 0x3c6ef372, 0xfa2a4622, 0x510e527f, 0x9b05688c, 0x1f83d9ab);
    NextRound(ABC, 0, 0, s0, 0x428a2f98, 0x61626380, s1);
    var s2 := Words(0x5a6ad9ad, 0x5d6aebcd, 0x6a09e667, 0xbb67ae85, 0x78ce7989, 0xfa2a4622, 0x510e527f, 0x9b05688c);
    NextRound(ABC, 0, 1, s1, 0x71374491, 0x00000000, s2);
    var s3 := Words(0xc8c347a7, 0x5a6ad9ad, 0x5d6aebcd, 0x6a09e667, 0xf92939eb, 0x78ce7989, 0xfa2a4622, 0x510e527f);
    NextRound(ABC, 0, 2, s2, 0xb5c0fbcf, 0x00000000, s3);
    var s4 := Words(0xd550f666, 0xc8c347a7, 0x5a6ad9ad, 0x5d6aebcd, 0x24e00850, 0xf92939eb, 0x78ce7989, 0xfa2a4622);
    NextRound(ABC, 0, 3, s3, 0xe9b5dba5, 0x00000000, s4);
    var s5 := Words(0x04409a6a, 0xd550f666, 0xc8c347a7, 0x5a6ad9ad, 0x43ada245, 0x24e00850, 0xf92939eb, 0x78ce7989);
    NextRound(ABC, 0, 4, s4, 0x3956c25b, 0x00000000, s5);
    var s6 := Words(0x2b4209f5, 0x04409a6a, 0xd550f666, 0xc8c347a7, 0x714260ad, 0x43ada245, 0x24e00850, 0xf92939eb);
    NextRound(ABC, 0, 5, s5, 0x59f111f1, 0x00000000, s6);
    var s7 := Words(0xe5030380, 0x2b4209f5, 0x04409a6a, 0xd550f666, 0x9b27a401, 0x714260ad, 0x43ada245, 0x24e00850);
    NextRound(ABC, 0, 6, s6, 0x923f82a4, 0x00000000, s7);
    var s8 := Words(0x85a07b5f, 0xe5030380, 0x2b4209f5, 0x04409a6a, 0x0c657a79, 0x9b27a401, 0x714260ad, 0x43ada245);
    NextRound(ABC, 0, 7, s7, 0xab1c5ed5, 0x00000000, s8);
  }

  lemma AbcRounds1()
    ensures After(ABC, 0, 16,
                  Words(0xb0fa238e, 0xc0645fde, 0xd932eb16, 0x87912990, 0x07590dcd, 0x0b92f20c, 0x745a48de, 0x1e578218))
  {
    hide After, WordIs, KeyIs, HashIs, BlockCount;
    Short();
    AbcRounds0();
    AbcWords2();
    Keys2a();
    Keys2b();
    var s0 := Words(0x85a07b5f, 0xe5030380, 0x2b4209f5, 0x04409a6a, 0x0c657a79, 0x9b27a401, 0x714260ad, 0x43ada245);
    var s1 := Words(0x8e04ecb9, 0x85a07b5f, 0xe5030380, 0x2b4209f5, 0x32ca2d8c, 0x0c657a79, 0x9b27a401, 0x714260ad);
    NextRound(ABC, 0, 8, s0, 0xd807aa98, 0x00000000, s1);
    var s2 := Words(0x8c87346b, 0x8e04ecb9, 0x85a07b5f, 0xe5030380, 0x1cc92596, 0x32ca2d8c, 0x0c657a79, 0x9b27a401);
    NextRound(ABC, 0, 9, s1, 0x12835b01, 0x00000000, s2);
    var s3 := Words(0x4798a3f4, 0x8c87346b, 0x8e04ecb9, 0x85a07b5f, 0x436b23e8, 0x1cc92596, 0x32ca2d8c, 0x0c657a79);
    NextRound(ABC, 0, 10, s2, 0x243185be, 0x00000000, s3);
    var s4 := Words(0xf71fc5a9, 0x4798a3f4, 0x8c87346b, 0x8e04ecb9, 0x816fd6e9, 0x436b23e8, 0x1cc92596, 0x32ca2d8c);
    NextRound(ABC, 0, 11, s3, 0x550c7dc3, 0x00000000, s4);
    var s5 := Words(0x87912990, 0xf71fc5a9, 0x4798a3f4, 0x8c87346b, 0x1e578218, 0x816fd6e9, 0x436b23e8, 0x1cc92596);
    NextRound(ABC, 0, 12, s4, 0x72be5d74, 0x00000000, s5);
    var s6 := Words(0xd932eb16, 0x87912990, 0xf71fc5a9, 0x4798a3f4, 0x745a48de, 0x1e578218, 0x816fd6e9, 0x436b23e8);
    NextRound(ABC, 0, 13, s5, 0x80deb1fe, 0x00000000, s6);
    var s7 := Words(0xc0645fde, 0xd932eb16, 0x87912990, 0xf71fc5a9, 0x0b92f20c, 0x745a48de, 0x1e578218, 0x816fd6e9);
    NextRound(ABC, 0, 14, s6, 0x9bdc06a7, 0x00000000, s7);
    var s8 := Words(0xb0fa238e, 0xc0645fde, 0xd932eb16, 0x87912990, 0x07590dcd, 0x0b92f20c, 0x745a48de, 0x1e578218);
    NextRound(ABC, 0, 15, s7, 0xc19bf174, 0x00000018, s8);
  }

  lemma AbcRounds2()
    ensures After(ABC, 0, 32,
                  Words(0x73b33bf5, 0xea992a22, 0xa0060b30, 0x363482c9, 0xba591112, 0x0109ab3a, 0xade79437, 0x6112a3b7))
  {
    hide After, WordIs, KeyIs, HashIs, BlockCount;
    Short();
    AbcRounds1();
    AbcWords3();
    Keys3a();
    Keys3b();
    Keys4a();
    Keys4b();
    var s0 := Words(0xb0fa238e, 0xc0645fde, 0xd932eb16, 0x87912990, 0x07590dcd, 0x0b92f20c, 0x745a48de, 0x1e578218);
    var s1 := Words(0x21da9a9b, 0xb0fa238e, 0xc0645fde, 0xd932eb16, 0x8034229c, 0x07590dcd, 0x0b92f20c, 0x745a48de);
    NextRound(ABC, 0, 16, s0, 0xe49b69c1, 0x61626380, s1);
    var s2 := Words(0xc2fbd9d1, 0x21da9a9b, 0xb0fa238e, 0xc0645fde, 0x846ee454, 0x8034229c, 0x07590dcd, 0x0b92f20c);
    NextRound(ABC, 0, 17, s1, 0xefbe4786, 0x000f0000, s2);
    var s3 := Words(0xfe777bbf, 0xc2fbd9d1, 0x21da9a9b, 0xb0fa238e, 0xcc899961, 0x846ee454, 0x8034229c, 0x07590dcd);
    NextRound(ABC, 0, 18, s2, 0x0fc19dc6, 0x7da86405, s3);
    var s4 := Words(0xe1f20c33, 0xfe777bbf, 0xc2fbd9d1, 0x21da9a9b, 0xb0638179, 0xcc899961, 0x846ee454, 0x8034229c);
    NextRound(ABC, 0, 19, s3, 0x240ca1cc, 0x600003c6, s4);
    var s5 := Words(0x9dc68b63, 0xe1f20c33, 0xfe777bbf, 0xc2fbd9d1, 0x8ada8930, 0xb0638179, 0xcc899961, 0x846ee454);
    NextRound(ABC, 0, 20, s4, 0x2de92c6f, 0x3e9d7b78, s5);
    var s6 := Words(0xc2606d6d, 0x9dc68b63, 0xe1f20c33, 0xfe777bbf, 0xe1257970, 0x8ada8930, 0xb0638179, 0xcc899961);
    NextRound(ABC, 0, 21, s5, 0x4a7484aa, 0x0183fc00, s6);
    var s7 := Words(0xa7a3623f, 0xc2606d6d, 0x9dc68b63, 0xe1f20c33, 0x49f5114a, 0xe1257970, 0x8ada8930, 0xb0638179);
    NextRound(ABC, 0, 22, s6, 0x5cb0a9dc, 0x12dcbfdb, s7);
    var s8 := Words(0xc5d53d8d, 0xa7a3623f, 0xc2606d6d, 0x9dc68b63, 0xaa47c347, 0x49f5114a, 0xe1257970, 0x8ada8930);
    NextRound(ABC, 0, 23, s7, 0x76f988da, 0xe2e2c38e, s8);
    var s9 := Words(0x1c2c2838, 0xc5d53d8d, 0xa7a3623f, 0xc2606d6d, 0x2823ef91, 0xaa47c347, 0x49f5114a, 0xe1257970);
    NextRound(ABC, 0, 24, s8, 0x983e5152, 0xc8215c1a, s9);
    var s10 := Words(0xcde8037d, 0x1c2c2838, 0xc5d53d8d, 0xa7a3623f, 0x14383d8e, 0x2823ef91, 0xaa47c347, 0x49f5114a);
    NextRound(ABC, 0, 25, s9, 0xa831c66d, 0xb73679a2, s10);
    var s11 := Words(0xb62ec4bc, 0xcde8037d, 0x1c2c2838, 0xc5d53d8d, 0xc74c6516, 0x14383d8e, 0x2823ef91, 0xaa47c347);
    NextRound(ABC, 0, 26, s10, 0xb00327c8, 0xe5bc3909, s11);
    var s12 := Words(0x77d37528, 0xb62ec4bc, 0xcde8037d, 0x1c2c2838, 0xedffbff8, 0xc74c6516, 0x14383d8e, 0x2823ef91);
    NextRound(ABC, 0, 27, s11, 0xbf597fc7, 0x32663c5b, s12);
    var s13 := Words(0x363482c9, 0x77d37528, 0xb62ec4bc, 0xcde8037d, 0x6112a3b7, 0xedffbff8, 0xc74c6516, 0x14383d8e);
    NextRound(ABC, 0, 28, s12, 0xc6e00bf3, 0x9d209d67, s13);
    var s14 := Words(0xa0060b30, 0x363482c9, 0x77d37528, 0xb62ec4bc, 0xade79437, 0x6112a3b7, 0xedffbff8, 0xc74c6516);
    NextRound(ABC, 0, 29, s13, 0xd5a79147, 0xec8726cb, s14);
    var s15 := Words(0xea992a22, 0xa0060b30, 0x363482c9, 0x77d37528, 0x0109ab3a, 0xade79437, 0x6112a3b7, 0xedffbff8);
    NextRound(ABC, 0, 30, s14, 0x06ca6351, 0x702138a4, s15);
    var s16 := Words(0x73b33bf5, 0xea992a22, 0xa0060b30, 0x363482c9, 0xba591112, 0x0109ab3a, 0xade79437, 0x6112a3b7);
    NextRound(ABC, 0, 31, s15, 0x14292967, 0xd3b7973b, s16);
  }

  lemma AbcRounds3()
    ensures After(ABC, 0, 48,
                  Words(0x4172328d, 0xa14c14b0, 0x72ab4b91, 0x26628815, 0xfecf0bc6, 0xd57b94a9, 0xb7755da1, 0xa80f11f0))
  {
    hide After, WordIs, KeyIs, HashIs, BlockCount;
    Short();
    AbcRounds2();
    AbcWords4();
    Keys5a();
    Keys5b();
    Keys6a();
    Keys6b();
    var s0 := Words(0x73b33bf5, 0xea992a22, 0xa0060b30, 0x363482c9, 0xba591112, 0x0109ab3a, 0xade79437, 0x6112a3b7);
    var s1 := Words(0x98e12507, 0x73b33bf5, 0xea992a22, 0xa0060b30, 0x9cd9f5f6, 0xba591112, 0x0109ab3a, 0xade79437);
    NextRound(ABC, 0, 32, s0, 0x27b70a85, 0x93f5997f, s1);
    var s2 := Words(0xfe604df5, 0x98e12507, 0x73b33bf5, 0xea992a22, 0x59249dd3, 0x9cd9f5f6, 0xba591112, 0x0109ab3a);
    NextRound(ABC, 0, 33, s1, 0x2e1b2138, 0x3b68ba73, s2);
    var s3 := Words(0xa9a7738c, 0xfe604df5, 0x98e12507, 0x73b33bf5, 0x085f3833, 0x59249dd3, 0x9cd9f5f6, 0xba591112);
    NextRound(ABC, 0, 34, s2, 0x4d2c6dfc, 0xaff4ffc1, s3);
    var s4 := Words(0x65a0cfe4, 0xa9a7738c, 0xfe604df5, 0x98e12507, 0xf4b002d6, 0x085f3833, 0x59249dd3, 0x9cd9f5f6);
    NextRound(ABC, 0, 35, s3, 0x53380d13, 0xf10a5c62, s4);
    var s5 := Words(0x41a65cb1, 0x65a0cfe4, 0xa9a7738c, 0xfe604df5, 0x0772a26b, 0xf4b002d6, 0x085f3833, 0x59249dd3);
    NextRound(ABC, 0, 36, s4, 0x650a7354, 0x0a8b3996, s5);
    var s6 := Words(0x34df1604, 0x41a65cb1, 0x65a0cfe4, 0xa9a7738c, 0xa507a53d, 0x0772a26b, 0xf4b002d6, 0x085f3833);
    NextRound(ABC, 0, 37, s5, 0x766a0abb, 0x72af830a, s6);
    var s7 := Words(0x6dc57a8a, 0x34df1604, 0x41a65cb1, 0x65a0cfe4, 0xf0781bc8, 0xa507a53d, 0x0772a26b, 0xf4b002d6);
    NextRound(ABC, 0, 38, s6, 0x81c2c92e, 0x9409e33e, s7);
    var s8 := Words(0x79ea687a, 0x6dc57a8a, 0x34df1604, 0x41a65cb1, 0x1efbc0a0, 0xf0781bc8, 0xa507a53d, 0x0772a26b);
    NextRound(ABC, 0, 39, s7, 0x92722c85, 0x24641522, s8);
    var s9 := Words(0xd6670766, 0x79ea687a, 0x6dc57a8a, 0x34df1604, 0x26352d63, 0x1efbc0a0, 0xf0781bc8, 0xa507a53d);
    NextRound(ABC, 0, 40, s8, 0xa2bfe8a1, 0x9f47bf94, s9);
    var s10 := Words(0xdf46652f, 0xd6670766, 0x79ea687a, 0x6dc57a8a, 0x838b2711, 0x26352d63, 0x1efbc0a0, 0xf0781bc8);
    NextRound(ABC, 0, 41, s9, 0xa81a664b, 0xf0a64f5a, s10);
    var s11 := Words(0x17aa0dfe, 0xdf46652f, 0xd6670766, 0x79ea687a, 0xdecd4715, 0x838b2711, 0x26352d63, 0x1efbc0a0);
    NextRound(ABC, 0, 42, s10, 0xc24b8b70, 0x3e246a79, s11);
    var s12 := Words(0x9d4baf93, 0x17aa0dfe, 0xdf46652f, 0xd6670766, 0xfda24c2e, 0xdecd4715, 0x838b2711, 0x26352d63);
    NextRound(ABC, 0, 43, s11, 0xc76c51a3, 0x27333ba3, s12);
    var s13 := Words(0x26628815, 0x9d4baf93, 0x17aa0dfe, 0xdf46652f, 0xa80f11f0, 0xfda24c2e, 0xdecd4715, 0x838b2711);
    NextRound(ABC, 0, 44, s12, 0xd192e819, 0x0c4763f2, s13);
    var s14 := Words(0x72ab4b91, 0x26628815, 0x9d4baf93, 0x17aa0dfe, 0xb7755da1, 0xa80f11f0, 0xfda24c2e, 0xdecd4715);
    NextRound(ABC, 0, 45, s13, 0xd6990624, 0x840abf27, s14);
    var s15 := Words(0xa14c14b0, 0x72ab4b91, 0x26628815, 0x9d4baf93, 0xd57b94a9, 0xb7755da1, 0xa80f11f0, 0xfda24c2e);
    NextRound(ABC, 0, 46, s14, 0xf40e3585, 0x7a290d5d, s15);
    var s16 := Words(0x4172328d, 0xa14c14b0, 0x72ab4b91, 0x26628815, 0xfecf0bc6, 0xd57b94a9, 0xb7755da1, 0xa80f11f0);
    NextRound(ABC, 0, 47, s15, 0x106aa070, 0x065c43da, s16);
  }

  lemma AbcRounds4()
    ensures After(ABC, 0, 64,
                  Words(0x506e3058, 0xd39a2165, 0x04d24d6c, 0xb85e2ce9, 0x5ef50f24, 0xfb121210, 0x948d25b6, 0x961f4894))
  {
    hide After, WordIs, KeyIs, HashIs, BlockCount;
    Short();
    AbcRounds3();
    AbcWords5();
    Keys7a();
    Keys7b();
    Keys8a();
    Keys8b();
    var s0 := Words(0x4172328d, 0xa14c14b0, 0x72ab4b91, 0x26628815, 0xfecf0bc6, 0xd57b94a9, 0xb7755da1, 0xa80f11f0);
    var s1 := Words(0x05757ceb, 0x4172328d, 0xa14c14b0, 0x72ab4b91, 0xbd714038, 0xfecf0bc6, 0xd57b94a9, 0xb7755da1);
    NextRound(ABC, 0, 48, s0, 0x19a4c116, 0xfb3e89cb, s1);
    var s2 := Words(0xf11bfaa8, 0x05757ceb, 0x4172328d, 0xa14c14b0, 0x6e5c390c, 0xbd714038, 0xfecf0bc6, 0xd57b94a9);
    NextRound(ABC, 0, 49, s1, 0x1e376c08, 0xcc7617db, s2);
    var s3 := Words(0x7a0508a1, 0xf11bfaa8, 0x05757ceb, 0x4172328d, 0x52f1ccf7, 0x6e5c390c, 0xbd714038, 0xfecf0bc6);
    NextRound(ABC, 0, 50, s2, 0x2748774c, 0xb9e66c34, s3);
    var s4 := Words(0x886e7a22, 0x7a0508a1, 0xf11bfaa8, 0x05757ceb, 0x49231c1e, 0x52f1ccf7, 0x6e5c390c, 0xbd714038);
    NextRound(ABC, 0, 51, s3, 0x34b0bcb5, 0xa9993667, s4);
    var s5 := Words(0x101fd28f, 0x886e7a22, 0x7a0508a1, 0xf11bfaa8, 0x529e7d00, 0x49231c1e, 0x52f1ccf7, 0x6e5c390c);
    NextRound(ABC, 0, 52, s4, 0x391c0cb3, 0x84badedd, s5);
    var s6 := Words(0xf5702fdb, 0x101fd28f, 0x886e7a22, 0x7a0508a1, 0x9f4787c3, 0x529e7d00, 0x49231c1e, 0x52f1ccf7);
    NextRound(ABC, 0, 53, s5, 0x4ed8aa4a, 0xc21462bc, s6);
    var s7 := Words(0x3ec45cdb, 0xf5702fdb, 0x101fd28f, 0x886e7a22, 0xe50e1b4f, 0x9f4787c3, 0x529e7d00, 0x49231c1e);
    NextRound(ABC, 0, 54, s6, 0x5b9cca4f, 0x1487472c, s7);
    var s8 := Words(0x38cc9913, 0x3ec45cdb, 0xf5702fdb, 0x101fd28f, 0x54cb266b, 0xe50e1b4f, 0x9f4787c3, 0x529e7d00);
    NextRound(ABC, 0, 55, s7, 0x682e6ff3, 0xb20f7a99, s8);
    var s9 := Words(0xfcd1887b, 0x38cc9913, 0x3ec45cdb, 0xf5702fdb, 0x9b5e906c, 0x54cb266b, 0xe50e1b4f, 0x9f4787c3);
    NextRound(ABC, 0, 56, s8, 0x748f82ee, 0xef57b9cd, s9);
    var s10 := Words(0xc062d46f, 0xfcd1887b, 0x38cc9913, 0x3ec45cdb, 0x7e44008e, 0x9b5e906c, 0x54cb266b, 0xe50e1b4f);
    NextRound(ABC, 0, 57, s9, 0x78a5636f, 0xebe6b238, s10);
    var s11 := Words(0xffb70472, 0xc062d46f, 0xfcd1887b, 0x38cc9913, 0x6d83bfc6, 0x7e44008e, 0x9b5e906c, 0x54cb266b);
    NextRound(ABC, 0, 58, s10, 0x84c87814, 0x9fe3095e, s11);
    var s12 := Words(0xb6ae8fff, 0xffb70472, 0xc062d46f, 0xfcd1887b, 0xb21bad3d, 0x6d83bfc6, 0x7e44008e, 0x9b5e906c);
    NextRound(ABC, 0, 59, s11, 0x8cc70208, 0x78bc8d4b, s12);
    var s13 := Words(0xb85e2ce9, 0xb6ae8fff, 0xffb70472, 0xc062d46f, 0x961f4894, 0xb21bad3d, 0x6d83bfc6, 0x7e44008e);
    NextRound(ABC, 0, 60, s12, 0x90befffa, 0xa43fcf15, s13);
    var s14 := Words(0x04d24d6c, 0xb85e2ce9, 0xb6ae8fff, 0xffb70472, 0x948d25b6, 0x961f4894, 0xb21bad3d, 0x6d83bfc6);
    NextRound(ABC, 0, 61, s13, 0xa4506ceb, 0x668b2ff8, s14);
    var s15 := Words(0xd39a2165, 0x04d24d6c, 0xb85e2ce9, 0xb6ae8fff, 0xfb121210, 0x948d25b6, 0x961f4894, 0xb21bad3d);
    NextRound(ABC, 0, 62, s14, 0xbef9a3f7, 0xeeaba2cc, s15);
    var s16 := Words(0x506e3058, 0xd39a2165, 0x04d24d6c, 0xb85e2ce9, 0x5ef50f24, 0xfb121210, 0x948d25b6, 0x961f4894);
    NextRound(ABC, 0, 63, s15, 0xc67178f2, 0x12b1edeb, s16);
  }

  lemma AbcHash()
    ensures HashIs(ABC, 1, Words(0xba7816bf, 0x8f01cfea, 0x414140de, 0x5dae2223, 0xb00361a3, 0x96177a9c, 0xb410ff61, 0xf20015ad))
  {
    hide After, HashIs, BlockCount;
    Short();
    AbcStart();
    AbcRounds4();
    NextHash(ABC, 0, Words(0x6a09e667, 0xbb67ae85, 0x3c6ef372, 0xa54ff53a, 0x510e527f, 0x9b05688c, 0x1f83d9ab, 0x5be0cd19),
             Words(0x506e3058, 0xd39a2165, 0x04d24d6c, 0xb85e2ce9, 0x5ef50f24, 0xfb121210, 0x948d25b6, 0x961f4894),
             Words(0xba7816bf, 0x8f01cfea, 0x414140de, 0x5dae2223, 0xb00361a3, 0x96177a9c, 0xb410ff61, 0xf20015ad));
  }

  lemma DigestOfAbcNumsa()
    ensures Num(0xba7816bf) == 0xba7816bf && Num(0x8f01cfea) == 0x8f01cfea
    ensures Num(0x414140de) == 0x414140de && Num(0x5dae2223) == 0x5dae2223
  {
    hide Num;
    Is(0xba7816bf, 0xba7816bf);
    Is(0x8f01cfea, 0x8f01cfea);
    Is(0x414140de, 0x414140de);
    Is(0x5dae2223, 0x5dae2223);
  }

  lemma DigestOfAbcNumsb()
    ensures Num(0xb00361a3) == 0xb00361a3 && Num(0x96177a9c) == 0x96177a9c
    ensures Num(0xb410ff61) == 0xb410ff61 && Num(0xf20015ad) == 0xf20015ad
  {
    hide Num;
    Is(0xb00361a3, 0xb00361a3);
    Is(0x96177a9c, 0x96177a9c);
    Is(0xb410ff61, 0xb410ff61);
    Is(0xf20015ad, 0xf20015ad);
  }

  lemma DigestOfAbcNums()
    ensures Nums(Words(0xba7816bf, 0x8f01cfea, 0x414140de, 0x5dae2223, 0xb00361a3, 0x96177a9c, 0xb410ff61, 0xf20015ad))
            == State(0xba7816bf, 0x8f01cfea, 0x414140de, 0x5dae2223, 0xb00361a3, 0x96177a9c, 0xb410ff61, 0xf20015ad)
  {
    hide Num;
    DigestOfAbcNumsa();
    DigestOfAbcNumsb();
  }

  /** The digest of "abc". */
  lemma DigestOfAbc()
    ensures Sha256(ABC) == [0xba, 0x78, 0x16, 0xbf, 0x8f, 0x01, 0xcf, 0xea, 0x41, 0x41, 0x40, 0xde, 0x5d, 0xae, 0x22, 0x23,
                              0xb0, 0x03, 0x61, 0xa3, 0x96, 0x17, 0x7a, 0x9c, 0xb4, 0x10, 0xff, 0x61, 0xf2, 0x00, 0x15, 0xad]
  {
    hide HashValue, WordBytes, BlockCount, HashIs, Nums;
    Short();
    AbcHash();
    HashAt(ABC, 1, Words(0xba7816bf, 0x8f01cfea, 0x414140de, 0x5dae2223, 0xb00361a3, 0x96177a9c, 0xb410ff61, 0xf20015ad));
    DigestOfAbcNums();
    BytesOf(0xba7816bf, 0xba, 0x78, 0x16, 0xbf);
    BytesOf(0x8f01cfea, 0x8f, 0x01, 0xcf, 0xea);
    BytesOf(0x414140de, 0x41, 0x41, 0x40, 0xde);
    BytesOf(0x5dae2223, 0x5d, 0xae, 0x22, 0x23);
    BytesOf(0xb00361a3, 0xb0, 0x03, 0x61, 0xa3);
    BytesOf(0x96177a9c, 0x96, 0x17, 0x7a, 0x9c);
    BytesOf(0xb410ff61, 0xb4, 0x10, 0xff, 0x61);
    BytesOf(0xf20015ad, 0xf2, 0x00, 0x15, 0xad);
  }

  // ---- two blocks ----

  lemma OneStart()
    ensures HashIs(LETTERS, 0,
                   Words(0x6a09e667, 0xbb67ae85, 0x3c6ef372, 0xa54ff53a, 0x510e527f, 0x9b05688c, 0x1f83d9ab, 0x5be0cd19))
  {
    hide HashIs;
    InitialNums();
    FirstHash(LETTERS, Words(0x6a09e667, 0xbb67ae85, 0x3c6ef372, 0xa54ff53a, 0x510e527f, 0x9b05688c, 0x1f83d9ab, 0x5be0cd19));
  }

  lemma OneWords1a()
    ensures WordIs(LETTERS, 0, 0, 0x61626364) && WordIs(LETTERS, 0, 1, 0x62636465)
    ensures WordIs(LETTERS, 0, 2, 0x63646566) && WordIs(LETTERS, 0, 3, 0x64656667)
  {
    hide WordIs, BlockCount;
    LettersRead(0, 0, 0x61626364);
    LettersRead(0, 1, 0x62636465);
    LettersRead(0, 2, 0x63646566);
    LettersRead(0, 3, 0x64656667);
  }

  lemma OneWords1b()
    ensures WordIs(LETTERS, 0, 4, 0x65666768) && WordIs(LETTERS, 0, 5, 0x66676869)
    ensures WordIs(LETTERS, 0, 6, 0x6768696a) && WordIs(LETTERS, 0, 7, 0x68696a6b)
  {
    hide WordIs, BlockCount;
    LettersRead(0, 4, 0x65666768);
    LettersRead(0, 5, 0x66676869);
    LettersRead(0, 6, 0x6768696a);
    LettersRead(0, 7, 0x68696a6b);
  }

  lemma OneWords2a()
    ensures WordIs(LETTERS, 0, 8, 0x696a6b6c) && WordIs(LETTERS, 0, 9, 0x6a6b6c6d)
    ensures WordIs(LETTERS, 0, 10, 0x6b6c6d6e) && WordIs(LETTERS, 0, 11, 0x6c6d6e6f)
  {
    hide WordIs, BlockCount;
    LettersRead(0, 8, 0x696a6b6c);
    LettersRead(0, 9, 0x6a6b6c6d);
    LettersRead(0, 10, 0x6b6c6d6e);
    LettersRead(0, 11, 0x6c6d6e6f);
  }

  lemma OneWords2b()
    ensures WordIs(LETTERS, 0, 12, 0x6d6e6f70) && WordIs(LETTERS, 0, 13, 0x6e6f7071)
    ensures WordIs(LETTERS, 0, 14, 0x80000000) && WordIs(LETTERS, 0, 15, 0x00000000)
  {
    hide WordIs, BlockCount;
    LettersRead(0, 12, 0x6d6e6f70);
    LettersRead(0, 13, 0x6e6f7071);
    LettersRead(0, 14, 0x80000000);
    LettersRead(0, 15, 0x00000000);
  }

  lemma OneWords3()
    ensures WordIs(LETTERS, 0, 16, 0xeb8012ad) && WordIs(LETTERS, 0, 17, 0xa7c3ae92)
    ensures WordIs(LETTERS, 0, 18, 0x76e93ba2) && WordIs(LETTERS, 0, 19, 0xba42e743)
    ensures WordIs(LETTERS, 0, 20, 0x92a92204) && WordIs(LETTERS, 0, 21, 0xd847e75e)
    ensures WordIs(LETTERS, 0, 22, 0x9e160036) && WordIs(LETTERS, 0, 23, 0xb280a7cb)
    ensures WordIs(LETTERS, 0, 24, 0xddeb1516) && WordIs(LETTERS, 0, 25, 0xf36586f4)
    ensures WordIs(LETTERS, 0, 26, 0x969cd048) && WordIs(LETTERS, 0, 27, 0xe959d99d)
    ensures WordIs(LETTERS, 0, 28, 0x6accc0ec) && WordIs(LETTERS, 0, 29, 0xf54cb098)
    ensures WordIs(LETTERS, 0, 30, 0x2af1b2da) && WordIs(LETTERS, 0, 31, 0xee59c4c9)
  {
    hide WordIs, BlockCount;
    Long();
    OneWords1a();
    OneWords1b();
    OneWords2a();
    OneWords2b();
    WordNext(LETTERS, 0, 16, 0x80000000, 0x6a6b6c6d, 0x62636465, 0x61626364, 0xeb8012ad);
    WordNext(LETTERS, 0, 17, 0x00000000, 0x6b6c6d6e, 0x63646566, 0x62636465, 0xa7c3ae92);
    WordNext(LETTERS, 0, 18, 0xeb8012ad, 0x6c6d6e6f, 0x64656667, 0x63646566, 0x76e93ba2);
    WordNext(LETTERS, 0, 19, 0xa7c3ae92, 0x6d6e6f70, 0x65666768, 0x64656667, 0xba42e743);
    WordNext(LETTERS, 0, 20, 0x76e93ba2, 0x6e6f7071, 0x66676869, 0x65666768, 0x92a92204);
    WordNext(LETTERS, 0, 21, 0xba42e743, 0x80000000, 0x6768696a, 0x66676869, 0xd847e75e);
    WordNext(LETTERS, 0, 22, 0x92a92204, 0x00000000, 0x68696a6b, 0x6768696a, 0x9e160036);
    WordNext(LETTERS, 0, 23, 0xd847e75e, 0xeb8012ad, 0x696a6b6c, 0x68696a6b, 0xb280a7cb);
    WordNext(LETTERS, 0, 24, 0x9e160036, 0xa7c3ae92, 0x6a6b6c6d, 0x696a6b6c, 0xddeb1516);
    WordNext(LETTERS, 0, 25, 0xb280a7cb, 0x76e93ba2, 0x6b6c6d6e, 0x6a6b6c6d, 0xf36586f4);
    WordNext(LETTERS, 0, 26, 0xddeb1516, 0xba42e743, 0x6c6d6e6f, 0x6b6c6d6e, 0x969cd048);
    WordNext(LETTERS, 0, 27, 0xf36586f4, 0x92a92204, 0x6d6e6f70, 0x6c6d6e6f, 0xe959d99d);
    WordNext(LETTERS, 0, 28, 0x969cd048, 0xd847e75e, 0x6e6f7071, 0x6d6e6f70, 0x6accc0ec);
    WordNext(LETTERS, 0, 29, 0xe959d99d, 0x9e160036, 0x80000000, 0x6e6f7071, 0xf54cb098);
    WordNext(LETTERS, 0, 30, 0x6accc0ec, 0xb280a7cb, 0x00000000, 0x80000000, 0x2af1b2da);
    WordNext(LETTERS, 0, 31, 0xf54cb098, 0xddeb1516, 0xeb8012ad, 0x00000000, 0xee59c4c9);
  }

  lemma OneWords4()
    ensures WordIs(LETTERS, 0, 32, 0xa835e16a) && WordIs(LETTERS, 0, 33, 0x1dff4429)
    ensures WordIs(LETTERS, 0, 34, 0xd6e15959) && WordIs(LETTERS, 0, 35, 0xc397cd6e)
    ensures WordIs(LETTERS, 0, 36, 0x6f1801ca) && WordIs(LETTERS, 0, 37, 0x21574205)
    ensures WordIs(LETTERS, 0, 38, 0x35ff7a84) && WordIs(LETTERS, 0, 39, 0x9743ee78)
    ensures WordIs(LETTERS, 0, 40, 0xe44183e7) && WordIs(LETTERS, 0, 41, 0x0d09f00d)
    ensures WordIs(LETTERS, 0, 42, 0x9c89af54) && WordIs(LETTERS, 0, 43, 0x042d5bef)
    ensures WordIs(LETTERS, 0, 44, 0x71f134d0) && WordIs(LETTERS, 0, 45, 0x0f94f463)
    ensures WordIs(LETTERS, 0, 46, 0x7e49dc63) && WordIs(LETTERS, 0, 47, 0x6f65c997)
  {
    hide WordIs, BlockCount;
    Long();
    OneWords3();
    WordNext(LETTERS, 0, 32, 0x2af1b2da, 0xf36586f4, 0xa7c3ae92, 0xeb8012ad, 0xa835e16a);
    WordNext(LETTERS, 0, 33, 0xee59c4c9, 0x969cd048, 0x76e93ba2, 0xa7c3ae92, 0x1dff4429);
    WordNext(LETTERS, 0, 34, 0xa835e16a, 0xe959d99d, 0xba42e743, 0x76e93ba2, 0xd6e15959);
    WordNext(LETTERS, 0, 35, 0x1dff4429, 0x6accc0ec, 0x92a92204, 0xba42e743, 0xc397cd6e);
    WordNext(LETTERS, 0, 36, 0xd6e15959, 0xf54cb098, 0xd847e75e, 0x92a92204, 0x6f1801ca);
    WordNext(LETTERS, 0, 37, 0xc397cd6e, 0x2af1b2da, 0x9e160036, 0xd847e75e, 0x21574205);
    WordNext(LETTERS, 0, 38, 0x6f1801ca, 0xee59c4c9, 0xb280a7cb, 0x9e160036, 0x35ff7a84);
    WordNext(LETTERS, 0, 39, 0x21574205, 0xa835e16a, 0xddeb1516, 0xb280a7cb, 0x9743ee78);
    WordNext(LETTERS, 0, 40, 0x35ff7a84, 0x1dff4429, 0xf36586f4, 0xddeb1516, 0xe44183e7);
    WordNext(LETTERS, 0, 41, 0x9743ee78, 0xd6e15959, 0x969cd048, 0xf36586f4, 0x0d09f00d);
    WordNext(LETTERS, 0, 42, 0xe44183e7, 0xc397cd6e, 0xe959d99d, 0x969cd048, 0x9c89af54);
    WordNext(LETTERS, 0, 43, 0x0d09f00d, 0x6f1801ca, 0x6accc0ec, 0xe959d99d, 0x042d5bef);
    WordNext(LETTERS, 0, 44, 0x9c89af54, 0x21574205, 0xf54cb098, 0x6accc0ec, 0x71f134d0);
    WordNext(LETTERS, 0, 45, 0x042d5bef, 0x35ff7a84, 0x2af1b2da, 0xf54cb098, 0x0f94f463);
    WordNext(LETTERS, 0, 46, 0x71f134d0, 0x9743ee78, 0xee59c4c9, 0x2af1b2da, 0x7e49dc63);
    WordNext(LETTERS, 0, 47, 0x0f94f463, 0xe44183e7, 0xa835e16a, 0xee59c4c9, 0x6f65c997);
  }

  lemma OneWords5()
    ensures WordIs(LETTERS, 0, 48, 0x0b706583) && WordIs(LETTERS, 0, 49, 0x179312ca)
    ensures WordIs(LETTERS, 0, 50, 0x503054e9) && WordIs(LETTERS, 0, 51, 0xba125c39)
    ensures WordIs(LETTERS, 0, 52, 0x7e9392c9) && WordIs(LETTERS, 0, 53, 0xd5cbaa1e)
    ensures WordIs(LETTERS, 0, 54, 0x78e0585d) && WordIs(LETTERS, 0, 55, 0xf6e7611c)
    ensures WordIs(LETTERS, 0, 56, 0x8ac830ce) && WordIs(LETTERS, 0, 57, 0x8b47a303)
    ensures WordIs(LETTERS, 0, 58, 0xfd6e627f) && WordIs(LETTERS, 0, 59, 0x8c6e2c6a)
    ensures WordIs(LETTERS, 0, 60, 0x4001adf1) && WordIs(LETTERS, 0, 61, 0x1a3dd097)
    ensures WordIs(LETTERS, 0, 62, 0xa9df6f62) && WordIs(LETTERS, 0, 63, 0x6aa60a39)
  {
    hide WordIs, BlockCount;
    Long();
    OneWords4();
    WordNext(LETTERS, 0, 48, 0x7e49dc63, 0x0d09f00d, 0x1dff4429, 0xa835e16a, 0x0b706583);
    WordNext(LETTERS, 0, 49, 0x6f65c997, 0x9c89af54, 0xd6e15959, 0x1dff4429, 0x179312ca);
    WordNext(LETTERS, 0, 50, 0x0b706583, 0x042d5bef, 0xc397cd6e, 0xd6e15959, 0x503054e9);
    WordNext(LETTERS, 0, 51, 0x179312ca, 0x71f134d0, 0x6f1801ca, 0xc397cd6e, 0xba125c39);
    WordNext(LETTERS, 0, 52, 0x503054e9, 0x0f94f463, 0x21574205, 0x6f1801ca, 0x7e9392c9);
    WordNext(LETTERS, 0, 53, 0xba125c39, 0x7e49dc63, 0x35ff7a84, 0x21574205, 0xd5cbaa1e);
    WordNext(LETTERS, 0, 54, 0x7e9392c9, 0x6f65c997, 0x9743ee78, 0x35ff7a84, 0x78e0585d);
    WordNext(LETTERS, 0, 55, 0xd5cbaa1e, 0x0b706583, 0xe44183e7, 0x9743ee78, 0xf6e7611c);
    WordNext(LETTERS, 0, 56, 0x78e0585d, 0x179312ca, 0x0d09f00d, 0xe44183e7, 0x8ac830ce);
    WordNext(LETTERS, 0, 57, 0xf6e7611c, 0x503054e9, 0x9c89af54, 0x0d09f00d, 0x8b47a303);
    WordNext(LETTERS, 0, 58, 0x8ac830ce, 0xba125c39, 0x042d5bef, 0x9c89af54, 0xfd6e627f);
    WordNext(LETTERS, 0, 59, 0x8b47a303, 0x7e9392c9, 0x71f134d0, 0x042d5bef, 0x8c6e2c6a);
    WordNext(LETTERS, 0, 60, 0xfd6e627f, 0xd5cbaa1e, 0x0f94f463, 0x71f134d0, 0x4001adf1);
    WordNext(LETTERS, 0, 61, 0x8c6e2c6a, 0x78e0585d, 0x7e49dc63, 0x0f94f463, 0x1a3dd097);
    WordNext(LETTERS, 0, 62, 0x4001adf1, 0xf6e7611c, 0x6f65c997, 0x7e49dc63, 0xa9df6f62);
    WordNext(LETTERS, 0, 63, 0x1a3dd097, 0x8ac830ce, 0x0b706583, 0x6f65c997, 0x6aa60a39);
  }

  lemma OneRounds1()
    ensures After(LETTERS, 0, 16,
                  Words(0xc3486194, 0xdd16cbb3, 0xd68e6457, 0x101a4861, 0x1496a54f, 0x9162aded, 0x9243f8af, 0x839a0fc9))
  {
    hide After, WordIs, KeyIs, HashIs, BlockCount;
    Long();
    OneStart();
    FirstRound(LETTERS, 0, Words(0x6a09e667, 0xbb67ae85, 0x3c6ef372, 0xa54ff53a, 0x510e527f, 0x9b05688c, 0x1f83d9ab, 0x5be0cd19));
    OneWords1a();
    OneWords1b();
    Keys1a();
    Keys1b();
    OneWords2a();
    OneWords2b();
    Keys2a();
    Keys2b();
    var s0 := Words(0x6a09e667, 0xbb67ae85, 0x3c6ef372, 0xa54ff53a, 0x510e527f, 0x9b05688c, 0x1f83d9ab, 0x5be0cd19);
    var s1 := Words(0x5d6aebb1, 0x6a09e667, 0xbb67ae85, 0x3c6ef372, 0xfa2a4606, 0x510e527f, 0x9b05688c, 0x1f83d9ab);
    NextRound(LETTERS, 0, 0, s0, 0x428a2f98, 0x61626364, s1);
    var s2 := Words(0x2f2d5fcf, 0x5d6aebb1, 0x6a09e667, 0xbb67ae85, 0x4eb1cfce, 0xfa2a4606, 0x510e527f, 0x9b05688c);
    NextRound(LETTERS, 0, 1, s1, 0x71374491, 0x62636465, s2);
    var s3 := Words(0x97651825, 0x2f2d5fcf, 0x5d6aebb1, 0x6a09e667, 0x62d5c49e, 0x4eb1cfce, 0xfa2a4606, 0x510e527f);
    NextRound(LETTERS, 0, 2, s2, 0xb5c0fbcf, 0x63646566, s3);
    var s4 := Words(0x4a8d64d5, 0x97651825, 0x2f2d5fcf, 0x5d6aebb1, 0x6494841b, 0x62d5c49e, 0x4eb1cfce, 0xfa2a4606);
    NextRound(LETTERS, 0, 3, s3, 0xe9b5dba5, 0x64656667, s4);
    var s5 := Words(0xf921c212, 0x4a8d64d5, 0x97651825, 0x2f2d5fcf, 0x05c4f88a, 0x6494841b, 0x62d5c49e, 0x4eb1cfce);
    NextRound(LETTERS, 0, 4, s4, 0x3956c25b, 0x65666768, s5);
    var s6 := Words(0x55c8ef48, 0xf921c212, 0x4a8d64d5, 0x97651825, 0x7ff91c94, 0x05c4f88a, 0x6494841b, 0x62d5c49e);
    NextRound(LETTERS, 0, 5, s5, 0x59f111f1, 0x66676869, s6);
    var s7 := Words(0x485835b7, 0x55c8ef48, 0xf921c212, 0x4a8d64d5, 0x39a5b2ca, 0x7ff91c94, 0x05c4f88a, 0x6494841b);
    NextRound(LETTERS, 0, 6, s6, 0x923f82a4, 0x6768696a, s7);
    var s8 := Words(0xd237e6db, 0x485835b7, 0x55c8ef48, 0xf921c212, 0xa401d211, 0x39a5b2ca, 0x7ff91c94, 0x05c4f88a);
    NextRound(LETTERS, 0, 7, s7, 0xab1c5ed5, 0x68696a6b, s8);
    var s9 := Words(0x359f2bce, 0xd237e6db, 0x485835b7, 0x55c8ef48, 0xc09ffec4, 0xa401d211, 0x39a5b2ca, 0x7ff91c94);
    NextRound(LETTERS, 0, 8, s8, 0xd807aa98, 0x696a6b6c, s9);
    var s10 := Words(0x3a474b2b, 0x359f2bce, 0xd237e6db, 0x485835b7, 0x9037b3b8, 0xc09ffec4, 0xa401d211, 0x39a5b2ca);
    NextRound(LETTERS, 0, 9, s9, 0x12835b01, 0x6a6b6c6d, s10);
    var s11 := Words(0xb8e2b4cb, 0x3a474b2b, 0x359f2bce, 0xd237e6db, 0x443ed29e, 0x9037b3b8, 0xc09ffec4, 0xa401d211);
    NextRound(LETTERS, 0, 10, s10, 0x243185be, 0x6b6c6d6e, s11);
    var s12 := Words(0x1762215c, 0xb8e2b4cb, 0x3a474b2b, 0x359f2bce, 0xee1c97a8, 0x443ed29e, 0x9037b3b8, 0xc09ffec4);
    NextRound(LETTERS, 0, 11, s11, 0x550c7dc3, 0x6c6d6e6f, s12);
    var s13 := Words(0x101a4861, 0x1762215c, 0xb8e2b4cb, 0x3a474b2b, 0x839a0fc9, 0xee1c97a8, 0x443ed29e, 0x9037b3b8);
    NextRound(LETTERS, 0, 12, s12, 0x72be5d74, 0x6d6e6f70, s13);
    var s14 := Words(0xd68e6457, 0x101a4861, 0x1762215c, 0xb8e2b4cb, 0x9243f8af, 0x839a0fc9, 0xee1c97a8, 0x443ed29e);
    NextRound(LETTERS, 0, 13, s13, 0x80deb1fe, 0x6e6f7071, s14);
    var s15 := Words(0xdd16cbb3, 0xd68e6457, 0x101a4861, 0x1762215c, 0x9162aded, 0x9243f8af, 0x839a0fc9, 0xee1c97a8);
    NextRound(LETTERS, 0, 14, s14, 0x9bdc06a7, 0x80000000, s15);
    var s16 := Words(0xc3486194, 0xdd16cbb3, 0xd68e6457, 0x101a4861, 0x1496a54f, 0x9162aded, 0x9243f8af, 0x839a0fc9);
    NextRound(LETTERS, 0, 15, s15, 0xc19bf174, 0x00000000, s16);
  }

  lemma OneRounds2()
    ensures After(LETTERS, 0, 32,
                  Words(0x5581ab07, 0xeb43f3ed, 0xdf7151a0, 0x74bcf468, 0xdf980085, 0x0635d880, 0x7629c961, 0x72abaecd))
  {
    hide After, WordIs, KeyIs, HashIs, BlockCount;
    Long();
    OneRounds1();
    OneWords3();
    Keys3a();
    Keys3b();
    Keys4a();
    Keys4b();
    var s0 := Words(0xc3486194, 0xdd16cbb3, 0xd68e6457, 0x101a4861, 0x1496a54f, 0x9162aded, 0x9243f8af, 0x839a0fc9);
    var s1 := Words(0xb9dcacb1, 0xc3486194, 0xdd16cbb3, 0xd68e6457, 0xd4f64250, 0x1496a54f, 0x9162aded, 0x9243f8af);
    NextRound(LETTERS, 0, 16, s0, 0xe49b69c1, 0xeb8012ad, s1);
    var s2 := Words(0x046a193e, 0xb9dcacb1, 0xc3486194, 0xdd16cbb3, 0x885370b6, 0xd4f64250, 0x1496a54f, 0x9162aded);
    NextRound(LETTERS, 0, 17, s1, 0xefbe4786, 0xa7c3ae92, s2);
    var s3 := Words(0xf402f058, 0x046a193e, 0xb9dcacb1, 0xc3486194, 0x6f433549, 0x885370b6, 0xd4f64250, 0x1496a54f);
    NextRound(LETTERS, 0, 18, s2, 0x0fc19dc6, 0x76e93ba2, s3);
    var s4 := Words(0x2139187b, 0xf402f058, 0x046a193e, 0xb9dcacb1, 0x7c304206, 0x6f433549, 0x885370b6, 0xd4f64250);
    NextRound(LETTERS, 0, 19, s3, 0x240ca1cc, 0xba42e743, s4);
    var s5 := Words(0xd70ac17d, 0x2139187b, 0xf402f058, 0x046a193e, 0x7cc6b262, 0x7c304206, 0x6f433549, 0x885370b6);
    NextRound(LETTERS, 0, 20, s4, 0x2de92c6f, 0x92a92204, s5);
    var s6 := Words(0x1b2b66b8, 0xd70ac17d, 0x2139187b, 0xf402f058, 0xd560b028, 0x7cc6b262, 0x7c304206, 0x6f433549);
    NextRound(LETTERS, 0, 21, s5, 0x4a7484aa, 0xd847e75e, s6);
    var s7 := Words(0xae2e2d4f, 0x1b2b66b8, 0xd70ac17d, 0x2139187b, 0xf074fc95, 0xd560b028, 0x7cc6b262, 0x7c304206);
    NextRound(LETTERS, 0, 22, s6, 0x5cb0a9dc, 0x9e160036, s7);
    var s8 := Words(0x59fce6b9, 0xae2e2d4f, 0x1b2b66b8, 0xd70ac17d, 0xa2c7d51d, 0xf074fc95, 0xd560b028, 0x7cc6b262);
    NextRound(LETTERS, 0, 23, s7, 0x76f988da, 0xb280a7cb, s8);
    var s9 := Words(0x4a885065, 0x59fce6b9, 0xae2e2d4f, 0x1b2b66b8, 0x763597fb, 0xa2c7d51d, 0xf074fc95, 0xd560b028);
    NextRound(LETTERS, 0, 24, s8, 0x983e5152, 0xddeb1516, s9);
    var s10 := Words(0x573221da, 0x4a885065, 0x59fce6b9, 0xae2e2d4f, 0x36e74eb4, 0x763597fb, 0xa2c7d51d, 0xf074fc95);
    NextRound(LETTERS, 0, 25, s9, 0xa831c66d, 0xf36586f4, s10);
    var s11 := Words(0x128661da, 0x573221da, 0x4a885065, 0x59fce6b9, 0x1162d575, 0x36e74eb4, 0x763597fb, 0xa2c7d51d);
    NextRound(LETTERS, 0, 26, s10, 0xb00327c8, 0x969cd048, s11);
    var s12 := Words(0x73f858af, 0x128661da, 0x573221da, 0x4a885065, 0xe77c797f, 0x1162d575, 0x36e74eb4, 0x763597fb);
    NextRound(LETTERS, 0, 27, s11, 0xbf597fc7, 0xe959d99d, s12);
    var s13 := Words(0x74bcf468, 0x73f858af, 0x128661da, 0x573221da, 0x72abaecd, 0xe77c797f, 0x1162d575, 0x36e74eb4);
    NextRound(LETTERS, 0, 28, s12, 0xc6e00bf3, 0x6accc0ec, s13);
    var s14 := Words(0xdf7151a0, 0x74bcf468, 0x73f858af, 0x128661da, 0x7629c961, 0x72abaecd, 0xe77c797f, 0x1162d575);
    NextRound(LETTERS, 0, 29, s13, 0xd5a79147, 0xf54cb098, s14);
    var s15 := Words(0xeb43f3ed, 0xdf7151a0, 0x74bcf468, 0x73f858af, 0x0635d880, 0x7629c961, 0x72abaecd, 0xe77c797f);
    NextRound(LETTERS, 0, 30, s14, 0x06ca6351, 0x2af1b2da, s15);
    var s16 := Words(0x5581ab07, 0xeb43f3ed, 0xdf7151a0, 0x74bcf468, 0xdf980085, 0x0635d880, 0x7629c961, 0x72abaecd);
    NextRound(LETTERS, 0, 31, s15, 0x14292967, 0xee59c4c9, s16);
  }

  lemma OneRounds3()
    ensures After(LETTERS, 0, 48,
                  Words(0x13d82741, 0x165be9cd, 0x18f0d19d, 0xde71e2f2, 0xa7802a4d, 0xa483f080, 0x6b88472c, 0xff61c636))
  {
    hide After, WordIs, KeyIs, HashIs, BlockCount;
    Long();
    OneRounds2();
    OneWords4();
    Keys5a();
    Keys5b();
    Keys6a();
    Keys6b();
    var s0 := Words(0x5581ab07, 0xeb43f3ed, 0xdf7151a0, 0x74bcf468, 0xdf980085, 0x0635d880, 0x7629c961, 0x72abaecd);
    var s1 := Words(0x9fc905c8, 0x5581ab07, 0xeb43f3ed, 0xdf7151a0, 0xa94d2af1, 0xdf980085, 0x0635d880, 0x7629c961);
    NextRound(LETTERS, 0, 32, s0, 0x27b70a85, 0xa835e16a, s1);
    var s2 := Words(0x9ce5a62f, 0x9fc905c8, 0x5581ab07, 0xeb43f3ed, 0x6ef3b6bd, 0xa94d2af1, 0xdf980085, 0x0635d880);
    NextRound(LETTERS, 0, 33, s1, 0x2e1b2138, 0x1dff4429, s2);
    var s3 := Words(0x1df8e885, 0x9ce5a62f, 0x9fc905c8, 0x5581ab07, 0x2a9e048e, 0x6ef3b6bd, 0xa94d2af1, 0xdf980085);
    NextRound(LETTERS, 0, 34, s2, 0x4d2c6dfc, 0xd6e15959, s3);
    var s4 := Words(0x0786dce8, 0x1df8e885, 0x9ce5a62f, 0x9fc905c8, 0xde2a21d1, 0x2a9e048e, 0x6ef3b6bd, 0xa94d2af1);
    NextRound(LETTERS, 0, 35, s3, 0x53380d13, 0xc397cd6e, s4);
    var s5 := Words(0x2c55d3a6, 0x0786dce8, 0x1df8e885, 0x9ce5a62f, 0xb067c1af, 0xde2a21d1, 0x2a9e048e, 0x6ef3b6bd);
    NextRound(LETTERS, 0, 36, s4, 0x650a7354, 0x6f1801ca, s5);
    var s6 := Words(0xa985b4be, 0x2c55d3a6, 0x0786dce8, 0x1df8e885, 0xf72bf353, 0xb067c1af, 0xde2a21d1, 0x2a9e048e);
    NextRound(LETTERS, 0, 37, s5, 0x766a0abb, 0x21574205, s6);
    var s7 := Words(0x91ac9d5d, 0xa985b4be, 0x2c55d3a6, 0x0786dce8, 0x68d8d590, 0xf72bf353, 0xb067c1af, 0xde2a21d1);
    NextRound(LETTERS, 0, 38, s6, 0x81c2c92e, 0x35ff7a84, s7);
    var s8 := Words(0x7e4d30b8, 0x91ac9d5d, 0xa985b4be, 0x2c55d3a6, 0x9f5b9b6d, 0x68d8d590, 0xf72bf353, 0xb067c1af);
    NextRound(LETTERS, 0, 39, s7, 0x92722c85, 0x9743ee78, s8);
    var s9 := Words(0x7e056794, 0x7e4d30b8, 0x91ac9d5d, 0xa985b4be, 0x423b26c0, 0x9f5b9b6d, 0x68d8d590, 0xf72bf353);
    NextRound(LETTERS, 0, 40, s8, 0xa2bfe8a1, 0xe44183e7, s9);
    var s10 := Words(0x508a16ab, 0x7e056794, 0x7e4d30b8, 0x91ac9d5d, 0x45459d97, 0x423b26c0, 0x9f5b9b6d, 0x68d8d590);
    NextRound(LETTERS, 0, 41, s9, 0xa81a664b, 0x0d09f00d, s10);
    var s11 := Words(0xb62c7013, 0x508a16ab, 0x7e056794, 0x7e4d30b8, 0x80a92a00, 0x45459d97, 0x423b26c0, 0x9f5b9b6d);
    NextRound(LETTERS, 0, 42, s10, 0xc24b8b70, 0x9c89af54, s11);
    var s12 := Words(0x167361de, 0xb62c7013, 0x508a16ab, 0x7e056794, 0x41dd3844, 0x80a92a00, 0x45459d97, 0x423b26c0);
    NextRound(LETTERS, 0, 43, s11, 0xc76c51a3, 0x042d5bef, s12);
    var s13 := Words(0xde71e2f2, 0x167361de, 0xb62c7013, 0x508a16ab, 0xff61c636, 0x41dd3844, 0x80a92a00, 0x45459d97);
    NextRound(LETTERS, 0, 44, s12, 0xd192e819, 0x71f134d0, s13);
    var s14 := Words(0x18f0d19d, 0xde71e2f2, 0x167361de, 0xb62c7013, 0x6b88472c, 0xff61c636, 0x41dd3844, 0x80a92a00);
    NextRound(LETTERS, 0, 45, s13, 0xd6990624, 0x0f94f463, s14);
    var s15 := Words(0x165be9cd, 0x18f0d19d, 0xde71e2f2, 0x167361de, 0xa483f080, 0x6b88472c, 0xff61c636, 0x41dd3844);
    NextRound(LETTERS, 0, 46, s14, 0xf40e3585, 0x7e49dc63, s15);
    var s16 := Words(0x13d82741, 0x165be9cd, 0x18f0d19d, 0xde71e2f2, 0xa7802a4d, 0xa483f080, 0x6b88472c, 0xff61c636);
    NextRound(LETTERS, 0, 47, s15, 0x106aa070, 0x6f65c997, s16);
  }

  lemma OneRounds4()
    ensures After(LETTERS, 0, 64,
                  Words(0x1bdc6f6f, 0x86126910, 0xf6f443f8, 0xbcfce922, 0x25d2430a, 0x2fc08f85, 0xacc75916, 0x962d8621))
  {
    hide After, WordIs, KeyIs, HashIs, BlockCount;
    Long();
    OneRounds3();
    OneWords5();
    Keys7a();
    Keys7b();
    Keys8a();
    Keys8b();
    var s0 := Words(0x13d82741, 0x165be9cd, 0x18f0d19d, 0xde71e2f2, 0xa7802a4d, 0xa483f080, 0x6b88472c, 0xff61c636);
    var s1 := Words(0x017b9d99, 0x13d82741, 0x165be9cd, 0x18f0d19d, 0xaeb10b60, 0xa7802a4d, 0xa483f080, 0x6b88472c);
    NextRound(LETTERS, 0, 48, s0, 0x19a4c116, 0x0b706583, s1);
    var s2 := Words(0x543c99a1, 0x017b9d99, 0x13d82741, 0x165be9cd, 0x16f134b6, 0xaeb10b60, 0xa7802a4d, 0xa483f080);
    NextRound(LETTERS, 0, 49, s1, 0x1e376c08, 0x179312ca, s2);
    var s3 := Words(0x758ca97a, 0x543c99a1, 0x017b9d99, 0x13d82741, 0x100cf2ea, 0x16f134b6, 0xaeb10b60, 0xa7802a4d);
    NextRound(LETTERS, 0, 50, s2, 0x2748774c, 0x503054e9, s3);
    var s4 := Words(0x81c1cde0, 0x758ca97a, 0x543c99a1, 0x017b9d99, 0x5c47eb7b, 0x100cf2ea, 0x16f134b6, 0xaeb10b60);
    NextRound(LETTERS, 0, 51, s3, 0x34b0bcb5, 0xba125c39, s4);
    var s5 := Words(0xb8d55619, 0x81c1cde0, 0x758ca97a, 0x543c99a1, 0x1c806a61, 0x5c47eb7b, 0x100cf2ea, 0x16f134b6);
    NextRound(LETTERS, 0, 52, s4, 0x391c0cb3, 0x7e9392c9, s5);
    var s6 := Words(0x1d6de87a, 0xb8d55619, 0x81c1cde0, 0x758ca97a, 0x3443bed4, 0x1c806a61, 0x5c47eb7b, 0x100cf2ea);
    NextRound(LETTERS, 0, 53, s5, 0x4ed8aa4a, 0xd5cbaa1e, s6);
    var s7 := Words(0xf907b313, 0x1d6de87a, 0xb8d55619, 0x81c1cde0, 0x61a41711, 0x3443bed4, 0x1c806a61, 0x5c47eb7b);
    NextRound(LETTERS, 0, 54, s6, 0x5b9cca4f, 0x78e0585d, s7);
    var s8 := Words(0x9e57c4a0, 0xf907b313, 0x1d6de87a, 0xb8d55619, 0xeec13548, 0x61a41711, 0x3443bed4, 0x1c806a61);
    NextRound(LETTERS, 0, 55, s7, 0x682e6ff3, 0xf6e7611c, s8);
    var s9 := Words(0x71629856, 0x9e57c4a0, 0xf907b313, 0x1d6de87a, 0x2f6c8c4e, 0xeec13548, 0x61a41711, 0x3443bed4);
    NextRound(LETTERS, 0, 56, s8, 0x748f82ee, 0x8ac830ce, s9);
    var s10 := Words(0x7c015a2c, 0x71629856, 0x9e57c4a0, 0xf907b313, 0xcb9d3dd0, 0x2f6c8c4e, 0xeec13548, 0x61a41711);
    NextRound(LETTERS, 0, 57, s9, 0x78a5636f, 0x8b47a303, s10);
    var s11 := Words(0x921fccb6, 0x7c015a2c, 0x71629856, 0x9e57c4a0, 0x43d8a034, 0xcb9d3dd0, 0x2f6c8c4e, 0xeec13548);
    NextRound(LETTERS, 0, 58, s10, 0x84c87814, 0xfd6e627f, s11);
    var s12 := Words(0xe18f259a, 0x921fccb6, 0x7c015a2c, 0x71629856, 0x51e15869, 0x43d8a034, 0xcb9d3dd0, 0x2f6c8c4e);
    NextRound(LETTERS, 0, 59, s11, 0x8cc70208, 0x8c6e2c6a, s12);
    var s13 := Words(0xbcfce922, 0xe18f259a, 0x921fccb6, 0x7c015a2c, 0x962d8621, 0x51e15869, 0x43d8a034, 0xcb9d3dd0);
    NextRound(LETTERS, 0, 60, s12, 0x90befffa, 0x4001adf1, s13);
    var s14 := Words(0xf6f443f8, 0xbcfce922, 0xe18f259a, 0x921fccb6, 0xacc75916, 0x962d8621, 0x51e15869, 0x43d8a034);
    NextRound(LETTERS, 0, 61, s13, 0xa4506ceb, 0x1a3dd097, s14);
    var s15 := Words(0x86126910, 0xf6f443f8, 0xbcfce922, 0xe18f259a, 0x2fc08f85, 0xacc75916, 0x962d8621, 0x51e15869);
    NextRound(LETTERS, 0, 62, s14, 0xbef9a3f7, 0xa9df6f62, s15);
    var s16 := Words(0x1bdc6f6f, 0x86126910, 0xf6f443f8, 0xbcfce922, 0x25d2430a, 0x2fc08f85, 0xacc75916, 0x962d8621);
    NextRound(LETTERS, 0, 63, s15, 0xc67178f2, 0x6aa60a39, s16);
  }

  lemma OneHash()
    ensures HashIs(LETTERS, 1,
                   Words(0x85e655d6, 0x417a1795, 0x3363376a, 0x624cde5c, 0x76e09589, 0xcac5f811, 0xcc4b32c1, 0xf20e533a))
  {
    hide After, HashIs, BlockCount;
    Long();
    OneStart();
    OneRounds4();
    NextHash(LETTERS, 0, Words(0x6a09e667, 0xbb67ae85, 0x3c6ef372, 0xa54ff53a, 0x510e527f, 0x9b05688c, 0x1f83d9ab, 0x5be0cd19),
             Words(0x1bdc6f6f, 0x86126910, 0xf6f443f8, 0xbcfce922, 0x25d2430a, 0x2fc08f85, 0xacc75916, 0x962d8621),
             Words(0x85e655d6, 0x417a1795, 0x3363376a, 0x624cde5c, 0x76e09589, 0xcac5f811, 0xcc4b32c1, 0xf20e533a));
  }

  lemma TwoStart()
    ensures HashIs(LETTERS, 1,
                   Words(0x85e655d6, 0x417a1795, 0x3363376a, 0x624cde5c, 0x76e09589, 0xcac5f811, 0xcc4b32c1, 0xf20e533a))
  {
    hide HashIs;
    OneHash();
  }

  lemma TwoWords1()
    ensures WordIs(LETTERS, 1, 0, 0x00000000) && WordIs(LETTERS, 1, 1, 0x00000000)
    ensures WordIs(LETTERS, 1, 2, 0x00000000) && WordIs(LETTERS, 1, 3, 0x00000000)
    ensures WordIs(LETTERS, 1, 4, 0x00000000) && WordIs(LETTERS, 1, 5, 0x00000000)
    ensures WordIs(LETTERS, 1, 6, 0x00000000) && WordIs(LETTERS, 1, 7, 0x00000000)
  {
    hide Num, WordIs, BlockWord, BlockCount;
    Is(0, 0);
    LettersWord(1, 0);
    WordFirst(LETTERS, 1, 0, 0x00000000);
    LettersWord(1, 1);
    WordFirst(LETTERS, 1, 1, 0x00000000);
    LettersWord(1, 2);
    WordFirst(LETTERS, 1, 2, 0x00000000);
    LettersWord(1, 3);
    WordFirst(LETTERS, 1, 3, 0x00000000);
    LettersWord(1, 4);
    WordFirst(LETTERS, 1, 4, 0x00000000);
    LettersWord(1, 5);
    WordFirst(LETTERS, 1, 5, 0x00000000);
    LettersWord(1, 6);
    WordFirst(LETTERS, 1, 6, 0x00000000);
    LettersWord(1, 7);
    WordFirst(LETTERS, 1, 7, 0x00000000);
  }

  lemma TwoWords2()
    ensures WordIs(LETTERS, 1, 8, 0x00000000) && WordIs(LETTERS, 1, 9, 0x00000000)
    ensures WordIs(LETTERS, 1, 10, 0x00000000) && WordIs(LETTERS, 1, 11, 0x00000000)
    ensures WordIs(LETTERS, 1, 12, 0x00000000) && WordIs(LETTERS, 1, 13, 0x00000000)
    ensures WordIs(LETTERS, 1, 14, 0x00000000) && WordIs(LETTERS, 1, 15, 0x000001c0)
  {
    hide Num, WordIs, BlockWord, BlockCount;
    Is(0, 0);
    Is(0x000001c0, 0x000001c0);
    LettersWord(1, 8);
    WordFirst(LETTERS, 1, 8, 0x00000000);
    LettersWord(1, 9);
    WordFirst(LETTERS, 1, 9, 0x00000000);
    LettersWord(1, 10);
    WordFirst(LETTERS, 1, 10, 0x00000000);
    LettersWord(1, 11);
    WordFirst(LETTERS, 1, 11, 0x00000000);
    LettersWord(1, 12);
    WordFirst(LETTERS, 1, 12, 0x00000000);
    LettersWord(1, 13);
    WordFirst(LETTERS, 1, 13, 0x00000000);
    LettersWord(1, 14);
    WordFirst(LETTERS, 1, 14, 0x00000000);
    LettersWord(1, 15);
    WordFirst(LETTERS, 1, 15, 0x000001c0);
  }

  lemma TwoWords3()
    ensures WordIs(LETTERS, 1, 16, 0x00000000) && WordIs(LETTERS, 1, 17, 0x00d80000)
    ensures WordIs(LETTERS, 1, 18, 0x00000000) && WordIs(LETTERS, 1, 19, 0x00003677)
    ensures WordIs(LETTERS, 1, 20, 0x00000000) && WordIs(LETTERS, 1, 21, 0x1df5600d)
    ensures WordIs(LETTERS, 1, 22, 0x000001c0) && WordIs(LETTERS, 1, 23, 0x1c00501c)
    ensures WordIs(LETTERS, 1, 24, 0x01b00000) && WordIs(LETTERS, 1, 25, 0x220a8d94)
    ensures WordIs(LETTERS, 1, 26, 0x0000a365) && WordIs(LETTERS, 1, 27, 0x177017e7)
    ensures WordIs(LETTERS, 1, 28, 0x63d38035) && WordIs(LETTERS, 1, 29, 0x090ab713)
    ensures WordIs(LETTERS, 1, 30, 0x4c7539ca) && WordIs(LETTERS, 1, 31, 0x0f19a8c9)
  {
    hide WordIs, BlockCount;
    Long();
    TwoWords1();
    TwoWords2();
    WordNext(LETTERS, 1, 16, 0x00000000, 0x00000000, 0x00000000, 0x00000000, 0x00000000);
    WordNext(LETTERS, 1, 17, 0x000001c0, 0x00000000, 0x00000000, 0x00000000, 0x00d80000);
    WordNext(LETTERS, 1, 18, 0x00000000, 0x00000000, 0x00000000, 0x00000000, 0x00000000);
    WordNext(LETTERS, 1, 19, 0x00d80000, 0x00000000, 0x00000000, 0x00000000, 0x00003677);
    WordNext(LETTERS, 1, 20, 0x00000000, 0x00000000, 0x00000000, 0x00000000, 0x00000000);
    WordNext(LETTERS, 1, 21, 0x00003677, 0x00000000, 0x00000000, 0x00000000, 0x1df5600d);
    WordNext(LETTERS, 1, 22, 0x00000000, 0x000001c0, 0x00000000, 0x00000000, 0x000001c0);
    WordNext(LETTERS, 1, 23, 0x1df5600d, 0x00000000, 0x00000000, 0x00000000, 0x1c00501c);
    WordNext(LETTERS, 1, 24, 0x000001c0, 0x00d80000, 0x00000000, 0x00000000, 0x01b00000);
    WordNext(LETTERS, 1, 25, 0x1c00501c, 0x00000000, 0x00000000, 0x00000000, 0x220a8d94);
    WordNext(LETTERS, 1, 26, 0x01b00000, 0x00003677, 0x00000000, 0x00000000, 0x0000a365);
    WordNext(LETTERS, 1, 27, 0x220a8d94, 0x00000000, 0x00000000, 0x00000000, 0x177017e7);
    WordNext(LETTERS, 1, 28, 0x0000a365, 0x1df5600d, 0x00000000, 0x00000000, 0x63d38035);
    WordNext(LETTERS, 1, 29, 0x177017e7, 0x000001c0, 0x00000000, 0x00000000, 0x090ab713);
    WordNext(LETTERS, 1, 30, 0x63d38035, 0x1c00501c, 0x000001c0, 0x00000000, 0x4c7539ca);
    WordNext(LETTERS, 1, 31, 0x090ab713, 0x01b00000, 0x00000000, 0x000001c0, 0x0f19a8c9);
  }

  lemma TwoWords4()
    ensures WordIs(LETTERS, 1, 32, 0x5df4b0c4) && WordIs(LETTERS, 1, 33, 0xe257036a)
    ensures WordIs(LETTERS, 1, 34, 0xc97bb6f1) && WordIs(LETTERS, 1, 35, 0xc5b46f4d)
    ensures WordIs(LETTERS, 1, 36, 0xf8253c4e) && WordIs(LETTERS, 1, 37, 0xa558d189)
    ensures WordIs(LETTERS, 1, 38, 0x78696285) && WordIs(LETTERS, 1, 39, 0xed07117f)
    ensures WordIs(LETTERS, 1, 40, 0x107358f6) && WordIs(LETTERS, 1, 41, 0x390ae496)
    ensures WordIs(LETTERS, 1, 42, 0x565010a2) && WordIs(LETTERS, 1, 43, 0xc51d7d44)
    ensures WordIs(LETTERS, 1, 44, 0x9e74c972) && WordIs(LETTERS, 1, 45, 0x6614b561)
    ensures WordIs(LETTERS, 1, 46, 0x30fc129d) && WordIs(LETTERS, 1, 47, 0x9ac684a8)
  {
    hide WordIs, BlockCount;
    Long();
    TwoWords3();
    WordNext(LETTERS, 1, 32, 0x4c7539ca, 0x220a8d94, 0x00d80000, 0x00000000, 0x5df4b0c4);
    WordNext(LETTERS, 1, 33, 0x0f19a8c9, 0x0000a365, 0x00000000, 0x00d80000, 0xe257036a);
    WordNext(LETTERS, 1, 34, 0x5df4b0c4, 0x177017e7, 0x00003677, 0x00000000, 0xc97bb6f1);
    WordNext(LETTERS, 1, 35, 0xe257036a, 0x63d38035, 0x00000000, 0x00003677, 0xc5b46f4d);
    WordNext(LETTERS, 1, 36, 0xc97bb6f1, 0x090ab713, 0x1df5600d, 0x00000000, 0xf8253c4e);
    WordNext(LETTERS, 1, 37, 0xc5b46f4d, 0x4c7539ca, 0x000001c0, 0x1df5600d, 0xa558d189);
    WordNext(LETTERS, 1, 38, 0xf8253c4e, 0x0f19a8c9, 0x1c00501c, 0x000001c0, 0x78696285);
    WordNext(LETTERS, 1, 39, 0xa558d189, 0x5df4b0c4, 0x01b00000, 0x1c00501c, 0xed07117f);
    WordNext(LETTERS, 1, 40, 0x78696285, 0xe257036a, 0x220a8d94, 0x01b00000, 0x107358f6);
    WordNext(LETTERS, 1, 41, 0xed07117f, 0xc97bb6f1, 0x0000a365, 0x220a8d94, 0x390ae496);
    WordNext(LETTERS, 1, 42, 0x107358f6, 0xc5b46f4d, 0x177017e7, 0x0000a365, 0x565010a2);
    WordNext(LETTERS, 1, 43, 0x390ae496, 0xf8253c4e, 0x63d38035, 0x177017e7, 0xc51d7d44);
    WordNext(LETTERS, 1, 44, 0x565010a2, 0xa558d189, 0x090ab713, 0x63d38035, 0x9e74c972);
    WordNext(LETTERS, 1, 45, 0xc51d7d44, 0x78696285, 0x4c7539ca, 0x090ab713, 0x6614b561);
    WordNext(LETTERS, 1, 46, 0x9e74c972, 0xed07117f, 0x0f19a8c9, 0x4c7539ca, 0x30fc129d);
    WordNext(LETTERS, 1, 47, 0x6614b561, 0x107358f6, 0x5df4b0c4, 0x0f19a8c9, 0x9ac684a8);
  }

  lemma TwoWords5()
    ensures WordIs(LETTERS, 1, 48, 0x2b658dbd) && WordIs(LETTERS, 1, 49, 0xe290f793)
    ensures WordIs(LETTERS, 1, 50, 0x9eebb24c) && WordIs(LETTERS, 1, 51, 0x9713b5de)
    ensures WordIs(LETTERS, 1, 52, 0x41061ab7) && WordIs(LETTERS, 1, 53, 0xe022e23b)
    ensures WordIs(LETTERS, 1, 54, 0x0772079e) && WordIs(LETTERS, 1, 55, 0x7de22d9c)
    ensures WordIs(LETTERS, 1, 56, 0xc8b83778) && WordIs(LETTERS, 1, 57, 0x75a79849)
    ensures WordIs(LETTERS, 1, 58, 0xd93dbddb) && WordIs(LETTERS, 1, 59, 0x0a036c9d)
    ensures WordIs(LETTERS, 1, 60, 0xcb4f6ac6) && WordIs(LETTERS, 1, 61, 0x823f97e2)
    ensures WordIs(LETTERS, 1, 62, 0xea2f2a7a) && WordIs(LETTERS, 1, 63, 0xb9018b52)
  {
    hide WordIs, BlockCount;
    Long();
    TwoWords4();
    WordNext(LETTERS, 1, 48, 0x30fc129d, 0x390ae496, 0xe257036a, 0x5df4b0c4, 0x2b658dbd);
    WordNext(LETTERS, 1, 49, 0x9ac684a8, 0x565010a2, 0xc97bb6f1, 0xe257036a, 0xe290f793);
    WordNext(LETTERS, 1, 50, 0x2b658dbd, 0xc51d7d44, 0xc5b46f4d, 0xc97bb6f1, 0x9eebb24c);
    WordNext(LETTERS, 1, 51, 0xe290f793, 0x9e74c972, 0xf8253c4e, 0xc5b46f4d, 0x9713b5de);
    WordNext(LETTERS, 1, 52, 0x9eebb24c, 0x6614b561, 0xa558d189, 0xf8253c4e, 0x41061ab7);
    WordNext(LETTERS, 1, 53, 0x9713b5de, 0x30fc129d, 0x78696285, 0xa558d189, 0xe022e23b);
    WordNext(LETTERS, 1, 54, 0x41061ab7, 0x9ac684a8, 0xed07117f, 0x78696285, 0x0772079e);
    WordNext(LETTERS, 1, 55, 0xe022e23b, 0x2b658dbd, 0x107358f6, 0xed07117f, 0x7de22d9c);
    WordNext(LETTERS, 1, 56, 0x0772079e, 0xe290f793, 0x390ae496, 0x107358f6, 0xc8b83778);
    WordNext(LETTERS, 1, 57, 0x7de22d9c, 0x9eebb24c, 0x565010a2, 0x390ae496, 0x75a79849);
    WordNext(LETTERS, 1, 58, 0xc8b83778, 0x9713b5de, 0xc51d7d44, 0x565010a2, 0xd93dbddb);
    WordNext(LETTERS, 1, 59, 0x75a79849, 0x41061ab7, 0x9e74c972, 0xc51d7d44, 0x0a036c9d);
    WordNext(LETTERS, 1, 60, 0xd93dbddb, 0xe022e23b, 0x6614b561, 0x9e74c972, 0xcb4f6ac6);
    WordNext(LETTERS, 1, 61, 0x0a036c9d, 0x0772079e, 0x30fc129d, 0x6614b561, 0x823f97e2);
    WordNext(LETTERS, 1, 62, 0xcb4f6ac6, 0x7de22d9c, 0x9ac684a8, 0x30fc129d, 0xea2f2a7a);
    WordNext(LETTERS, 1, 63, 0x823f97e2, 0xc8b83778, 0x2b658dbd, 0x9ac684a8, 0xb9018b52);
  }

  lemma TwoRounds1()
    ensures After(LETTERS, 1, 16,
                  Words(0x16a8cc79, 0x0cea5cbc, 0xd74080fa, 0x35ee996d, 0x0fcb1f6f, 0x60356548, 0x68aa893f, 0x5c24e2a2))
  {
    hide After, WordIs, KeyIs, HashIs, BlockCount;
    Long();
    TwoStart();
    FirstRound(LETTERS, 1, Words(0x85e655d6, 0x417a1795, 0x3363376a, 0x624cde5c, 0x76e09589, 0xcac5f811, 0xcc4b32c1, 0xf20e533a));
    TwoWords1();
    Keys1a();
    Keys1b();
    TwoWords2();
    Keys2a();
    Keys2b();
    var s0 := Words(0x85e655d6, 0x417a1795, 0x3363376a, 0x624cde5c, 0x76e09589, 0xcac5f811, 0xcc4b32c1, 0xf20e533a);
    var s1 := Words(0x7c20c838, 0x85e655d6, 0x417a1795, 0x3363376a, 0x4670ae6e, 0x76e09589, 0xcac5f811, 0xcc4b32c1);
    NextRound(LETTERS, 1, 0, s0, 0x428a2f98, 0x00000000, s1);
    var s2 := Words(0x7c3c0f86, 0x7c20c838, 0x85e655d6, 0x417a1795, 0x8c51be64, 0x4670ae6e, 0x76e09589, 0xcac5f811);
    NextRound(LETTERS, 1, 1, s1, 0x71374491, 0x00000000, s2);
    var s3 := Words(0xfd1eebdc, 0x7c3c0f86, 0x7c20c838, 0x85e655d6, 0xaf71b9ea, 0x8c51be64, 0x4670ae6e, 0x76e09589);
    NextRound(LETTERS, 1, 2, s2, 0xb5c0fbcf, 0x00000000, s3);
    var s4 := Words(0xf268faa9, 0xfd1eebdc, 0x7c3c0f86, 0x7c20c838, 0xe20362ef, 0xaf71b9ea, 0x8c51be64, 0x4670ae6e);
    NextRound(LETTERS, 1, 3, s3, 0xe9b5dba5, 0x00000000, s4);
    var s5 := Words(0x185a5d79, 0xf268faa9, 0xfd1eebdc, 0x7c3c0f86, 0x8dff3001, 0xe20362ef, 0xaf71b9ea, 0x8c51be64);
    NextRound(LETTERS, 1, 4, s4, 0x3956c25b, 0x00000000, s5);
    var s6 := Words(0x3eeb6c06, 0x185a5d79, 0xf268faa9, 0xfd1eebdc, 0xfe20cda6, 0x8dff3001, 0xe20362ef, 0xaf71b9ea);
    NextRound(LETTERS, 1, 5, s5, 0x59f111f1, 0x00000000, s6);
    var s7 := Words(0x89bba3f1, 0x3eeb6c06, 0x185a5d79, 0xf268faa9, 0x0a34df03, 0xfe20cda6, 0x8dff3001, 0xe20362ef);
    NextRound(LETTERS, 1, 6, s6, 0x923f82a4, 0x00000000, s7);
    var s8 := Words(0xbf9a93a0, 0x89bba3f1, 0x3eeb6c06, 0x185a5d79, 0x059abdd1, 0x0a34df03, 0xfe20cda6, 0x8dff3001);
    NextRound(LETTERS, 1, 7, s7, 0xab1c5ed5, 0x00000000, s8);
    var s9 := Words(0x2c096744, 0xbf9a93a0, 0x89bba3f1, 0x3eeb6c06, 0xabfa465b, 0x059abdd1, 0x0a34df03, 0xfe20cda6);
    NextRound(LETTERS, 1, 8, s8, 0xd807aa98, 0x00000000, s9);
    var s10 := Words(0x2d964e86, 0x2c096744, 0xbf9a93a0, 0x89bba3f1, 0xaa27ed82, 0xabfa465b, 0x059abdd1, 0x0a34df03);
    NextRound(LETTERS, 1, 9, s9, 0x12835b01, 0x00000000, s10);
    var s11 := Words(0x5b35025b, 0x2d964e86, 0x2c096744, 0xbf9a93a0, 0x10e77723, 0xaa27ed82, 0xabfa465b, 0x059abdd1);
    NextRound(LETTERS, 1, 10, s10, 0x243185be, 0x00000000, s11);
    var s12 := Words(0x5eb4ec40, 0x5b35025b, 0x2d964e86, 0x2c096744, 0xe11b4548, 0x10e77723, 0xaa27ed82, 0xabfa465b);
    NextRound(LETTERS, 1, 11, s11, 0x550c7dc3, 0x00000000, s12);
    var s13 := Words(0x35ee996d, 0x5eb4ec40, 0x5b35025b, 0x2d964e86, 0x5c24e2a2, 0xe11b4548, 0x10e77723, 0xaa27ed82);
    NextRound(LETTERS, 1, 12, s12, 0x72be5d74, 0x00000000, s13);
    var s14 := Words(0xd74080fa, 0x35ee996d, 0x5eb4ec40, 0x5b35025b, 0x68aa893f, 0x5c24e2a2, 0xe11b4548, 0x10e77723);
    NextRound(LETTERS, 1, 13, s13, 0x80deb1fe, 0x00000000, s14);
    var s15 := Words(0x0cea5cbc, 0xd74080fa, 0x35ee996d, 0x5eb4ec40, 0x60356548, 0x68aa893f, 0x5c24e2a2, 0xe11b4548);
    NextRound(LETTERS, 1, 14, s14, 0x9bdc06a7, 0x00000000, s15);
    var s16 := Words(0x16a8cc79, 0x0cea5cbc, 0xd74080fa, 0x35ee996d, 0x0fcb1f6f, 0x60356548, 0x68aa893f, 0x5c24e2a2);
    NextRound(LETTERS, 1, 15, s15, 0xc19bf174, 0x000001c0, s16);
  }

  lemma TwoRounds2()
    ensures After(LETTERS, 1, 32,
                  Words(0xb0eab1c5, 0x02ef3a5f, 0x1cfa5eb0, 0xd958b529, 0xf6d93952, 0x5da10665, 0x6c49db9f, 0xc2fa99b1))
  {
    hide After, WordIs, KeyIs, HashIs, BlockCount;
    Long();
    TwoRounds1();
    TwoWords3();
    Keys3a();
    Keys3b();
    Keys4a();
    Keys4b();
    var s0 := Words(0x16a8cc79, 0x0cea5cbc, 0xd74080fa, 0x35ee996d, 0x0fcb1f6f, 0x60356548, 0x68aa893f, 0x5c24e2a2);
    var s1 := Words(0xf16f634e, 0x16a8cc79, 0x0cea5cbc, 0xd74080fa, 0x8b21cdc1, 0x0fcb1f6f, 0x60356548, 0x68aa893f);
    NextRound(LETTERS, 1, 16, s0, 0xe49b69c1, 0x00000000, s1);
    var s2 := Words(0x23dcb6c2, 0xf16f634e, 0x16a8cc79, 0x0cea5cbc, 0xca9182d3, 0x8b21cdc1, 0x0fcb1f6f, 0x60356548);
    NextRound(LETTERS, 1, 17, s1, 0xefbe4786, 0x00d80000, s2);
    var s3 := Words(0xdcff40fd, 0x23dcb6c2, 0xf16f634e, 0x16a8cc79, 0x69bf7b95, 0xca9182d3, 0x8b21cdc1, 0x0fcb1f6f);
    NextRound(LETTERS, 1, 18, s2, 0x0fc19dc6, 0x00000000, s3);
    var s4 := Words(0x76f1a2bc, 0xdcff40fd, 0x23dcb6c2, 0xf16f634e, 0x0dc84bb1, 0x69bf7b95, 0xca9182d3, 0x8b21cdc1);
    NextRound(LETTERS, 1, 19, s3, 0x240ca1cc, 0x00003677, s4);
    var s5 := Words(0x20aad899, 0x76f1a2bc, 0xdcff40fd, 0x23dcb6c2, 0xcc4769f2, 0x0dc84bb1, 0x69bf7b95, 0xca9182d3);
    NextRound(LETTERS, 1, 20, s4, 0x2de92c6f, 0x00000000, s5);
    var s6 := Words(0xd44dc81a, 0x20aad899, 0x76f1a2bc, 0xdcff40fd, 0x5bace62d, 0xcc4769f2, 0x0dc84bb1, 0x69bf7b95);
    NextRound(LETTERS, 1, 21, s5, 0x4a7484aa, 0x1df5600d, s6);
    var s7 := Words(0xf13ae55b, 0xd44dc81a, 0x20aad899, 0x76f1a2bc, 0x966aa287, 0x5bace62d, 0xcc4769f2, 0x0dc84bb1);
    NextRound(LETTERS, 1, 22, s6, 0x5cb0a9dc, 0x000001c0, s7);
    var s8 := Words(0xa4195b91, 0xf13ae55b, 0xd44dc81a, 0x20aad899, 0xeddbd6ed, 0x966aa287, 0x5bace62d, 0xcc4769f2);
    NextRound(LETTERS, 1, 23, s7, 0x76f988da, 0x1c00501c, s8);
    var s9 := Words(0x4984fa79, 0xa4195b91, 0xf13ae55b, 0xd44dc81a, 0xa530d939, 0xeddbd6ed, 0x966aa287, 0x5bace62d);
    NextRound(LETTERS, 1, 24, s8, 0x983e5152, 0x01b00000, s9);
    var s10 := Words(0xaa6cb982, 0x4984fa79, 0xa4195b91, 0xf13ae55b, 0x0b5eeea4, 0xa530d939, 0xeddbd6ed, 0x966aa287);
    NextRound(LETTERS, 1, 25, s9, 0xa831c66d, 0x220a8d94, s10);
    var s11 := Words(0x9450fbbc, 0xaa6cb982, 0x4984fa79, 0xa4195b91, 0x09166dda, 0x0b5eeea4, 0xa530d939, 0xeddbd6ed);
    NextRound(LETTERS, 1, 26, s10, 0xb00327c8, 0x0000a365, s11);
    var s12 := Words(0x0d936bab, 0x9450fbbc, 0xaa6cb982, 0x4984fa79, 0x6e495d4b, 0x09166dda, 0x0b5eeea4, 0xa530d939);
    NextRound(LETTERS, 1, 27, s11, 0xbf597fc7, 0x177017e7, s12);
    var s13 := Words(0xd958b529, 0x0d936bab, 0x9450fbbc, 0xaa6cb982, 0xc2fa99b1, 0x6e495d4b, 0x09166dda, 0x0b5eeea4);
    NextRound(LETTERS, 1, 28, s12, 0xc6e00bf3, 0x63d38035, s13);
    var s14 := Words(0x1cfa5eb0, 0xd958b529, 0x0d936bab, 0x9450fbbc, 0x6c49db9f, 0xc2fa99b1, 0x6e495d4b, 0x09166dda);
    NextRound(LETTERS, 1, 29, s13, 0xd5a79147, 0x090ab713, s14);
    var s15 := Words(0x02ef3a5f, 0x1cfa5eb0, 0xd958b529, 0x0d936bab, 0x5da10665, 0x6c49db9f, 0xc2fa99b1, 0x6e495d4b);
    NextRound(LETTERS, 1, 30, s14, 0x06ca6351, 0x4c7539ca, s15);
    var s16 := Words(0xb0eab1c5, 0x02ef3a5f, 0x1cfa5eb0, 0xd958b529, 0xf6d93952, 0x5da10665, 0x6c49db9f, 0xc2fa99b1);
    NextRound(LETTERS, 1, 31, s15, 0x14292967, 0x0f19a8c9, s16);
  }

  lemma TwoRounds3()
    ensures After(LETTERS, 1, 48,
                  Words(0xd7354d5b, 0x0b3303a7, 0x104a7db4, 0x0f154e11, 0xaad55b6b, 0xbbe1c39a, 0x5348e8f6, 0x6f9517cb))
  {
    hide After, WordIs, KeyIs, HashIs, BlockCount;
    Long();
    TwoRounds2();
    TwoWords4();
    Keys5a();
    Keys5b();
    Keys6a();
    Keys6b();
    var s0 := Words(0xb0eab1c5, 0x02ef3a5f, 0x1cfa5eb0, 0xd958b529, 0xf6d93952, 0x5da10665, 0x6c49db9f, 0xc2fa99b1);
    var s1 := Words(0x0bfba73c, 0xb0eab1c5, 0x02ef3a5f, 0x1cfa5eb0, 0x8b99e3a9, 0xf6d93952, 0x5da10665, 0x6c49db9f);
    NextRound(LETTERS, 1, 32, s0, 0x27b70a85, 0x5df4b0c4, s1);
    var s2 := Words(0x4bd1df96, 0x0bfba73c, 0xb0eab1c5, 0x02ef3a5f, 0x905e44ac, 0x8b99e3a9, 0xf6d93952, 0x5da10665);
    NextRound(LETTERS, 1, 33, s1, 0x2e1b2138, 0xe257036a, s2);
    var s3 := Words(0x9907f1b6, 0x4bd1df96, 0x0bfba73c, 0xb0eab1c5, 0x66c3043d, 0x905e44ac, 0x8b99e3a9, 0xf6d93952);
    NextRound(LETTERS, 1, 34, s2, 0x4d2c6dfc, 0xc97bb6f1, s3);
    var s4 := Words(0xecde4e0d, 0x9907f1b6, 0x4bd1df96, 0x0bfba73c, 0x5dc119e6, 0x66c3043d, 0x905e44ac, 0x8b99e3a9);
    NextRound(LETTERS, 1, 35, s3, 0x53380d13, 0xc5b46f4d, s4);
    var s5 := Words(0x2f11c939, 0xecde4e0d, 0x9907f1b6, 0x4bd1df96, 0xfed4ce1d, 0x5dc119e6, 0x66c3043d, 0x905e44ac);
    NextRound(LETTERS, 1, 36, s4, 0x650a7354, 0xf8253c4e, s5);
    var s6 := Words(0xd949682b, 0x2f11c939, 0xecde4e0d, 0x9907f1b6, 0x32d99008, 0xfed4ce1d, 0x5dc119e6, 0x66c3043d);
    NextRound(LETTERS, 1, 37, s5, 0x766a0abb, 0xa558d189, s6);
    var s7 := Words(0xadca7a96, 0xd949682b, 0x2f11c939, 0xecde4e0d, 0xc6cce4ff, 0x32d99008, 0xfed4ce1d, 0x5dc119e6);
    NextRound(LETTERS, 1, 38, s6, 0x81c2c92e, 0x78696285, s7);
    var s8 := Words(0x221b8a5a, 0xadca7a96, 0xd949682b, 0x2f11c939, 0x0b82c5eb, 0xc6cce4ff, 0x32d99008, 0xfed4ce1d);
    NextRound(LETTERS, 1, 39, s7, 0x92722c85, 0xed07117f, s8);
    var s9 := Words(0x12d97845, 0x221b8a5a, 0xadca7a96, 0xd949682b, 0xe4213ca2, 0x0b82c5eb, 0xc6cce4ff, 0x32d99008);
    NextRound(LETTERS, 1, 40, s8, 0xa2bfe8a1, 0x107358f6, s9);
    var s10 := Words(0x2c794876, 0x12d97845, 0x221b8a5a, 0xadca7a96, 0xff6759ba, 0xe4213ca2, 0x0b82c5eb, 0xc6cce4ff);
    NextRound(LETTERS, 1, 41, s9, 0xa81a664b, 0x390ae496, s10);
    var s11 := Words(0x8300fca2, 0x2c794876, 0x12d97845, 0x221b8a5a, 0xe0e3457c, 0xff6759ba, 0xe4213ca2, 0x0b82c5eb);
    NextRound(LETTERS, 1, 42, s10, 0xc24b8b70, 0x565010a2, s11);
    var s12 := Words(0xf2ad6322, 0x8300fca2, 0x2c794876, 0x12d97845, 0xcc48c7f3, 0xe0e3457c, 0xff6759ba, 0xe4213ca2);
    NextRound(LETTERS, 1, 43, s11, 0xc76c51a3, 0xc51d7d44, s12);
    var s13 := Words(0x0f154e11, 0xf2ad6322, 0x8300fca2, 0x2c794876, 0x6f9517cb, 0xcc48c7f3, 0xe0e3457c, 0xff6759ba);
    NextRound(LETTERS, 1, 44, s12, 0xd192e819, 0x9e74c972, s13);
    var s14 := Words(0x104a7db4, 0x0f154e11, 0xf2ad6322, 0x8300fca2, 0x5348e8f6, 0x6f9517cb, 0xcc48c7f3, 0xe0e3457c);
    NextRound(LETTERS, 1, 45, s13, 0xd6990624, 0x6614b561, s14);
    var s15 := Words(0x0b3303a7, 0x104a7db4, 0x0f154e11, 0xf2ad6322, 0xbbe1c39a, 0x5348e8f6, 0x6f9517cb, 0xcc48c7f3);
    NextRound(LETTERS, 1, 46, s14, 0xf40e3585, 0x30fc129d, s15);
    var s16 := Words(0xd7354d5b, 0x0b3303a7, 0x104a7db4, 0x0f154e11, 0xaad55b6b, 0xbbe1c39a, 0x5348e8f6, 0x6f9517cb);
    NextRound(LETTERS, 1, 47, s15, 0x106aa070, 0x9ac684a8, s16);
  }

  lemma TwoRounds4()
    ensures After(LETTERS, 1, 64,
                  Words(0x9ea7148b, 0x908c2123, 0xb25cef29, 0xa9f181dd, 0x2c5c4ed0, 0x9a392956, 0x2aa1bb13, 0x27ccb387))
  {
    hide After, WordIs, KeyIs, HashIs, BlockCount;
    Long();
    TwoRounds3();
    TwoWords5();
    Keys7a();
    Keys7b();
    Keys8a();
    Keys8b();
    var s0 := Words(0xd7354d5b, 0x0b3303a7, 0x104a7db4, 0x0f154e11, 0xaad55b6b, 0xbbe1c39a, 0x5348e8f6, 0x6f9517cb);
    var s1 := Words(0xb736d7a6, 0xd7354d5b, 0x0b3303a7, 0x104a7db4, 0x68f25260, 0xaad55b6b, 0xbbe1c39a, 0x5348e8f6);
    NextRound(LETTERS, 1, 48, s0, 0x19a4c116, 0x2b658dbd, s1);
    var s2 := Words(0x2748e5ec, 0xb736d7a6, 0xd7354d5b, 0x0b3303a7, 0xd4b58576, 0x68f25260, 0xaad55b6b, 0xbbe1c39a);
    NextRound(LETTERS, 1, 49, s1, 0x1e376c08, 0xe290f793, s2);
    var s3 := Words(0xd8aabcf9, 0x2748e5ec, 0xb736d7a6, 0xd7354d5b, 0x27844711, 0xd4b58576, 0x68f25260, 0xaad55b6b);
    NextRound(LETTERS, 1, 50, s2, 0x2748774c, 0x9eebb24c, s3);
    var s4 := Words(0x1a6bcf6a, 0xd8aabcf9, 0x2748e5ec, 0xb736d7a6, 0xff5e99d0, 0x27844711, 0xd4b58576, 0x68f25260);
    NextRound(LETTERS, 1, 51, s3, 0x34b0bcb5, 0x9713b5de, s4);
    var s5 := Words(0x4eca6fa0, 0x1a6bcf6a, 0xd8aabcf9, 0x2748e5ec, 0x989ed071, 0xff5e99d0, 0x27844711, 0xd4b58576);
    NextRound(LETTERS, 1, 52, s4, 0x391c0cb3, 0x41061ab7, s5);
    var s6 := Words(0xec02560a, 0x4eca6fa0, 0x1a6bcf6a, 0xd8aabcf9, 0x7151df8e, 0x989ed071, 0xff5e99d0, 0x27844711);
    NextRound(LETTERS, 1, 53, s5, 0x4ed8aa4a, 0xe022e23b, s6);
    var s7 := Words(0xd9f0c115, 0xec02560a, 0x4eca6fa0, 0x1a6bcf6a, 0x624150c4, 0x7151df8e, 0x989ed071, 0xff5e99d0);
    NextRound(LETTERS, 1, 54, s6, 0x5b9cca4f, 0x0772079e, s7);
    var s8 := Words(0x92952710, 0xd9f0c115, 0xec02560a, 0x4eca6fa0, 0x226806d6, 0x624150c4, 0x7151df8e, 0x989ed071);
    NextRound(LETTERS, 1, 55, s7, 0x682e6ff3, 0x7de22d9c, s8);
    var s9 := Words(0x20d4d0e4, 0x92952710, 0xd9f0c115, 0xec02560a, 0x4e515a4d, 0x226806d6, 0x624150c4, 0x7151df8e);
    NextRound(LETTERS, 1, 56, s8, 0x748f82ee, 0xc8b83778, s9);
    var s10 := Words(0x4348eb1f, 0x20d4d0e4, 0x92952710, 0xd9f0c115, 0xc21eddf9, 0x4e515a4d, 0x226806d6, 0x624150c4);
    NextRound(LETTERS, 1, 57, s9, 0x78a5636f, 0x75a79849, s10);
    var s11 := Words(0x286fe5f0, 0x4348eb1f, 0x20d4d0e4, 0x92952710, 0x54076664, 0xc21eddf9, 0x4e515a4d, 0x226806d6);
    NextRound(LETTERS, 1, 58, s10, 0x84c87814, 0xd93dbddb, s11);
    var s12 := Words(0x1c4cddd9, 0x286fe5f0, 0x4348eb1f, 0x20d4d0e4, 0xf487a853, 0x54076664, 0xc21eddf9, 0x4e515a4d);
    NextRound(LETTERS, 1, 59, s11, 0x8cc70208, 0x0a036c9d, s12);
    var s13 := Words(0xa9f181dd, 0x1c4cddd9, 0x286fe5f0, 0x4348eb1f, 0x27ccb387, 0xf487a853, 0x54076664, 0xc21eddf9);
    NextRound(LETTERS, 1, 60, s12, 0x90befffa, 0xcb4f6ac6, s13);
    var s14 := Words(0xb25cef29, 0xa9f181dd, 0x1c4cddd9, 0x286fe5f0, 0x2aa1bb13, 0x27ccb387, 0xf487a853, 0x54076664);
    NextRound(LETTERS, 1, 61, s13, 0xa4506ceb, 0x823f97e2, s14);
    var s15 := Words(0x908c2123, 0xb25cef29, 0xa9f181dd, 0x1c4cddd9, 0x9a392956, 0x2aa1bb13, 0x27ccb387, 0xf487a853);
    NextRound(LETTERS, 1, 62, s14, 0xbef9a3f7, 0xea2f2a7a, s15);
    var s16 := Words(0x9ea7148b, 0x908c2123, 0xb25cef29, 0xa9f181dd, 0x2c5c4ed0, 0x9a392956, 0x2aa1bb13, 0x27ccb387);
    NextRound(LETTERS, 1, 63, s15, 0xc67178f2, 0xb9018b52, s16);
  }

  lemma TwoHash()
    ensures HashIs(LETTERS, 2,
                   Words(0x248d6a61, 0xd20638b8, 0xe5c02693, 0x0c3e6039, 0xa33ce459, 0x64ff2167, 0xf6ecedd4, 0x19db06c1))
  {
    hide After, HashIs, BlockCount;
    Long();
    TwoStart();
    TwoRounds4();
    NextHash(LETTERS, 1, Words(0x85e655d6, 0x417a1795, 0x3363376a, 0x624cde5c, 0x76e09589, 0xcac5f811, 0xcc4b32c1, 0xf20e533a),
             Words(0x9ea7148b, 0x908c2123, 0xb25cef29, 0xa9f181dd, 0x2c5c4ed0, 0x9a392956, 0x2aa1bb13, 0x27ccb387),
             Words(0x248d6a61, 0xd20638b8, 0xe5c02693, 0x0c3e6039, 0xa33ce459, 0x64ff2167, 0xf6ecedd4, 0x19db06c1));
  }

  lemma DigestOfLettersNumsa()
    ensures Num(0x248d6a61) == 0x248d6a61 && Num(0xd20638b8) == 0xd20638b8
    ensures Num(0xe5c02693) == 0xe5c02693 && Num(0x0c3e6039) == 0x0c3e6039
  {
    hide Num;
    Is(0x248d6a61, 0x248d6a61);
    Is(0xd20638b8, 0xd20638b8);
    Is(0xe5c02693, 0xe5c02693);
    Is(0x0c3e6039, 0x0c3e6039);
  }

  lemma DigestOfLettersNumsb()
    ensures Num(0xa33ce459) == 0xa33ce459 && Num(0x64ff2167) == 0x64ff2167
    ensures Num(0xf6ecedd4) == 0xf6ecedd4 && Num(0x19db06c1) == 0x19db06c1
  {
    hide Num;
    Is(0xa33ce459, 0xa33ce459);
    Is(0x64ff2167, 0x64ff2167);
    Is(0xf6ecedd4, 0xf6ecedd4);
    Is(0x19db06c1, 0x19db06c1);
  }

  lemma DigestOfLettersNums()
    ensures Nums(Words(0x248d6a61, 0xd20638b8, 0xe5c02693, 0x0c3e6039, 0xa33ce459, 0x64ff2167, 0xf6ecedd4, 0x19db06c1))
            == State(0x248d6a61, 0xd20638b8, 0xe5c02693, 0x0c3e6039, 0xa33ce459, 0x64ff2167, 0xf6ecedd4, 0x19db06c1)
  {
    hide Num;
    DigestOfLettersNumsa();
    DigestOfLettersNumsb();
  }

  /** The digest of the message of two blocks. */
  lemma DigestOfLetters()
    ensures Sha256(LETTERS) == [0x24, 0x8d, 0x6a, 0x61, 0xd2, 0x06, 0x38, 0xb8, 0xe5, 0xc0, 0x26, 0x93, 0x0c, 0x3e, 0x60, 0x39,
                                  0xa3, 0x3c, 0xe4, 0x59, 0x64, 0xff, 0x21, 0x67, 0xf6, 0xec, 0xed, 0xd4, 0x19, 0xdb, 0x06, 0xc1]
  {
    hide HashValue, WordBytes, BlockCount, HashIs, Nums;
    Long();
    TwoHash();
    HashAt(LETTERS, 2, Words(0x248d6a61, 0xd20638b8, 0xe5c02693, 0x0c3e6039, 0xa33ce459, 0x64ff2167, 0xf6ecedd4, 0x19db06c1));
    DigestOfLettersNums();
    BytesOf(0x248d6a61, 0x24, 0x8d, 0x6a, 0x61);
    BytesOf(0xd20638b8, 0xd2, 0x06, 0x38, 0xb8);
    BytesOf(0xe5c02693, 0xe5, 0xc0, 0x26, 0x93);
    BytesOf(0x0c3e6039, 0x0c, 0x3e, 0x60, 0x39);
    BytesOf(0xa33ce459, 0xa3, 0x3c, 0xe4, 0x59);
    BytesOf(0x64ff2167, 0x64, 0xff, 0x21, 0x67);
    BytesOf(0xf6ecedd4, 0xf6, 0xec, 0xed, 0xd4);
    BytesOf(0x19db06c1, 0x19, 0xdb, 0x06, 0xc1);
  }
}
