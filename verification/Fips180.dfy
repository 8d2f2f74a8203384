/** The secure hash SHA-256 of FIPS 180-4 as a specification. */
module Fips180 {
  import opened Bits
  import Arith

  type Byte = x: int | 0 <= x < 256
  type Word = x: int | 0 <= x < 0x1_0000_0000

  // Section 2.2.2: operations on 32-bit words.

  function Add(x: Word, y: Word): Word { (x + y) % 0x1_0000_0000 }

  lemma StaysWord(x: Word, y: Word)
    ensures And(x, y) < 0x1_0000_0000 && Or(x, y) < 0x1_0000_0000 && Xor(x, y) < 0x1_0000_0000
  {
    Pow2Values();
    BelowPow2(x, y, 32);
  }

  function AndW(x: Word, y: Word): Word { StaysWord(x, y); And(x, y) }

  function OrW(x: Word, y: Word): Word { StaysWord(x, y); Or(x, y) }

  function XorW(x: Word, y: Word): Word { StaysWord(x, y); Xor(x, y) }

  function NotW(x: Word): Word { 0xFFFF_FFFF - x }

  function Shr(x: Word, n: nat): Word
    requires n < 32
  {
    Arith.DivIsFloor(x, Pow2(n), 0);
    Arith.MulMono(1, Pow2(n), x / Pow2(n));
    x / Pow2(n)
  }

  function Rotr(x: Word, n: nat): Word
    requires n < 32
  {
    OrW(Shr(x, n), x * Pow2(32 - n) % 0x1_0000_0000)
  }

  // Section 4.1.2: the logical functions.

  function Ch(x: Word, y: Word, z: Word): Word { XorW(AndW(x, y), AndW(NotW(x), z)) }

  function Maj(x: Word, y: Word, z: Word): Word { XorW(XorW(AndW(x, y), AndW(x, z)), AndW(y, z)) }

  function BigSigma0(x: Word): Word { XorW(XorW(Rotr(x, 2), Rotr(x, 13)), Rotr(x, 22)) }

  function BigSigma1(x: Word): Word { XorW(XorW(Rotr(x, 6), Rotr(x, 11)), Rotr(x, 25)) }

  function SmallSigma0(x: Word): Word { XorW(XorW(Rotr(x, 7), Rotr(x, 18)), Shr(x, 3)) }

  function SmallSigma1(x: Word): Word { XorW(XorW(Rotr(x, 17), Rotr(x, 19)), Shr(x, 10)) }

  // Section 4.2.2: the round constants.
  function K1(i: nat): Word {
    match i
    case 0 => 0x428a2f98 case 1 => 0x71374491 case 2 => 0xb5c0fbcf case 3 => 0xe9b5dba5
    case 4 => 0x3956c25b case 5 => 0x59f111f1 case 6 => 0x923f82a4 case _ => 0xab1c5ed5
  }

  function K2(i: nat): Word {
    match i
    case 0 => 0xd807aa98 case 1 => 0x12835b01 case 2 => 0x243185be case 3 => 0x550c7dc3
    case 4 => 0x72be5d74 case 5 => 0x80deb1fe case 6 => 0x9bdc06a7 case _ => 0xc19bf174
  }

  function K3(i: nat): Word {
    match i
    case 0 => 0xe49b69c1 case 1 => 0xefbe4786 case 2 => 0x0fc19dc6 case 3 => 0x240ca1cc
    case 4 => 0x2de92c6f case 5 => 0x4a7484aa case 6 => 0x5cb0a9dc case _ => 0x76f988da
  }

  function K4(i: nat): Word {
    match i
    case 0 => 0x983e5152 case 1 => 0xa831c66d case 2 => 0xb00327c8 case 3 => 0xbf597fc7
    case 4 => 0xc6e00bf3 case 5 => 0xd5a79147 case 6 => 0x06ca6351 case _ => 0x14292967
  }

  function K5(i: nat): Word {
    match i
    case 0 => 0x27b70a85 case 1 => 0x2e1b2138 case 2 => 0x4d2c6dfc case 3 => 0x53380d13
    case 4 => 0x650a7354 case 5 => 0x766a0abb case 6 => 0x81c2c92e case _ => 0x92722c85
  }

  function K6(i: nat): Word {
    match i
    case 0 => 0xa2bfe8a1 case 1 => 0xa81a664b case 2 => 0xc24b8b70 case 3 => 0xc76c51a3
    case 4 => 0xd192e819 case 5 => 0xd6990624 case 6 => 0xf40e3585 case _ => 0x106aa070
  }

  function K7(i: nat): Word {
    match i
    case 0 => 0x19a4c116 case 1 => 0x1e376c08 case 2 => 0x2748774c case 3 => 0x34b0bcb5
    case 4 => 0x391c0cb3 case 5 => 0x4ed8aa4a case 6 => 0x5b9cca4f case _ => 0x682e6ff3
  }

  function K8(i: nat): Word {
    match i
    case 0 => 0x748f82ee case 1 => 0x78a5636f case 2 => 0x84c87814 case 3 => 0x8cc70208
    case 4 => 0x90befffa case 5 => 0xa4506ceb case 6 => 0xbef9a3f7 case _ => 0xc67178f2
  }

  function K(t: nat): Word
    requires t < 64
  {
    if t < 8 then K1(t) else if t < 16 then K2(t - 8) else if t < 24 then K3(t - 16) else if t < 32 then K4(t - 24)
    else if t < 40 then K5(t - 32) else if t < 48 then K6(t - 40) else if t < 56 then K7(t - 48) else K8(t - 56)
  }

  // Section 5.1.1: the message, a one bit, the least number of zero bits that
  // leaves room for the length, and the bit length as a 64-bit big-endian number.

  function ZeroBytes(length: nat): nat { (55 - length) % 64 }

  function LastEight(length: nat): nat { length + 1 + ZeroBytes(length) }

  function BlockCount(length: nat): nat { (LastEight(length) + 8) / 64 }

  /** Byte `i` of the eight length bytes, most significant first. */
  function LengthByte(length: nat, i: nat): Byte
    requires i < 8
  {
    8 * length / Pow2(8 * (7 - i)) % 256
  }

  function LengthPrefix(length: nat, i: nat): nat
    requires i <= 8
  {
    if i == 0 then 0 else 256 * LengthPrefix(length, i - 1) + LengthByte(length, i - 1)
  }

  /** The first `i` length bytes are the leading part of the 64-bit length; all eight are the number of bits. */
  lemma {:induction false} LengthReads(length: nat, i: nat)
    requires i <= 8 && 8 * length < Pow2(64)
    ensures LengthPrefix(length, i) == 8 * length / Pow2(8 * (8 - i))
    ensures i == 8 ==> LengthPrefix(length, i) == 8 * length
  {
    if i == 0 {
      Arith.SmallMod(8 * length, Pow2(64));
    } else {
      LengthReads(length, i - 1);
      Pow2Add(8, 8 * (8 - i));
      assert Pow2(8) == 0x100 by { Pow2Values(); }
      NextDigit(8 * length, Pow2(8 * (8 - i)), Pow2(8 * (8 - (i - 1))));
      if i == 8 { UpToUnits(8 * length); }
    }
  }

  lemma NextDigit(x: nat, d: nat, e: nat)
    requires d > 0 && e == 0x100 * d
    ensures 256 * (x / e) + x / d % 256 == x / d
  {
    Arith.DivDiv(x, d, 256);
  }

  lemma UpToUnits(x: nat)
    ensures x / Pow2(0) == x
  {
  }

  function PaddedByte(msg: seq<Byte>, pos: nat): Byte
    requires pos < LastEight(|msg|) + 8
  {
    if pos < |msg| then msg[pos]
    else if pos == |msg| then 0x80
    else if pos < LastEight(|msg|) then 0
    else LengthByte(|msg|, pos - LastEight(|msg|))
  }

  /** The padded message is a whole number of blocks, and no shorter padding is. */
  lemma PaddingIsLeast(length: nat, z: nat)
    ensures LastEight(length) + 8 == 64 * BlockCount(length)
    ensures (length + 1 + z + 8) % 64 == 0 ==> ZeroBytes(length) <= z
  {
    var q := (55 - length) / 64;
    assert LastEight(length) + 8 == 64 * (1 - q);
  }

  // Section 5.2.1: block `b` of the padded message, word by word, big-endian.

  function BlockWord(msg: seq<Byte>, b: nat, w: nat): Word
    requires b < BlockCount(|msg|) && w < 16
  {
    PaddingIsLeast(|msg|, 0);
    var p := 64 * b + 4 * w;
    0x100_0000 * PaddedByte(msg, p) + 0x1_0000 * PaddedByte(msg, p + 1)
    + 0x100 * PaddedByte(msg, p + 2) + PaddedByte(msg, p + 3)
  }

  // Section 6.2.2, step 1: the message schedule of one block.
  function Schedule(msg: seq<Byte>, b: nat, t: nat): Word
    requires b < BlockCount(|msg|)
  {
    if t < 16 then BlockWord(msg, b, t)
    else Add(Add(Add(SmallSigma1(Schedule(msg, b, t - 2)), Schedule(msg, b, t - 7)),
                 SmallSigma0(Schedule(msg, b, t - 15))), Schedule(msg, b, t - 16))
  }

  // Steps 2 to 4: the eight working variables, 64 rounds, and the new hash value.

  datatype State = State(a: Word, b: Word, c: Word, d: Word, e: Word, f: Word, g: Word, h: Word)

  // Section 5.3.3: the initial hash value.
  const H0 := State(0x6a09e667, 0xbb67ae85, 0x3c6ef372, 0xa54ff53a, 0x510e527f, 0x9b05688c, 0x1f83d9ab, 0x5be0cd19)

  function T1(s: State, k: Word, w: Word): Word {
    Add(Add(Add(Add(s.h, BigSigma1(s.e)), Ch(s.e, s.f, s.g)), k), w)
  }

  function T2(s: State): Word { Add(BigSigma0(s.a), Maj(s.a, s.b, s.c)) }

  function Round(s: State, k: Word, w: Word): State {
    State(Add(T1(s, k, w), T2(s)), s.a, s.b, s.c, Add(s.d, T1(s, k, w)), s.e, s.f, s.g)
  }

  function Rounds(s: State, msg: seq<Byte>, b: nat, t: nat): State
    requires b < BlockCount(|msg|) && t <= 64
  {
    if t == 0 then s else Round(Rounds(s, msg, b, t - 1), K(t - 1), Schedule(msg, b, t - 1))
  }

  function AddStates(s: State, r: State): State {
    State(Add(s.a, r.a), Add(s.b, r.b), Add(s.c, r.c), Add(s.d, r.d),
          Add(s.e, r.e), Add(s.f, r.f), Add(s.g, r.g), Add(s.h, r.h))
  }

  /** The hash value after the first `b` blocks. */
  function HashValue(msg: seq<Byte>, b: nat): State
    requires b <= BlockCount(|msg|)
  {
    if b == 0 then H0
    else AddStates(HashValue(msg, b - 1), Rounds(HashValue(msg, b - 1), msg, b - 1, 64))
  }

  function WordBytes(w: Word): seq<Byte> {
    [w / 0x100_0000, w / 0x1_0000 % 256, w / 0x100 % 256, w % 256]
  }

  function StateBytes(s: State): (r: seq<Byte>)
    ensures |r| == 32
  {
    WordBytes(s.a) + WordBytes(s.b) + WordBytes(s.c) + WordBytes(s.d)
    + WordBytes(s.e) + WordBytes(s.f) + WordBytes(s.g) + WordBytes(s.h)
  }

  function Sha256(msg: seq<Byte>): (r: seq<Byte>)
    ensures |r| == 32
  {
    StateBytes(HashValue(msg, BlockCount(|msg|)))
  }
}
