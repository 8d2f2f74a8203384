/** The batched GPU hash: 32-bit words carried in 64-bit signed lanes, branch-free padding, and
    a schedule of sixteen registers that is rotated one slot a round. */
module Sha256Kernel {
  import opened Arith
  import opened Bits
  import opened Fips180

  type Int64 = x: int | -0x8000_0000_0000_0000 <= x < 0x8000_0000_0000_0000

  // ---- 64-bit masked arithmetic simulates 32-bit words ----

  function Mask(x: Int64): (r: Word)
    requires x >= 0
    ensures r == x % 0x1_0000_0000
  {
    Pow2Values();
    AndOnes(x, 32);
    And(x, 0xFFFF_FFFF)
  }

  lemma ShiftLeftFits(x: Word, n: nat)
    requires 0 < n < 32
    ensures 0 <= x * Pow2(32 - n) < 0x8000_0000_0000_0000
  {
    HalfWord(n);
    ProductFits(x, Pow2(32 - n));
  }

  lemma HalfWord(n: nat)
    requires 0 < n < 32
    ensures Pow2(32 - n) <= 0x8000_0000
  {
    Pow2Values();
    Pow2Add(n - 1, 32 - n);
    hide Pow2;
    MulMono(1, Pow2(n - 1), Pow2(32 - n));
  }

  lemma ProductFits(x: Word, p: nat)
    requires p <= 0x8000_0000
    ensures 0 <= x * p < 0x8000_0000_0000_0000
  {
    MulMono(0, x, p);
    MulMono(x, 0xFFFF_FFFF, p);
  }

  lemma OrFits(right: nat, left: nat)
    requires right < 0x8000_0000_0000_0000 && left < 0x8000_0000_0000_0000
    ensures Or(right, left) < 0x8000_0000_0000_0000
  {
    Pow2Values();
    Pow2Add(32, 31);
    assert Pow2(32) == 2 * Pow2(31);
    BelowPow2(right, left, 63);
  }

  lemma MaskedOr(right: Word, left: nat)
    ensures Or(right, left) % 0x1_0000_0000 == OrW(right, left % 0x1_0000_0000)
  {
    assert Or(right, left) % 0x1_0000_0000 == Or(right % 0x1_0000_0000, left % 0x1_0000_0000) by {
      Pow2Values();
      OrMod(right, left, 32);
    }
    SmallMod(right, 0x1_0000_0000);
  }

  /** Shifting both ways in 64 bits and masking is the 32-bit rotation. */
  function Rotr32(x: Word, n: nat): (r: Word)
    requires 0 < n < 32
    ensures r == Rotr(x, n)
  {
    ShiftLeftFits(x, n);
    OrFits(Shr(x, n), x * Pow2(32 - n));
    MaskedOr(Shr(x, n), x * Pow2(32 - n));
    Mask(Or(Shr(x, n), x * Pow2(32 - n)))
  }

  function MaskedXor3(x: Word, y: Word, z: Word): (r: Word)
    ensures r == XorW(XorW(x, y), z)
  {
    StaysWord(x, y);
    StaysWord(Xor(x, y), z);
    SmallMod(Xor(Xor(x, y), z), 0x1_0000_0000);
    Mask(Xor(Xor(x, y), z))
  }

  function Choose(e: Word, f: Word, g: Word): (r: Word)
    ensures r == Ch(e, f, g)
  {
    assert Xor(e, 0xFFFF_FFFF) == NotW(e) by {
      Pow2Values();
      XorOnes(e, 32);
    }
    XorW(AndW(e, f), AndW(Xor(e, 0xFFFF_FFFF), g))
  }

  lemma Sum5(a: Word, b: Word, c: Word, d: Word, e: Word)
    ensures (a + b + c + d + e) % 0x1_0000_0000 == Add(Add(Add(Add(a, b), c), d), e)
  {
    ModAdd(a + b, c, 0x1_0000_0000);
    ModAdd(a + b + c, d, 0x1_0000_0000);
    ModAdd(a + b + c + d, e, 0x1_0000_0000);
  }

  lemma Sum4(a: Word, b: Word, c: Word, d: Word)
    ensures (a + b + c + d) % 0x1_0000_0000 == Add(Add(Add(d, c), b), a)
  {
    ModAdd(d + c, b, 0x1_0000_0000);
    ModAdd(d + c + b, a, 0x1_0000_0000);
    assert a + b + c + d == d + c + b + a;
  }

  // ---- the padded message ----

  lemma BytesShiftedIn(word: nat, byte: Byte)
    ensures Or(word * 256, byte) == word * 256 + byte
  {
    Pow2Values();
    OrDisjoint(word, byte, 8);
  }

  function Min(x: int, y: int): int { if x < y then x else y }

  function Max(x: int, y: int): int { if x > y then x else y }

  /** The byte at `pos`, with padding and length added in by position tests. */
  function PositionByte(data: Byte, pos: nat, length: nat, last8: nat): int {
    var lenIdx := pos - last8;
    var shift := Max(Min((7 - lenIdx) * 8, 56), 0);
    var lenByte := (length * 8) / Pow2(shift) % 256;
    data + 0x80 * (if pos == length then 1 else 0) + lenByte * (if pos >= last8 then 1 else 0)
  }

  lemma PositionByteIsPadded(msg: seq<Byte>, pos: nat)
    requires pos < LastEight(|msg|) + 8
    ensures PositionByte(if pos < |msg| then msg[pos] else 0, pos, |msg|, LastEight(|msg|)) == PaddedByte(msg, pos)
  {
  }

  function FirstBytes(msg: seq<Byte>, q: nat, k: nat): nat
    requires q + k <= LastEight(|msg|) + 8
  {
    if k == 0 then 0 else FirstBytes(msg, q, k - 1) * 256 + PaddedByte(msg, q + k - 1)
  }

  lemma FourBytes(msg: seq<Byte>, b: nat, w: nat)
    requires b < BlockCount(|msg|) && w < 16
    ensures 64 * b + 4 * w + 4 <= LastEight(|msg|) + 8
    ensures FirstBytes(msg, 64 * b + 4 * w, 4) == BlockWord(msg, b, w)
  {
    PaddingIsLeast(|msg|, 0);
    var q := 64 * b + 4 * w;
    assert FirstBytes(msg, q, 1) == PaddedByte(msg, q);
    assert FirstBytes(msg, q, 2) == 0x100 * PaddedByte(msg, q) + PaddedByte(msg, q + 1);
    assert FirstBytes(msg, q, 3) == 0x1_0000 * PaddedByte(msg, q) + 0x100 * PaddedByte(msg, q + 1) + PaddedByte(msg, q + 2);
  }

  lemma ShiftIn(msg: seq<Byte>, q: nat, k: nat, acc: nat, bval: int)
    requires q + k < LastEight(|msg|) + 8 && acc == FirstBytes(msg, q, k)
    requires bval == PositionByte(if q + k < |msg| then msg[q + k] else 0, q + k, |msg|, LastEight(|msg|))
    ensures Or(acc * 256, bval % 256) == FirstBytes(msg, q, k + 1)
  {
    PositionByteIsPadded(msg, q + k);
    SmallMod(bval, 256);
    BytesShiftedIn(acc, bval);
  }

  /** Below 2^28 bytes the bit count fits a 32-bit scalar with its sign, and the shifts a 32-bit
      scalar cannot make would leave nothing. */
  lemma NarrowLength(length: nat, shift: nat)
    ensures 8 * length < 0x8000_0000 <==> length < 0x1000_0000
    ensures length < 0x1000_0000 && shift >= 32 ==> 8 * length / Pow2(shift) == 0
  {
    if length < 0x1000_0000 && shift >= 32 {
      Pow2Values();
      Pow2Add(32, shift - 32);
      hide Pow2;
      MulMono(1, Pow2(shift - 32), 0x1_0000_0000);
      SmallMod(8 * length, Pow2(shift));
    }
  }

  /** Where the word starts, and what its four bytes make. */
  lemma WordPlace(msg: seq<Byte>, bb: nat, p: nat, last8: nat)
    requires last8 == 64 * BlockCount(|msg|) - 8 && bb % 64 == 0 && bb < last8 && p < 16
    ensures bb / 64 < BlockCount(|msg|) && last8 == LastEight(|msg|) && bb + 4 * p + 4 <= last8 + 8
    ensures FirstBytes(msg, bb + 4 * p, 0) == 0 && FirstBytes(msg, bb + 4 * p, 4) == BlockWord(msg, bb / 64, p)
  {
    assert bb + 4 * p == 64 * (bb / 64) + 4 * p;
    PaddingIsLeast(|msg|, 0);
    FourBytes(msg, bb / 64, p);
  }

  /** Schedule word `p` of the block at byte `bb`. */
  method BlkWord(msg: array<Byte>, rowBase: nat, bb: nat, p: nat, length: nat, last8: nat) returns (word: Word)
    requires rowBase + length <= msg.Length && p < 16
    requires last8 == 64 * BlockCount(length) - 8
    requires bb % 64 == 0 && bb < last8
    ensures bb / 64 < BlockCount(length)
    ensures word == BlockWord(msg[rowBase..rowBase + length], bb / 64, p)
  {
    hide PositionByte, BlockWord, FirstBytes, Or;
    ghost var m, q, b := msg[rowBase..rowBase + length], bb + 4 * p, bb / 64;
    WordPlace(m, bb, p, last8);
    var acc: nat := 0;
    for k := 0 to 4
      invariant acc == FirstBytes(m, q, k)
    {
      var pos := bb + (p * 4 + k);
      var data := if pos < length then msg[rowBase + pos] else 0;
      var bval := PositionByte(data, pos, length, last8);
      ShiftIn(m, q, k, acc, bval);
      acc := Or(acc * 256, bval % 256);
    }
    SmallMod(acc, 0x1_0000_0000);
    word := Mask(acc);
  }

  // ---- one round, and one block on sixteen rotating registers ----

  /** `W[t]` from the registers that hold `W[t-16]`, `W[t-15]`, `W[t-7]` and `W[t-2]`. */
  function NextWord(m0: Word, m1: Word, m9: Word, m14: Word): (r: Word)
    ensures r == Add(Add(Add(SmallSigma1(m14), m9), SmallSigma0(m1)), m0)
  {
    var s0 := MaskedXor3(Rotr32(m1, 7), Rotr32(m1, 18), Shr(m1, 3));
    var s1 := MaskedXor3(Rotr32(m14, 17), Rotr32(m14, 19), Shr(m14, 10));
    Sum4(m0, s0, m9, s1);
    var sum: Int64 := m0 as int + s0 as int + m9 as int + s1 as int;
    Mask(sum)
  }

  function MaskedAdd(x: Word, y: Word): (r: Word)
    ensures r == Add(x, y)
  {
    var sum: Int64 := x as int + y as int;
    Mask(sum)
  }

  function Temp1(e: Word, f: Word, g: Word, hh: Word, kt: Word, wt: Word): (r: Word)
    ensures r == Add(Add(Add(Add(hh, BigSigma1(e)), Ch(e, f, g)), kt), wt)
  {
    var S1 := MaskedXor3(Rotr32(e, 6), Rotr32(e, 11), Rotr32(e, 25));
    var ch := Choose(e, f, g);
    var sum: Int64 := hh as int + S1 as int + ch as int + kt as int + wt as int;
    Sum5(hh, S1, ch, kt, wt);
    Mask(sum)
  }

  function Temp2(a: Word, b: Word, c: Word): (r: Word)
    ensures r == Add(BigSigma0(a), Maj(a, b, c))
  {
    var S0 := MaskedXor3(Rotr32(a, 2), Rotr32(a, 13), Rotr32(a, 22));
    var maj := XorW(XorW(AndW(a, b), AndW(a, c)), AndW(b, c));
    MaskedAdd(S0, maj)
  }

  method RoundStep(s: State, kt: Word, wt: Word) returns (r: State)
    ensures r == Round(s, kt, wt)
  {
    var a, b, c, d, e, f, g, hh := s.a, s.b, s.c, s.d, s.e, s.f, s.g, s.h;
    var temp1 := Temp1(e, f, g, hh, kt, wt);
    var temp2 := Temp2(a, b, c);
    hh := g;
    g := f;
    f := e;
    e := MaskedAdd(d, temp1);
    d := c;
    c := b;
    b := a;
    a := MaskedAdd(temp1, temp2);
    r := State(a, b, c, d, e, f, g, hh);
  }

  /** The schedule index held by register `j` at the start of round `t`. */
  function Slot(t: nat, j: nat): nat { if t + j < 16 then t + j else t + j - 16 }

  lemma FirstWords(msg: seq<Byte>, b: nat)
    requires b < BlockCount(|msg|)
    ensures forall t: nat :: t < 16 ==> Schedule(msg, b, t) == BlockWord(msg, b, t)
  {
  }

  lemma LaterWord(msg: seq<Byte>, b: nat, t: nat)
    requires b < BlockCount(|msg|) && t >= 16
    ensures Schedule(msg, b, t)
            == NextWord(Schedule(msg, b, t - 16), Schedule(msg, b, t - 15), Schedule(msg, b, t - 7), Schedule(msg, b, t - 2))
  {
  }

  lemma NoRounds(s: State, msg: seq<Byte>, b: nat)
    requires b < BlockCount(|msg|)
    ensures Rounds(s, msg, b, 0) == s
  {
  }

  lemma OneRound(s: State, msg: seq<Byte>, b: nat, t: nat)
    requires b < BlockCount(|msg|) && t < 64
    ensures Rounds(s, msg, b, t + 1) == Round(Rounds(s, msg, b, t), K(t), Schedule(msg, b, t))
  {
  }

  method ProcessBlock(msg: array<Byte>, rowBase: nat, bb: nat, length: nat, last8: nat, h: State) returns (r: State)
    requires rowBase + length <= msg.Length
    requires last8 == 64 * BlockCount(length) - 8
    requires bb % 64 == 0 && bb < last8
    ensures bb / 64 < BlockCount(length)
    ensures r == AddStates(h, Rounds(h, msg[rowBase..rowBase + length], bb / 64, 64))
  {
    hide Schedule, Rounds, BlockWord, NextWord, Round;
    ghost var m, blk := msg[rowBase..rowBase + length], bb / 64;
    FirstWords(m, blk);
    NoRounds(h, m, blk);
    var m0 := BlkWord(msg, rowBase, bb, 0, length, last8);
    var m1 := BlkWord(msg, rowBase, bb, 1, length, last8);
    var m2 := BlkWord(msg, rowBase, bb, 2, length, last8);
    var m3 := BlkWord(msg, rowBase, bb, 3, length, last8);
    var m4 := BlkWord(msg, rowBase, bb, 4, length, last8);
    var m5 := BlkWord(msg, rowBase, bb, 5, length, last8);
    var m6 := BlkWord(msg, rowBase, bb, 6, length, last8);
    var m7 := BlkWord(msg, rowBase, bb, 7, length, last8);
    var m8 := BlkWord(msg, rowBase, bb, 8, length, last8);
    var m9 := BlkWord(msg, rowBase, bb, 9, length, last8);
    var m10 := BlkWord(msg, rowBase, bb, 10, length, last8);
    var m11 := BlkWord(msg, rowBase, bb, 11, length, last8);
    var m12 := BlkWord(msg, rowBase, bb, 12, length, last8);
    var m13 := BlkWord(msg, rowBase, bb, 13, length, last8);
    var m14 := BlkWord(msg, rowBase, bb, 14, length, last8);
    var m15 := BlkWord(msg, rowBase, bb, 15, length, last8);
    var s := h;
    for t := 0 to 64
      invariant m0 == Schedule(m, blk, Slot(t, 0)) && m1 == Schedule(m, blk, Slot(t, 1))
      invariant m2 == Schedule(m, blk, Slot(t, 2)) && m3 == Schedule(m, blk, Slot(t, 3))
      invariant m4 == Schedule(m, blk, Slot(t, 4)) && m5 == Schedule(m, blk, Slot(t, 5))
      invariant m6 == Schedule(m, blk, Slot(t, 6)) && m7 == Schedule(m, blk, Slot(t, 7))
      invariant m8 == Schedule(m, blk, Slot(t, 8)) && m9 == Schedule(m, blk, Slot(t, 9))
      invariant m10 == Schedule(m, blk, Slot(t, 10)) && m11 == Schedule(m, blk, Slot(t, 11))
      invariant m12 == Schedule(m, blk, Slot(t, 12)) && m13 == Schedule(m, blk, Slot(t, 13))
      invariant m14 == Schedule(m, blk, Slot(t, 14)) && m15 == Schedule(m, blk, Slot(t, 15))
      invariant s == Rounds(h, m, blk, t)
    {
      if t >= 16 {
        LaterWord(m, blk, t);
        m0 := NextWord(m0, m1, m9, m14);
      }
      assert m0 == Schedule(m, blk, t);
      OneRound(h, m, blk, t);
      s := RoundStep(s, K(t), m0);
      m0, m1, m2, m3, m4, m5, m6, m7, m8, m9, m10, m11, m12, m13, m14, m15 :=
        m1, m2, m3, m4, m5, m6, m7, m8, m9, m10, m11, m12, m13, m14, m15, m0;
    }
    r := State(MaskedAdd(h.a, s.a), MaskedAdd(h.b, s.b), MaskedAdd(h.c, s.c), MaskedAdd(h.d, s.d),
               MaskedAdd(h.e, s.e), MaskedAdd(h.f, s.f), MaskedAdd(h.g, s.g), MaskedAdd(h.h, s.h));
  }

  // ---- the kernel over a batch of rows ----

  const ROWS: nat := 64

  /** `after` is `before` with `bytes` written at `p`. */
  ghost predicate Written(before: seq<Byte>, after: seq<Byte>, p: nat, bytes: seq<Byte>) {
    p + |bytes| <= |before| && after == before[..p] + bytes + before[p + |bytes|..]
  }

  lemma WrittenThen(s0: seq<Byte>, s1: seq<Byte>, s2: seq<Byte>, p: nat, x: seq<Byte>, y: seq<Byte>)
    requires Written(s0, s1, p, x) && Written(s1, s2, p + |x|, y)
    ensures Written(s0, s2, p, x + y)
  {
    assert s1[..p + |x|] == s0[..p] + x;
    assert s1[p + |x| + |y|..] == s0[p + |x| + |y|..];
  }

  lemma NothingWritten(s: seq<Byte>, p: nat)
    requires p <= |s|
    ensures Written(s, s, p, [])
  {
  }

  lemma WrittenElsewhere(before: seq<Byte>, after: seq<Byte>, p: nat, bytes: seq<Byte>, lo: nat, hi: nat)
    requires Written(before, after, p, bytes) && lo <= hi <= p
    ensures after[lo..hi] == before[lo..hi]
    ensures after[p..p + |bytes|] == bytes
  {
  }

  /** Writes state word `widx` big-endian into the output row. */
  method StoreWord(out: array<Byte>, outRow: nat, widx: nat, hv: Word)
    requires outRow + 4 * widx + 4 <= out.Length
    modifies out
    ensures Written(old(out[..]), out[..], outRow + 4 * widx, WordBytes(hv))
  {
    var p := outRow + 4 * widx;
    out[p] := hv / 0x100_0000 % 256;
    out[p + 1] := hv / 0x1_0000 % 256;
    out[p + 2] := hv / 0x100 % 256;
    out[p + 3] := hv % 256;
  }

  lemma NextWordBytes(s: State, w: nat)
    requires w < 8
    ensures StateBytes(s)[..4 * w] + WordBytes([s.a, s.b, s.c, s.d, s.e, s.f, s.g, s.h][w]) == StateBytes(s)[..4 * (w + 1)]
  {
    var word := [s.a, s.b, s.c, s.d, s.e, s.f, s.g, s.h][w];
    assert StateBytes(s)[4 * w..4 * w + 4] == WordBytes(word);
  }

  /** Hashes the row of `length` bytes at `rowBase` into the 32 bytes at `outRow`. */
  method HashRow(msg: array<Byte>, rowBase: nat, length: nat, nBlocks: nat, out: array<Byte>, outRow: nat)
    requires rowBase + length <= msg.Length && outRow + 32 <= out.Length && msg != out
    requires nBlocks == BlockCount(length)
    modifies out
    ensures Written(old(out[..]), out[..], outRow, Sha256(msg[rowBase..rowBase + length]))
  {
    hide Written, WordBytes, HashValue;
    var h := HashState(msg, rowBase, length, nBlocks);
    NothingWritten(out[..], outRow);
    var words := [h.a, h.b, h.c, h.d, h.e, h.f, h.g, h.h];
    for w := 0 to 8
      invariant Written(old(out[..]), out[..], outRow, StateBytes(h)[..4 * w])
      invariant msg[..] == old(msg[..])
    {
      ghost var before := out[..];
      StoreWord(out, outRow, w, words[w]);
      WrittenThen(old(out[..]), before, out[..], outRow, StateBytes(h)[..4 * w], WordBytes(words[w]));
      NextWordBytes(h, w);
    }
    assert StateBytes(h)[..32] == StateBytes(h);
  }

  method HashState(msg: array<Byte>, rowBase: nat, length: nat, nBlocks: nat) returns (h: State)
    requires rowBase + length <= msg.Length
    requires nBlocks == BlockCount(length)
    ensures StateBytes(h) == Sha256(msg[rowBase..rowBase + length])
  {
    hide Rounds, AddStates, StateBytes, BlockWord, Schedule;
    ghost var m := msg[rowBase..rowBase + length];
    var last8 := nBlocks * 64 - 8;
    h := H0;
    for bidx := 0 to nBlocks
      invariant h == HashValue(m, bidx)
    {
      h := ProcessBlock(msg, rowBase, bidx * 64, length, last8, h);
    }
  }

  lemma BlockCountFormula(length: nat)
    ensures (length + 9 + 63) / 64 == BlockCount(length) > 0
  {
    PaddingIsLeast(length, 0);
  }

  /** The first `n` rows of the output are the given 32-byte digests. */
  ghost predicate RowsHold(out: seq<Byte>, digests: seq<seq<Byte>>, n: nat) {
    n <= |digests| && 32 * n <= |out| && forall r: nat :: r < n ==> out[32 * r..32 * r + 32] == digests[r]
  }

  lemma OneMoreRow(before: seq<Byte>, after: seq<Byte>, digests: seq<seq<Byte>>, row: nat)
    requires RowsHold(before, digests, row) && row < |digests| && |digests[row]| == 32
    requires Written(before, after, 32 * row, digests[row])
    ensures RowsHold(after, digests, row + 1)
  {
    forall r: nat | r <= row
      ensures after[32 * r..32 * r + 32] == digests[r]
    {
      if r < row {
        WrittenElsewhere(before, after, 32 * row, digests[row], 32 * r, 32 * r + 32);
      } else {
        WrittenElsewhere(before, after, 32 * row, digests[row], 0, 0);
      }
    }
  }

  function RowOf(msg: seq<Byte>, count: nat, length: nat, r: nat): (row: seq<Byte>)
    requires |msg| == count * length && r < count
    ensures r * length + length <= |msg| && row == msg[r * length..r * length + length]
  {
    MulMono(r + 1, count, length);
    assert (r + 1) * length == r * length + length;
    msg[r * length..r * length + length]
  }

  /** The digest of each of `count` rows of `length` bytes. */
  ghost function Digests(msg: seq<Byte>, count: nat, length: nat): seq<seq<Byte>>
    requires |msg| == count * length
  {
    seq(count, r requires 0 <= r < count => Sha256(RowOf(msg, count, length, r)))
  }

  lemma NoRows(out: seq<Byte>, digests: seq<seq<Byte>>)
    ensures RowsHold(out, digests, 0)
  {
  }

  /** One lane: row `row` of the messages into row `row` of the digests. */
  method HashLane(msg: array<Byte>, count: nat, length: nat, nBlocks: nat, out: array<Byte>, row: nat,
                  ghost digests: seq<seq<Byte>>)
    requires msg.Length == count * length && out.Length == 32 * count && msg != out && row < count
    requires nBlocks == BlockCount(length) && digests == Digests(msg[..], count, length) && RowsHold(out[..], digests, row)
    modifies out
    ensures RowsHold(out[..], digests, row + 1)
  {
    hide Sha256, Written, RowsHold;
    ghost var before, m := out[..], RowOf(msg[..], count, length, row);
    assert msg[row * length..row * length + length] == m;
    HashRow(msg, row * length, length, nBlocks, out, 32 * row);
    OneMoreRow(before, out[..], digests, row);
  }

  /** Hashes `count` rows of `length` bytes each: programs of `ROWS` lanes, the excess lanes of
      the last program masked off. */
  method Sha256Many(msg: array<Byte>, count: nat, length: nat) returns (out: array<Byte>)
    requires count > 0 && 0 < length && 8 * length < 0x8000_0000_0000_0000
    requires msg.Length == count * length
    ensures fresh(out) && out.Length == 32 * count
    ensures RowsHold(out[..], Digests(msg[..], count, length), count)
  {
    hide Sha256, Written, RowsHold, Digests;
    out := new Byte[32 * count];
    var nBlocks := (length + 9 + 63) / 64;
    BlockCountFormula(length);
    ghost var digests := Digests(msg[..], count, length);
    NoRows(out[..], digests);
    var grid := (count + ROWS - 1) / ROWS;
    for pid := 0 to grid
      invariant RowsHold(out[..], digests, Min(count, pid * ROWS))
    {
      for lane := 0 to ROWS
        invariant RowsHold(out[..], digests, Min(count, pid * ROWS + lane))
      {
        var row := pid * ROWS + lane;
        if row < count { HashLane(msg, count, length, nBlocks, out, row, digests); }
      }
    }
  }
}
