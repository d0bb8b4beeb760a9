/** SHA-1: the fast form of the program against sections 4 to 6 of RFC 3174. */
module Sha1 {
  import opened Blocks

  type Word = bv32

  /** The five working words; also the five words of the hash value. */
  datatype Regs = Regs(a: Word, b: Word, c: Word, d: Word, e: Word)

  // ----- section 6.1: the definition -----

  function Rol1(v: Word): Word {
    (v << 1) | (v >> 31)
  }

  function Rol5(v: Word): Word {
    (v << 5) | (v >> 27)
  }

  function Rol30(v: Word): Word {
    (v << 30) | (v >> 2)
  }

  /** The functions f(t; B, C, D). */
  function F(t: nat, b: Word, c: Word, d: Word): Word {
    if t < 20 then (b & c) | (!b & d)
    else if t < 40 then b ^ c ^ d
    else if t < 60 then (b & c) | (b & d) | (c & d)
    else b ^ c ^ d
  }

  function K(t: nat): Word {
    if t < 20 then 0x5A82_7999 else if t < 40 then 0x6ED9_EBA1 else if t < 60 then 0x8F1B_BCDC else 0xCA62_C1D6
  }

  function Xor4(a: Word, b: Word, c: Word, d: Word): Word {
    a ^ b ^ c ^ d
  }

  function BeWord(b0: bv8, b1: bv8, b2: bv8, b3: bv8): Word {
    ((b0 as bv32) << 24) | ((b1 as bv32) << 16) | ((b2 as bv32) << 8) | (b3 as bv32)
  }

  /** W(t) of the eighty-word schedule. */
  function W(block: Octets, t: nat): Word
    requires |block| == 64
  {
    if t < 16 then BeWord(block[4 * t], block[4 * t + 1], block[4 * t + 2], block[4 * t + 3])
    else Rol1(Xor4(W(block, t - 3), W(block, t - 8), W(block, t - 14), W(block, t - 16)))
  }

  function Sum5(a: Word, b: Word, c: Word, d: Word, e: Word): Word {
    a + b + c + d + e
  }

  /** Step t of method 1: every word is shifted to the next role. */
  function Turn(r: Regs, t: nat, w: Word): Regs {
    Regs(Sum5(Rol5(r.a), F(t, r.b, r.c, r.d), r.e, w, K(t)), r.a, Rol30(r.b), r.c, r.d)
  }

  function Turns(r: Regs, block: Octets, n: nat): Regs
    requires |block| == 64
  {
    if n == 0 then r else Turn(Turns(r, block, n - 1), n - 1, W(block, n - 1))
  }

  function AddRegs(h: Regs, r: Regs): Regs {
    Regs(h.a + r.a, h.b + r.b, h.c + r.c, h.d + r.d, h.e + r.e)
  }

  const ROUNDS: nat := 80

  /** The hash value after a block of n steps. */
  function Chained(h: Regs, block: Octets, n: nat): Regs
    requires |block| == 64
  {
    AddRegs(h, Turns(h, block, n))
  }

  /** The compression function; totally defined, as a block is always 64 octets. */
  function Compress(h: Regs, block: Octets): Regs {
    if |block| != 64 then h
    else Chained(h, block, ROUNDS)
  }

  const H0 := Regs(0x6745_2301, 0xEFCD_AB89, 0x98BA_DCFE, 0x1032_5476, 0xC3D2_E1F0)

  function Spell(w: Word): Octets {
    [(w >> 24) as bv8, ((w >> 16) & 0xFF) as bv8, ((w >> 8) & 0xFF) as bv8, (w & 0xFF) as bv8]
  }

  function Digest(h: Regs): Octets {
    Spell(h.a) + Spell(h.b) + Spell(h.c) + Spell(h.d) + Spell(h.e)
  }

  /** The message digest, whose length field counts the bits modulo 2^64. */
  function Hash(msg: Octets): Octets {
    Digest(Fold(Compress, H0, Pad(msg, Be64(BitCount(|msg|)))))
  }

  // ----- the round macros -----

  /** `blk0` on a little-endian machine: the word as loaded, with its octets reversed. */
  function LeWord(b0: bv8, b1: bv8, b2: bv8, b3: bv8): Word {
    (b0 as bv32) | ((b1 as bv32) << 8) | ((b2 as bv32) << 16) | ((b3 as bv32) << 24)
  }

  function Octet0(w: Word): bv8 {
    (w & 0xFF) as bv8
  }

  function Octet1(w: Word): bv8 {
    ((w >> 8) & 0xFF) as bv8
  }

  function Octet2(w: Word): bv8 {
    ((w >> 16) & 0xFF) as bv8
  }

  function Octet3(w: Word): bv8 {
    (w >> 24) as bv8
  }

  lemma LeWordBack(w: Word)
    ensures LeWord(Octet0(w), Octet1(w), Octet2(w), Octet3(w)) == w
  {
  }

  /** The k-th word of a block, as a little-endian machine reads it. */
  function WordAt(block: Octets, k: nat): Word
    requires 4 * k + 4 <= |block|
  {
    LeWord(block[4 * k], block[4 * k + 1], block[4 * k + 2], block[4 * k + 3])
  }

  function Swapped(v: Word): Word {
    (((v << 24) | (v >> 8)) & 0xFF00_FF00) | (((v << 8) | (v >> 24)) & 0x00FF_00FF)
  }

  lemma SwappedLoad(b0: bv8, b1: bv8, b2: bv8, b3: bv8)
    ensures Swapped(LeWord(b0, b1, b2, b3)) == BeWord(b0, b1, b2, b3)
  {
  }

  /** The selection of the macros: R0 and R1, R2, R3, R4. */
  function Mix(t: nat, w: Word, x: Word, y: Word): Word {
    if t < 20 then (w & (x ^ y)) ^ y
    else if t < 40 then w ^ x ^ y
    else if t < 60 then ((w | x) & y) | (w & x)
    else w ^ x ^ y
  }

  lemma MixIsF(t: nat, w: Word, x: Word, y: Word)
    ensures Mix(t, w, x, y) == F(t, w, x, y)
  {
    MixChoose(w, x, y);
    MixMajority(w, x, y);
  }

  lemma MixChoose(w: Word, x: Word, y: Word)
    ensures (w & (x ^ y)) ^ y == (w & x) | (!w & y)
  {
  }

  lemma MixMajority(w: Word, x: Word, y: Word)
    ensures ((w | x) & y) | (w & x) == (w & x) | (w & y) | (x & y)
  {
  }

  /** The order in which the macros add. */
  function MacroOrder(z: Word, f: Word, s: Word, k: Word, r: Word): Word {
    z + (f + s + k + r)
  }

  lemma SumOrder(z: Word, f: Word, s: Word, k: Word, r: Word)
    ensures MacroOrder(z, f, s, k, r) == Sum5(r, f, z, s, k)
  {
  }

  // ----- the circular schedule -----

  /** `i & 15`. */
  function Slot(i: nat): (k: nat)
    ensures k < 16
  {
    i % 16
  }

  lemma SlotsDiffer(t: nat, i: nat)
    requires i < t + 16 && t < i
    ensures Slot(t) != Slot(i)
  {
    assert i == 16 * (i / 16) + i % 16 && t == 16 * (t / 16) + t % 16;
  }

  lemma SlotBack(i: nat, k: nat)
    requires k <= 16 <= i
    ensures Slot(i - k) == Slot(i + 16 - k)
  {
    assert (i + 16 - k) == (i - k) + 16;
  }

  /**
   * The block before round i: the sixteen latest words of the schedule, each at its index modulo
   * sixteen, and behind them the words still as loaded.
   */
  ghost predicate Circular(l: seq<Word>, block: Octets, i: nat) {
    && |l| == 16 && |block| == 64
    && (forall t: nat :: i <= t + 16 && t < i ==> l[Slot(t)] == W(block, t))
    && (forall t: nat :: i <= t < 16 ==> Swapped(l[t]) == W(block, t))
  }

  /** What the macros `blk0` and `blk` store at round i. */
  function Stored(l: seq<Word>, i: nat): Word
    requires |l| == 16
  {
    if i < 16 then Swapped(l[i])
    else Rol1(Xor4(l[Slot(i + 13)], l[Slot(i + 8)], l[Slot(i + 2)], l[Slot(i)]))
  }

  lemma StoredIsW(l: seq<Word>, block: Octets, i: nat)
    requires Circular(l, block, i)
    ensures Stored(l, i) == W(block, i)
  {
    if i >= 16 {
      SlotBack(i, 3);
      SlotBack(i, 8);
      SlotBack(i, 14);
      SlotBack(i, 16);
      assert l[Slot(i - 3)] == W(block, i - 3);
      assert l[Slot(i - 8)] == W(block, i - 8);
      assert l[Slot(i - 14)] == W(block, i - 14);
      assert l[Slot(i - 16)] == W(block, i - 16);
    }
  }

  lemma SlotKept(l: seq<Word>, t: nat, i: nat, w: Word)
    requires |l| == 16 && i < t + 16 && t < i
    ensures l[Slot(i) := w][Slot(t)] == l[Slot(t)]
  {
    SlotsDiffer(t, i);
  }

  lemma LoadedKept(l: seq<Word>, t: nat, i: nat, w: Word)
    requires |l| == 16 && i < t < 16
    ensures l[Slot(i) := w][t] == l[t]
  {
    assert Slot(i) == i;
  }

  lemma CircularNext(l: seq<Word>, block: Octets, i: nat, w: Word)
    requires Circular(l, block, i) && w == W(block, i)
    ensures Circular(l[Slot(i) := w], block, i + 1)
  {
    var l' := l[Slot(i) := w];
    forall t: nat | i + 1 <= t + 16 && t < i + 1 ensures l'[Slot(t)] == W(block, t) {
      if t < i {
        SlotKept(l, t, i, w);
      }
    }
    forall t: nat | i + 1 <= t < 16 ensures Swapped(l'[t]) == W(block, t) {
      LoadedKept(l, t, i, w);
    }
  }

  /** `blk0(i)` and `blk(i)`: the next word of the schedule is stored and used. */
  method Expand(l: array<Word>, i: nat, ghost block: Octets) returns (r: Word)
    requires l.Length == 16 && Circular(l[..], block, i)
    modifies l
    ensures Circular(l[..], block, i + 1) && r == W(block, i)
  {
    StoredIsW(l[..], block, i);
    CircularNext(l[..], block, i, W(block, i));
    r := if i < 16 then Swapped(l[i])
         else Rol1(Xor4(l[Slot(i + 13)], l[Slot(i + 8)], l[Slot(i + 2)], l[Slot(i)]));
    ghost var before := l[..];
    l[Slot(i)] := r;
    assert l[..] == before[Slot(i) := r];
  }

  /** What a macro adds up. */
  function MacroSum(v: Word, w: Word, x: Word, y: Word, z: Word, i: nat, s: Word): Word {
    MacroOrder(z, Mix(i, w, x, y), s, K(i), Rol5(v))
  }

  lemma MacroSumIs(v: Word, w: Word, x: Word, y: Word, z: Word, i: nat, s: Word)
    ensures MacroSum(v, w, x, y, z, i, s) == Sum5(Rol5(v), F(i, w, x, y), z, s, K(i))
  {
    MixIsF(i, w, x, y);
    SumOrder(z, F(i, w, x, y), s, K(i), Rol5(v));
  }

  /**
   * One of the macros R0 to R4. The five variables keep their places: w and z change, and the
   * caller names them in rotated roles next time.
   */
  method Round(v: Word, w: Word, x: Word, y: Word, z: Word, l: array<Word>, i: nat, ghost block: Octets)
    returns (w': Word, z': Word)
    requires l.Length == 16 && Circular(l[..], block, i)
    modifies l
    ensures Circular(l[..], block, i + 1)
    ensures w' == Rol30(w) && z' == Sum5(Rol5(v), F(i, w, x, y), z, W(block, i), K(i))
  {
    var s := Expand(l, i, block);
    MacroSumIs(v, w, x, y, z, i, s);
    z' := MacroSum(v, w, x, y, z, i, s);
    w' := Rol30(w);
  }

  /** Five unrolled rounds, after which every variable is back in its first role. */
  method FiveRounds(r: Regs, l: array<Word>, i: nat, ghost h: Regs, ghost block: Octets) returns (r': Regs)
    requires l.Length == 16 && Circular(l[..], block, i) && r == Turns(h, block, i)
    modifies l
    ensures Circular(l[..], block, i + 5) && r' == Turns(h, block, i + 5)
  {
    var Regs(a, b, c, d, e) := r;
    b, e := Round(a, b, c, d, e, l, i, block);
    assert Regs(e, a, b, c, d) == Turns(h, block, i + 1);
    a, d := Round(e, a, b, c, d, l, i + 1, block);
    assert Regs(d, e, a, b, c) == Turns(h, block, i + 2);
    e, c := Round(d, e, a, b, c, l, i + 2, block);
    assert Regs(c, d, e, a, b) == Turns(h, block, i + 3);
    d, b := Round(c, d, e, a, b, l, i + 3, block);
    assert Regs(b, c, d, e, a) == Turns(h, block, i + 4);
    c, a := Round(b, c, d, e, a, l, i + 4, block);
    r' := Regs(a, b, c, d, e);
  }

  /** The buffer read as sixteen words, on a little-endian machine. */
  method Load(buffer: array<bv8>) returns (l: array<Word>)
    requires buffer.Length == 64
    ensures fresh(l) && l.Length == 16 && Circular(l[..], buffer[..], 0)
  {
    l := new Word[16];
    var t := 0;
    while t < 16
      invariant 0 <= t <= 16
      invariant forall k :: 0 <= k < t ==> Swapped(l[k]) == W(buffer[..], k)
    {
      l[t] := LeWord(buffer[4 * t], buffer[4 * t + 1], buffer[4 * t + 2], buffer[4 * t + 3]);
      SwappedLoad(buffer[4 * t], buffer[4 * t + 1], buffer[4 * t + 2], buffer[4 * t + 3]);
      t := t + 1;
    }
  }

  /** The words and the octets of the block share their storage. */
  method Store(buffer: array<bv8>, l: array<Word>)
    requires buffer.Length == 64 && l.Length == 16
    modifies buffer
    ensures WordsOf(buffer[..]) == l[..]
  {
    var t := 0;
    while t < 16
      invariant 0 <= t <= 16
      invariant forall k :: 0 <= k < t ==> WordAt(buffer[..], k) == l[k]
    {
      StoreWord(buffer, t, l[t]);
      t := t + 1;
    }
  }

  method StoreWord(buffer: array<bv8>, t: nat, w: Word)
    requires buffer.Length == 64 && t < 16
    modifies buffer
    ensures WordAt(buffer[..], t) == w
    ensures forall k :: 0 <= k < t ==> WordAt(buffer[..], k) == old(WordAt(buffer[..], k))
  {
    buffer[4 * t], buffer[4 * t + 1] := Octet0(w), Octet1(w);
    buffer[4 * t + 2], buffer[4 * t + 3] := Octet2(w), Octet3(w);
    LeWordBack(w);
  }

  /** The unrolled rounds, in sixteen groups of five. */
  method Rounds(h: Regs, l: array<Word>, n: nat, ghost block: Octets) returns (r: Regs)
    requires l.Length == 16 && Circular(l[..], block, 0)
    modifies l
    ensures r == Turns(h, block, 5 * n) && Circular(l[..], block, 5 * n)
  {
    r := h;
    var i, g := 0, 0;
    while g < n
      invariant g <= n && i == 5 * g
      invariant Circular(l[..], block, i)
      invariant r == Turns(h, block, i)
    {
      r := FiveRounds(r, l, i, h, block);
      i, g := i + 5, g + 1;
    }
  }

  function WordsOf(block: Octets): (l: seq<Word>)
    requires |block| == 64
    ensures |l| == 16
  {
    seq(16, k requires 0 <= k < 16 => WordAt(block, k))
  }

  /** The octets are those of the sixteen words before round i of the block's schedule, in the ring's order. */
  ghost predicate Overwritten(now: Octets, block: Octets, i: nat) {
    |now| == 64 && Circular(WordsOf(now), block, i)
  }

  /** The rounds on the words of the buffer, in place. */
  method RoundsInPlace(h: Regs, buffer: array<bv8>, n: nat) returns (r: Regs)
    requires buffer.Length == 64
    modifies buffer
    ensures r == Turns(h, old(buffer[..]), 5 * n) && Overwritten(buffer[..], old(buffer[..]), 5 * n)
  {
    ghost var block := buffer[..];
    var l := Load(buffer);
    r := Rounds(h, l, n, block);
    Store(buffer, l);
  }

  /** `SHA1_Transform`: the block is overwritten by the last sixteen words of its schedule. */
  method Transform(h: Regs, buffer: array<bv8>) returns (h': Regs)
    requires buffer.Length == 64
    modifies buffer
    ensures h' == Compress(h, old(buffer[..]))
    ensures Overwritten(buffer[..], old(buffer[..]), ROUNDS)
  {
    var r := RoundsInPlace(h, buffer, ROUNDS / 5);
    h' := AddRegs(h, r);
  }

  // ----- the stream -----

  /** What `pj_sha1_update` does to the two words of the bit count, `len` being a 64-bit size. */
  function AddCount(lo: nat, hi: nat, len: nat): (nat, nat) {
    var lo' := (lo + 8 * len % W32) % W32;
    (lo', (hi + (if lo' < 8 * len % W64 then 1 else 0) + len % W32 / T29) % W32)
  }

  lemma LongCarry(hi: nat, q: nat, c: nat, a: nat, b: nat)
    requires hi == q % W32 && c <= 1 && a < T29
    ensures (hi + 1 + b) % W32 == (q + 8 * a + b + c) % W32 <==> a == 0 && c == 1
  {
    var d := 8 * a + c;
    assert d < W32;
    var k := q / W32;
    assert (q + d + b) % W32 == (hi + d + b) % W32 by {
      SameRemainder(hi + d + b, k);
    }
    if (hi + 1 + b) % W32 == (hi + d + b) % W32 {
      var u, v := (hi + 1 + b) / W32, (hi + d + b) / W32;
      assert d - 1 == (v - u) * W32;
      assert v == u;
    }
  }

  /**
   * The bit count stays right for every update shorter than 2^29 octets. For a longer one the
   * comparison that should detect the carry out of the low word is always true: the count is then
   * right exactly when there was such a carry and the length fits in 32 bits.
   */
  lemma CountExact(n: nat, len: nat)
    requires len < T61
    ensures var (lo, hi) := AddCount(8 * (n % T29), n / T29 % W32, len);
            && lo == 8 * ((n + len) % T29)
            && (hi == (n + len) / T29 % W32 <==> len < T29 || (len < W32 && n % T29 + len % T29 >= T29))
  {
    LowWord(n, len);
    SumDigits(n, len);
    var lo := 8 * ((n + len) % T29);
    var c := if n % T29 + len % T29 >= T29 then 1 else 0;
    var a, b := len / W32, len % W32 / T29;
    assert 8 * len % W64 == 8 * len;
    assert len / T29 == 8 * a + b by {
      Remainder(len, T29, 8 * a + b, len % W32 % T29);
    }
    if len < T29 {
      assert len % T29 == len && len % W32 == len && a == 0 && b == 0;
      SameRemainder(n / T29 % W32 + c, n / T29 / W32);
    } else {
      LongCarry(n / T29 % W32, n / T29, c, a, b);
    }
  }

  /** A block of the data is copied to a scratch block, which the schedule then overwrites. */
  method CopyAndTransform(h: Regs, block: Octets) returns (h': Regs)
    requires |block| == 64
    ensures h' == Compress(h, block)
  {
    var tmp := new bv8[64];
    CopyIn(tmp, 0, block);
    assert tmp[..] == block;
    h' := Transform(h, tmp);
  }

  /** The loop over the whole blocks of the data, each copied to a scratch block. */
  method WholeBlocks(h: Regs, data: Octets, from: nat, ghost before: Octets) returns (h': Regs, i: nat)
    requires from <= |data| && |before + data[..from]| % 64 == 0 && h == Fold(Compress, H0, before + data[..from])
    ensures from <= i <= |data| < i + 64 && |before + data[..i]| % 64 == 0
    ensures h' == Fold(Compress, H0, before + data[..i])
  {
    h', i := h, from;
    while i + 63 < |data|
      invariant from <= i <= |data| && |before + data[..i]| % 64 == 0
      invariant h' == Fold(Compress, H0, before + data[..i])
    {
      NextBlock(Compress, H0, before, data, i);
      h' := CopyAndTransform(h', data[i..i + 64]);
      i := i + 64;
    }
  }

  /** The loop test `(count[0] & 504) != 448`, n octets and k zeros into the padding. */
  lemma PadTest(n: nat, k: nat)
    requires k <= Gap(n)
    ensures 8 * ((n + 1 + k) % T29) / 8 % 64 * 8 == 448 <==> k == Gap(n)
  {
    Filled(n + 1 + k);
    GapFirst(n, k);
  }

  /** pj_sha1_context; the two words of the bit count are numbers below 2^32. */
  class Context {
    var state: Regs
    var count0: nat
    var count1: nat
    const buffer: array<bv8>
    ghost var msg: Octets

    /** The state has taken in every whole block, and the buffer holds the rest. */
    ghost predicate Valid()
      reads this, buffer
    {
      && buffer.Length == 64
      && count0 == 8 * (|msg| % T29)
      && state == Fold(Compress, H0, msg)
      && buffer[..|msg| % 64] == Tail(msg)
    }

    /** Both words of the bit count are right. */
    ghost predicate Counted()
      reads this
    {
      count1 == |msg| / T29 % W32
    }

    /** `pj_sha1_init`. */
    constructor ()
      ensures Valid() && Counted() && fresh(buffer) && msg == []
    {
      state := H0;
      count0, count1 := 0, 0;
      buffer := new bv8[64];
      msg := [];
    }

    /** The part of `pj_sha1_update` behind the bit count: j octets are already in the buffer. */
    method Absorb(data: Octets, ghost before: Octets)
      requires buffer.Length == 64 && state == Fold(Compress, H0, before) && buffer[..|before| % 64] == Tail(before)
      requires count0 == 8 * (|before| % T29)
      modifies this`state, buffer
      ensures state == Fold(Compress, H0, before + data)
      ensures buffer[..|before + data| % 64] == Tail(before + data)
    {
      Filled(|before|);
      var j := count0 / 8 % 64;
      if j + |data| > 63 {
        var i := 64 - j;
        CopyIn(buffer, j, data[..i]);
        assert buffer[..] == Tail(before) + data[..i];
        FirstBlock(Compress, H0, before, data[..i]);
        state := Transform(state, buffer);
        state, i := WholeBlocks(state, data, i, before);
        CopyIn(buffer, 0, data[i..]);
        LastPart(Compress, H0, before, data, i);
      } else {
        CopyIn(buffer, j, data);
        NoBlock(Compress, H0, before, data);
        assert buffer[..j + |data|] == Tail(before) + data;
      }
    }

    /** `pj_sha1_update`; no object has 2^61 octets, whose bits a 64-bit size could not count. */
    method Update(data: Octets)
      requires Valid() && |data| < T61
      modifies this, buffer
      ensures Valid() && msg == old(msg) + data
      ensures old(Counted()) ==>
                (Counted() <==> |data| < T29 || (|data| < W32 && |old(msg)| % T29 + |data| % T29 >= T29))
    {
      Absorb(data, msg);
      CountExact(|msg|, |data|);
      AddToCount(|data|);
      msg := msg + data;
    }

    /** The first lines of `pj_sha1_update`. */
    method AddToCount(len: nat)
      modifies this`count0, this`count1
      ensures (count0, count1) == AddCount(old(count0), old(count1), len)
    {
      count0 := (count0 + 8 * len % W32) % W32;
      if count0 < 8 * len % W64 {
        count1 := (count1 + 1) % W32;
      }
      assert count1 % W32 == (old(count1) + if count0 < 8 * len % W64 then 1 else 0) % W32;
      count1 := (count1 + len % W32 / T29) % W32;
      SumModulo(old(count1) + if count0 < 8 * len % W64 then 1 else 0, len % W32 / T29);
    }

    /** The padding loop of `pj_sha1_final`. */
    method PadZeros(ghost whole: Octets)
      requires Valid() && msg == whole + [0x80]
      modifies this, buffer
      ensures Valid() && msg == whole + [0x80] + Zeros(Gap(|whole|))
    {
      ghost var n := 0;
      while count0 / 8 % 64 * 8 != 448
        invariant Valid() && n <= Gap(|whole|)
        invariant msg == whole + [0x80] + Zeros(n)
        decreases Gap(|whole|) - n
      {
        PadTest(|whole|, n);
        Update([0]);
        assert Zeros(n + 1) == Zeros(n) + [0];
        n := n + 1;
      }
      PadTest(|whole|, n);
    }

    /** `pj_sha1_final`, after which the context holds nothing of the message. */
    method Final() returns (digest: Octets)
      requires Valid()
      modifies this, buffer
      ensures digest == Digest(Fold(Compress, H0, Pad(old(msg), Be32(old(count1)) + Be32(old(count0)))))
      ensures old(Counted()) ==> digest == Hash(old(msg))
      ensures state == Regs(0, 0, 0, 0, 0) && count0 == count1 == 0 && forall k :: 0 <= k < 64 ==> buffer[k] == 0
    {
      ghost var whole := msg;
      var finalcount := Be32(count1) + Be32(count0);
      if Counted() {
        CountField(count0, count1, |whole|);
      }
      Update([0x80]);
      PadZeros(whole);
      Update(finalcount);
      assert msg == Pad(whole, finalcount);
      digest := Digest(state);
      Wipe();
    }

    method Wipe()
      requires buffer.Length == 64
      modifies this, buffer
      ensures state == Regs(0, 0, 0, 0, 0) && count0 == count1 == 0 && forall k :: 0 <= k < 64 ==> buffer[k] == 0
    {
      forall k | 0 <= k < 64 {
        buffer[k] := 0;
      }
      state := Regs(0, 0, 0, 0, 0);
      count0, count1 := 0, 0;
    }
  }

  /** Any split of a message into updates gives its digest, each update being shorter than 2^29 octets. */
  method HashOver(chunks: seq<Octets>) returns (digest: Octets)
    requires forall i :: 0 <= i < |chunks| ==> |chunks[i]| < T29
    ensures digest == Hash(Flatten(chunks))
  {
    var ctx := new Context();
    var i := 0;
    while i < |chunks|
      invariant i <= |chunks|
      invariant ctx.Valid() && ctx.Counted() && ctx.msg == Flatten(chunks[..i])
      invariant fresh(ctx) && fresh(ctx.buffer)
    {
      FlattenNext(chunks, i);
      ctx.Update(chunks[i]);
      i := i + 1;
    }
    assert chunks[..i] == chunks;
    digest := ctx.Final();
  }
}
