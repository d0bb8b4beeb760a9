/** MD5's buffering and padding (sections 3.1 to 3.4 of RFC 1321), for any compression function. */
module Md5 {
  import opened Blocks

  /** The four words A, B, C, D. */
  datatype Buf = Buf(a: bv32, b: bv32, c: bv32, d: bv32)

  type Transform = (Buf, Octets) -> Buf

  const START := Buf(0x6745_2301, 0xEFCD_AB89, 0x98BA_DCFE, 0x1032_5476)

  /** The words as they lie in the memory of a little-endian machine. */
  function Spell(w: bv32): Octets {
    [(w & 0xFF) as bv8, ((w >> 8) & 0xFF) as bv8, ((w >> 16) & 0xFF) as bv8, (w >> 24) as bv8]
  }

  function Output(b: Buf): Octets {
    Spell(b.a) + Spell(b.b) + Spell(b.c) + Spell(b.d)
  }

  /** The message digest; the length field is the low-order 64 bits of the bit count. */
  function Hash(f: Transform, msg: Octets): Octets {
    Output(Fold(f, START, Pad(msg, Le64(BitCount(|msg|)))))
  }

  /** "abc" padded, its twenty-four bits counted in the first of the last eight octets. */
  function AbcBlock(): Octets {
    [0x61, 0x62, 0x63, 0x80] + Zeros(52) + [24, 0, 0, 0, 0, 0, 0, 0]
  }

  lemma AbcPadded()
    ensures Pad([0x61, 0x62, 0x63], Le64(BitCount(3))) == AbcBlock() && |AbcBlock()| == 64
  {
    assert BitCount(3) == 24;
    assert Octet(0) == 0 && Octet(24) == 24;
    assert Le32(0) == [0, 0, 0, 0] && Le32(24) == [24, 0, 0, 0];
    assert Le64(24) == [24, 0, 0, 0, 0, 0, 0, 0];
    assert Gap(3) == 52;
    assert Pad([0x61, 0x62, 0x63], Le64(24)) == AbcBlock();
  }

  /**
   * The fourth test of section A.5 of RFC 1321: from the initial words of section 3.3, the block
   * must go to the words that spell the digest in memory order.
   */
  lemma DigestOfAbc(f: Transform)
    requires f(Buf(0x6745_2301, 0xEFCD_AB89, 0x98BA_DCFE, 0x1032_5476), AbcBlock())
             == Buf(0x9850_0190, 0xB04F_D23C, 0x7D3F_96D6, 0x727F_E128)
    ensures Hash(f, [0x61, 0x62, 0x63])
            == [0x90, 0x01, 0x50, 0x98] + [0x3C, 0xD2, 0x4F, 0xB0] + [0xD6, 0x96, 0x3F, 0x7D] + [0x28, 0xE1, 0x7F, 0x72]
  {
    AbcPadded();
    var block := AbcBlock();
    assert block[..64] == block && block[64..] == [];
    assert Fold(f, START, block) == f(START, block);
  }

  /** What `pj_md5_update` does to the two words of the bit count. */
  function AddCount(lo: nat, hi: nat, len: nat): (nat, nat) {
    var lo' := (lo + 8 * len % W32) % W32;
    (lo', (hi + (if lo' < lo then 1 else 0) + len / T29) % W32)
  }

  lemma WrapDetects(lo: nat, x: nat)
    requires lo < W32 && x < W32
    ensures (lo + x) % W32 < lo <==> lo + x >= W32
  {
  }

  lemma CarrySame(n: nat, len: nat)
    ensures 8 * (n % T29) + 8 * len % W32 >= W32 <==> n % T29 + len % T29 >= T29
  {
    Scaled(len, T29);
  }

  /** Unlike SHA-1's, this carry test is right for every length. */
  lemma CountExact(n: nat, len: nat)
    ensures AddCount(8 * (n % T29), n / T29 % W32, len) == (8 * ((n + len) % T29), (n + len) / T29 % W32)
  {
    LowWord(n, len);
    SumDigits(n, len);
    WrapDetects(8 * (n % T29), 8 * len % W32);
    CarrySame(n, len);
    SumModulo(n / T29, (if n % T29 + len % T29 >= T29 then 1 else 0) + len / T29);
  }

  lemma ZerosSum(m: nat, n: nat)
    ensures Zeros(m) + Zeros(n) == Zeros(m + n)
  {
  }

  lemma GapOf(n: nat)
    ensures var count := 63 - n % 64;
            Gap(n) == if count < 8 then count + 56 else count - 8
  {
    GapFirst(n, if 63 - n % 64 < 8 then 63 - n % 64 + 56 else 63 - n % 64 - 8);
  }

  lemma TwoBlocks(f: Transform, whole: Octets, fill: Octets, last: Octets)
    requires |whole| % 64 + |fill| == 64 && |last| == 64
    ensures f(f(Fold(f, START, whole), Tail(whole) + fill), last) == Fold(f, START, whole + fill + last)
  {
    FirstBlock(f, START, whole, fill);
    FoldBlock(f, START, whole + fill, last);
  }

  lemma PadShape(whole: Octets, marker: Octets, z: Octets, z': Octets, length: Octets)
    ensures whole + (marker + z) + (z' + length) == whole + marker + (z + z') + length
    ensures whole + (marker + z + length) == whole + marker + z + length
  {
  }

  /** Less than eight octets left: the block is filled up, and another holds the length. */
  lemma PadTwo(f: Transform, whole: Octets, count: nat, length: Octets)
    requires count == 63 - |whole| % 64 < 8 && |length| == 8
    ensures f(f(Fold(f, START, whole), Tail(whole) + ([0x80] + Zeros(count))), Zeros(56) + length) ==
            Fold(f, START, Pad(whole, length))
  {
    TwoBlocks(f, whole, [0x80] + Zeros(count), Zeros(56) + length);
    PadShape(whole, [0x80], Zeros(count), Zeros(56), length);
    ZerosSum(count, 56);
    GapOf(|whole|);
  }

  /** Otherwise the length ends the same block. */
  lemma PadOne(f: Transform, whole: Octets, count: nat, length: Octets)
    requires count == 63 - |whole| % 64 >= 8 && |length| == 8
    ensures f(Fold(f, START, whole), Tail(whole) + ([0x80] + Zeros(count - 8) + length)) ==
            Fold(f, START, Pad(whole, length))
  {
    FirstBlock(f, START, whole, [0x80] + Zeros(count - 8) + length);
    PadShape(whole, [0x80], Zeros(count - 8), [], length);
    GapOf(|whole|);
  }

  /** pj_md5_context. */
  class Context {
    const transform: Transform
    var buf: Buf
    var bits0: nat
    var bits1: nat
    const input: array<bv8>
    ghost var msg: Octets

    ghost predicate Valid()
      reads this, input
    {
      && input.Length == 64
      && bits0 == 8 * (|msg| % T29) && bits1 == |msg| / T29 % W32
      && buf == Fold(transform, START, msg)
      && input[..|msg| % 64] == Tail(msg)
    }

    /** `pj_md5_init`. */
    constructor (transform: Transform)
      ensures Valid() && fresh(input) && msg == [] && this.transform == transform
    {
      this.transform := transform;
      buf := START;
      bits0, bits1 := 0, 0;
      input := new bv8[64];
      msg := [];
    }

    method AddToCount(len: nat)
      modifies this`bits0, this`bits1
      ensures (bits0, bits1) == AddCount(old(bits0), old(bits1), len)
    {
      var t := bits0;
      bits0 := (t + 8 * len % W32) % W32;
      if bits0 < t {
        bits1 := (bits1 + 1) % W32;
      }
      ghost var carry := if bits0 < t then 1 else 0;
      assert bits1 % W32 == (old(bits1) + carry) % W32;
      SumModulo(bits1, len / T29);
      SumModulo(old(bits1) + carry, len / T29);
      bits1 := (bits1 + len / T29) % W32;
    }

    /** `pj_md5_update`, whose length is an unsigned int. */
    method Update(data: Octets)
      requires Valid() && |data| < W32
      modifies this, input
      ensures Valid() && msg == old(msg) + data
    {
      ghost var before := msg;
      var t := bits0 / 8 % 64;
      Filled(|msg|);
      CountExact(|msg|, |data|);
      AddToCount(|data|);
      msg := msg + data;
      if t != 0 && |data| < 64 - t {
        CopyIn(input, t, data);
        NoBlock(transform, START, before, data);
        assert input[..t + |data|] == Tail(before) + data;
        return;
      }
      var i := FillFirst(t, data, before);
      i := WholeBlocks(data, i, before);
      CopyIn(input, 0, data[i..]);
      LastPart(transform, START, before, data, i);
    }

    /** The leading odd-sized chunk completes the block that was begun. */
    method FillFirst(t: nat, data: Octets, ghost before: Octets) returns (i: nat)
      requires input.Length == 64 && t == |before| % 64 && input[..t] == Tail(before)
      requires buf == Fold(transform, START, before) && (t == 0 || |data| >= 64 - t)
      modifies this`buf, input
      ensures i <= |data| && |before + data[..i]| % 64 == 0
      ensures buf == Fold(transform, START, before + data[..i])
    {
      if t == 0 {
        assert before + data[..0] == before;
        return 0;
      }
      i := 64 - t;
      CopyIn(input, t, data[..i]);
      assert input[..] == Tail(before) + data[..i];
      FirstBlock(transform, START, before, data[..i]);
      buf := transform(buf, input[..]);
    }

    /** The loop over the 64-octet chunks. */
    method WholeBlocks(data: Octets, from: nat, ghost before: Octets) returns (i: nat)
      requires input.Length == 64 && from <= |data| && |before + data[..from]| % 64 == 0
      requires buf == Fold(transform, START, before + data[..from])
      modifies this`buf, input
      ensures from <= i <= |data| < i + 64 && |before + data[..i]| % 64 == 0
      ensures buf == Fold(transform, START, before + data[..i])
    {
      i := from;
      while |data| - i >= 64
        invariant from <= i <= |data| && |before + data[..i]| % 64 == 0
        invariant buf == Fold(transform, START, before + data[..i])
      {
        NextBlock(transform, START, before, data, i);
        CopyIn(input, 0, data[i..i + 64]);
        assert input[..] == data[i..i + 64];
        buf := transform(buf, input[..]);
        i := i + 64;
      }
    }

    /** `pj_md5_final`, after which the context is wiped. */
    method Final() returns (digest: Octets)
      requires Valid()
      modifies this, input
      ensures digest == Hash(transform, old(msg))
      ensures buf == Buf(0, 0, 0, 0) && bits0 == bits1 == 0 && forall k :: 0 <= k < 64 ==> input[k] == 0
    {
      ghost var n := |msg|;
      var count := bits0 / 8 % 64;
      Filled(n);
      CountField(bits0, bits1, n);
      var last := PadBlocks(count, msg);
      buf := transform(buf, last);
      digest := Output(buf);
      forall k | 0 <= k < 64 {
        input[k] := 0;
      }
      buf, bits0, bits1 := Buf(0, 0, 0, 0), 0, 0;
    }

    /** The padding: all but the last block is taken in, and the last is returned. */
    method PadBlocks(used: nat, ghost whole: Octets) returns (last: Octets)
      requires Valid() && msg == whole && used == |whole| % 64
      modifies this`buf, input
      ensures |last| == 64
      ensures transform(buf, last) == Fold(transform, START, Pad(whole, Le32(bits0) + Le32(bits1)))
    {
      CopyIn(input, used, [0x80]);
      var count := 63 - used;
      if count < 8 {
        last := PadTwice(used, count, whole);
      } else {
        last := PadOnce(used, count, whole);
      }
    }

    /** No room for the length behind the mark: another block holds it. */
    method PadTwice(used: nat, count: nat, ghost whole: Octets) returns (last: Octets)
      requires input.Length == 64 && used == |whole| % 64 && count == 63 - used < 8
      requires buf == Fold(transform, START, whole) && input[..used + 1] == Tail(whole) + [0x80]
      modifies this`buf, input
      ensures |last| == 64
      ensures transform(buf, last) == Fold(transform, START, Pad(whole, Le32(bits0) + Le32(bits1)))
    {
      CopyIn(input, used + 1, Zeros(count));
      assert input[..] == Tail(whole) + ([0x80] + Zeros(count));
      buf := transform(buf, input[..]);
      CopyIn(input, 0, Zeros(56));
      last := input[..56] + Le32(bits0) + Le32(bits1);
      assert last == Zeros(56) + (Le32(bits0) + Le32(bits1));
      PadTwo(transform, whole, count, Le32(bits0) + Le32(bits1));
    }

    method PadOnce(used: nat, count: nat, ghost whole: Octets) returns (last: Octets)
      requires input.Length == 64 && used == |whole| % 64 && count == 63 - used >= 8
      requires buf == Fold(transform, START, whole) && input[..used + 1] == Tail(whole) + [0x80]
      modifies input
      ensures |last| == 64
      ensures transform(buf, last) == Fold(transform, START, Pad(whole, Le32(bits0) + Le32(bits1)))
    {
      CopyIn(input, used + 1, Zeros(count - 8));
      last := input[..56] + Le32(bits0) + Le32(bits1);
      assert last == Tail(whole) + ([0x80] + Zeros(count - 8) + (Le32(bits0) + Le32(bits1)));
      PadOne(transform, whole, count, Le32(bits0) + Le32(bits1));
    }
  }

  /** Any split of a message into updates gives its digest. */
  method HashOver(transform: Transform, chunks: seq<Octets>) returns (digest: Octets)
    requires forall i :: 0 <= i < |chunks| ==> |chunks[i]| < W32
    ensures digest == Hash(transform, Flatten(chunks))
  {
    var ctx := new Context(transform);
    var i := 0;
    while i < |chunks|
      invariant i <= |chunks|
      invariant ctx.Valid() && ctx.msg == Flatten(chunks[..i])
      invariant fresh(ctx) && fresh(ctx.input)
    {
      FlattenNext(chunks, i);
      ctx.Update(chunks[i]);
      i := i + 1;
    }
    assert chunks[..i] == chunks;
    digest := ctx.Final();
  }
}
