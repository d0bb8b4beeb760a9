/** Messages cut into 64-octet blocks, as the SHA-1 and MD5 digests do. */
module Blocks {

  type Octets = seq<bv8>

  /** The compression function over every whole block; a last partial block is left alone. */
  function Fold<S>(f: (S, Octets) -> S, s: S, data: Octets): S {
    if |data| < 64 then s else Fold(f, f(s, data[..64]), data[64..])
  }

  /** The octets after the last whole block. */
  function Tail(data: Octets): (t: Octets)
    ensures |t| == |data| % 64
  {
    data[|data| - |data| % 64..]
  }

  lemma {:induction false} FoldConcat<S>(f: (S, Octets) -> S, s: S, a: Octets, b: Octets)
    requires |a| % 64 == 0
    ensures Fold(f, s, a + b) == Fold(f, Fold(f, s, a), b)
  {
    if a == [] {
      assert a + b == b;
    } else {
      assert (a + b)[..64] == a[..64] && (a + b)[64..] == a[64..] + b;
      FoldConcat(f, f(s, a[..64]), a[64..], b);
    }
  }

  /** One more whole block. */
  lemma FoldBlock<S>(f: (S, Octets) -> S, s: S, a: Octets, block: Octets)
    requires |a| % 64 == 0 && |block| == 64
    ensures Fold(f, s, a + block) == f(Fold(f, s, a), block)
  {
    FoldConcat(f, s, a, block);
    assert block[..64] == block && block[64..] == [];
  }

  /** A partial block changes nothing yet. */
  lemma FoldPartial<S>(f: (S, Octets) -> S, s: S, a: Octets, rest: Octets)
    requires |a| % 64 == 0 && |rest| < 64
    ensures Fold(f, s, a + rest) == Fold(f, s, a)
    ensures Tail(a + rest) == rest
  {
    FoldConcat(f, s, a, rest);
    TailPartial(a, rest);
  }

  lemma TailPartial(a: Octets, rest: Octets)
    requires |a| % 64 == 0 && |rest| < 64
    ensures Tail(a + rest) == rest
  {
    var s := a + rest;
    PartialLength(|a|, |rest|);
    assert |s| - |s| % 64 == |a| && s[|a|..] == rest;
  }

  lemma PartialLength(a: nat, r: nat)
    requires a % 64 == 0 && r < 64
    ensures (a + r) % 64 == r
  {
  }

  function Whole(data: Octets): (w: Octets)
    ensures |w| % 64 == 0 && w + Tail(data) == data
  {
    data[..|data| - |data| % 64]
  }

  /** The buffered octets and the first new ones make a whole block. */
  lemma FirstBlock<S>(f: (S, Octets) -> S, s: S, before: Octets, data: Octets)
    requires |before| % 64 + |data| == 64
    ensures Fold(f, s, before + data) == f(Fold(f, s, before), Tail(before) + data)
    ensures |before + data| % 64 == 0
  {
    FirstBlockParts(f, s, before, Whole(before), Tail(before), data);
  }

  lemma FirstBlockParts<S>(f: (S, Octets) -> S, s: S, before: Octets, w: Octets, t: Octets, data: Octets)
    requires before == w + t && |w| % 64 == 0 && |t| < 64 && |t| + |data| == 64
    ensures Fold(f, s, before + data) == f(Fold(f, s, before), t + data)
  {
    FoldPartial(f, s, w, t);
    FoldBlock(f, s, w, t + data);
    assert before + data == w + (t + data);
  }

  lemma NextBlock<S>(f: (S, Octets) -> S, s: S, before: Octets, data: Octets, i: nat)
    requires i + 64 <= |data| && |before + data[..i]| % 64 == 0
    ensures Fold(f, s, before + data[..i + 64]) == f(Fold(f, s, before + data[..i]), data[i..i + 64])
    ensures |before + data[..i + 64]| % 64 == 0
  {
    FoldBlock(f, s, before + data[..i], data[i..i + 64]);
    assert before + data[..i] + data[i..i + 64] == before + data[..i + 64];
  }

  /** The new octets do not fill the block. */
  lemma NoBlock<S>(f: (S, Octets) -> S, s: S, before: Octets, data: Octets)
    requires |before| % 64 + |data| < 64
    ensures Fold(f, s, before + data) == Fold(f, s, before)
    ensures Tail(before + data) == Tail(before) + data
  {
    NoBlockParts(f, s, before, Whole(before), Tail(before), data);
  }

  lemma NoBlockParts<S>(f: (S, Octets) -> S, s: S, before: Octets, w: Octets, t: Octets, data: Octets)
    requires before == w + t && |w| % 64 == 0 && |t| + |data| < 64
    ensures Fold(f, s, before + data) == Fold(f, s, before)
    ensures Tail(before + data) == t + data
  {
    FoldPartial(f, s, w, t);
    FoldPartial(f, s, w, t + data);
    assert before + data == w + (t + data);
  }

  /** After the last whole block at octet i the rest is only buffered. */
  lemma LastPart<S>(f: (S, Octets) -> S, s: S, before: Octets, data: Octets, i: nat)
    requires i <= |data| < i + 64 && |before + data[..i]| % 64 == 0
    ensures Fold(f, s, before + data) == Fold(f, s, before + data[..i])
    ensures Tail(before + data) == data[i..]
  {
    FoldPartial(f, s, before + data[..i], data[i..]);
    assert before + data[..i] + data[i..] == before + data;
  }

  function Zeros(n: nat): (z: Octets)
    ensures |z| == n
  {
    seq(n, _ => 0)
  }

  /** How many zero octets follow the marker octet. */
  function Gap(n: nat): (k: nat)
    ensures (n + 1 + k) % 64 == 56 && k < 64
  {
    (119 - n % 64) % 64
  }

  /** The gap is the first number of zeros to leave eight octets of a block. */
  lemma GapFirst(n: nat, k: nat)
    requires k <= Gap(n)
    ensures (n + 1 + k) % 64 == 56 <==> k == Gap(n)
  {
    if (n + 1 + k) % 64 == 56 {
      assert (n + 1 + Gap(n)) % 64 == 56;
      assert (Gap(n) - k) % 64 == 0;
    }
  }

  /** The marker bit, the least run of zeros that leaves eight octets of the last block, and the length. */
  function Pad(msg: Octets, length: Octets): (p: Octets)
    ensures |length| == 8 ==> |p| % 64 == 0
  {
    msg + [0x80] + Zeros(Gap(|msg|)) + length
  }

  function Flatten(chunks: seq<Octets>): Octets {
    if chunks == [] then [] else Flatten(chunks[..|chunks| - 1]) + chunks[|chunks| - 1]
  }

  lemma FlattenNext(chunks: seq<Octets>, i: nat)
    requires i < |chunks|
    ensures Flatten(chunks[..i + 1]) == Flatten(chunks[..i]) + chunks[i]
  {
    assert chunks[..i + 1][..i] == chunks[..i];
  }

  function Octet(n: nat): bv8 {
    (n % 256) as bv8
  }

  /** Most significant octet first. */
  function Be32(n: nat): Octets {
    [Octet(n / 0x100_0000), Octet(n / 0x1_0000), Octet(n / 0x100), Octet(n)]
  }

  function Be64(n: nat): Octets {
    Be32(n / W32) + Be32(n % W32)
  }

  /** Least significant octet first. */
  function Le32(n: nat): Octets {
    [Octet(n), Octet(n / 0x100), Octet(n / 0x1_0000), Octet(n / 0x100_0000)]
  }

  function Le64(n: nat): Octets {
    Le32(n % W32) + Le32(n / W32)
  }

  const W32: nat := 0x1_0000_0000
  const W64: nat := 0x1_0000_0000_0000_0000
  /** Octets whose bits fill one 32-bit word, and whose bits fill two. */
  const T29: nat := 0x2000_0000
  const T61: nat := 0x2000_0000_0000_0000

  /** The length field: the bits of n octets, modulo 2^64. */
  function BitCount(n: nat): nat {
    8 * n % W64
  }

  lemma Scaled(n: nat, m: nat)
    requires m > 0
    ensures 8 * n % (8 * m) == 8 * (n % m)
  {
    var q, r := n / m, n % m;
    assert 8 * n == (8 * m) * q + 8 * r;
    Remainder(8 * n, 8 * m, q, 8 * r);
  }

  lemma Remainder(n: nat, m: nat, q: nat, r: nat)
    requires m > 0 && n == m * q + r && r < m
    ensures n / m == q && n % m == r
  {
    var q', r' := n / m, n % m;
    assert m * q' + r' == m * q + r;
    if q' > q {
      Apart(m, q, q');
    } else if q' < q {
      Apart(m, q', q);
    }
  }

  lemma Apart(m: nat, p: nat, q: nat)
    requires p < q
    ensures m * p + m <= m * q
    decreases q
  {
    if p + 1 < q {
      Apart(m, p, q - 1);
    }
    assert m * q == m * (q - 1) + m;
  }

  lemma SumModulo(x: nat, y: nat)
    ensures (x % W32 + y) % W32 == (x + y) % W32
  {
    SameRemainder(x % W32 + y, x / W32);
  }

  lemma SameRemainder(x: nat, k: nat)
    ensures (x + k * W32) % W32 == x % W32
  {
    Remainder(x + k * W32, W32, k + x / W32, x % W32);
  }

  /** A remainder is the remainder of the quotient and that of the rest. */
  lemma TwoDigits(n: nat)
    ensures n % T61 == (n / T29) % W32 * T29 + n % T29
  {
    var q, r := n / T29, n % T29;
    var h, l := q / W32, q % W32;
    assert n == T61 * h + (l * T29 + r);
    Remainder(n, T61, h, l * T29 + r);
  }

  /** The two words of the bit count. */
  lemma CountWords(n: nat)
    ensures BitCount(n) == (n / T29) % W32 * W32 + 8 * (n % T29)
  {
    Scaled(n, T61);
    TwoDigits(n);
  }

  /** A two-word bit count spells the same eight octets as the count itself. */
  lemma CountField(lo: nat, hi: nat, n: nat)
    requires lo == 8 * (n % T29) && hi == (n / T29) % W32
    ensures Be32(hi) + Be32(lo) == Be64(BitCount(n)) && Le32(lo) + Le32(hi) == Le64(BitCount(n))
  {
    CountWords(n);
    assert BitCount(n) % W32 == lo && BitCount(n) / W32 == hi;
  }

  /** Adding lengths digit by digit. */
  lemma SumDigits(n: nat, len: nat)
    ensures var carry := if n % T29 + len % T29 >= T29 then 1 else 0;
            && (n + len) % T29 == n % T29 + len % T29 - carry * T29
            && (n + len) / T29 == n / T29 + len / T29 + carry
  {
    var carry := if n % T29 + len % T29 >= T29 then 1 else 0;
    Remainder(n + len, T29, n / T29 + len / T29 + carry, n % T29 + len % T29 - carry * T29);
  }

  /** The low word of the bit count after one more update. */
  lemma LowWord(n: nat, len: nat)
    ensures (8 * (n % T29) + 8 * len % W32) % W32 == 8 * ((n + len) % T29)
  {
    Scaled(len, T29);
    SumDigits(n, len);
    Scaled(n % T29 + len % T29, T29);
  }

  /** How much of the last block is filled. */
  lemma Filled(n: nat)
    ensures 8 * (n % T29) / 8 % 64 == n % 64
  {
    var q, r := n / T29, n % T29;
    assert n == 64 * (q * (T29 / 64) + r / 64) + r % 64;
    Remainder(n, 64, q * (T29 / 64) + r / 64, r % 64);
  }

  /** `pj_memcpy(&buffer[at], data, len)`. */
  method CopyIn(buffer: array<bv8>, at: nat, data: Octets)
    requires at + |data| <= buffer.Length
    modifies buffer
    ensures buffer[..at] == old(buffer[..at]) && buffer[at..at + |data|] == data
    ensures buffer[at + |data|..] == old(buffer[at + |data|..])
  {
    var i := 0;
    while i < |data|
      invariant 0 <= i <= |data|
      invariant buffer[..at] == old(buffer[..at]) && buffer[at..at + i] == data[..i]
      invariant buffer[at + i..] == old(buffer[at + i..])
    {
      buffer[at + i] := data[i];
      assert buffer[at..at + i + 1] == buffer[at..at + i] + [data[i]];
      i := i + 1;
    }
  }
}
