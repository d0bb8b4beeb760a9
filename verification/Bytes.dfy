/** Octets, the C library's case folding and PJLIB's network-order integers. */
module Bytes {

  type Byte = b: int | 0 <= b < 256

  type Bytes = seq<Byte>

  datatype Option<+T> = None | Some(value: T)

  /** `tolower` in the C locale: only the ASCII capitals change. */
  function ToLower(b: Byte): Byte {
    if 65 <= b <= 90 then b + 32 else b
  }

  function Lower(s: Bytes): (r: Bytes)
    ensures |r| == |s|
  {
    seq(|s|, i requires 0 <= i < |s| => ToLower(s[i]))
  }

  /** `pj_stricmp(a, b) == 0`. */
  predicate SameIgnoringCase(a: Bytes, b: Bytes) {
    Lower(a) == Lower(b)
  }

  /** `write16`: most significant octet first. */
  function Be16(v: nat): Bytes
    requires v < 0x1_0000
  {
    [v / 256, v % 256]
  }

  function ReadBe16(hi: Byte, lo: Byte): (v: nat)
    ensures v < 0x1_0000
  {
    256 * hi + lo
  }

  /** `write32` of a value passed through `pj_htonl`. */
  function Be32(v: nat): Bytes
    requires v < 0x1_0000_0000
  {
    Be16(v / 0x1_0000) + Be16(v % 0x1_0000)
  }

  function ReadBe32(b0: Byte, b1: Byte, b2: Byte, b3: Byte): (v: nat)
    ensures v < 0x1_0000_0000
  {
    0x1_0000 * ReadBe16(b0, b1) + ReadBe16(b2, b3)
  }

  /** The octets b are found in s from position p on. */
  predicate EqualAt(s: Bytes, p: nat, b: Bytes) {
    p + |b| <= |s| && forall i :: 0 <= i < |b| ==> b[i] == s[p + i]
  }

  lemma EqualConcat(s: Bytes, p: nat, a: Bytes, b: Bytes)
    ensures EqualAt(s, p, a + b) <==> EqualAt(s, p, a) && EqualAt(s, p + |a|, b)
  {
    if EqualAt(s, p, a + b) {
      forall i | 0 <= i < |a| ensures a[i] == s[p + i] {
        assert (a + b)[i] == a[i];
      }
      forall i | 0 <= i < |b| ensures b[i] == s[p + |a| + i] {
        assert (a + b)[|a| + i] == b[i] && (a + b)[|a| + i] == s[p + (|a| + i)];
      }
    }
  }
}
