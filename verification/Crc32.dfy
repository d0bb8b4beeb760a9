/** CRC-32 of section 8.1.1.6.2 of ITU-T V.42, a bit at a time and by table and machine word. */
module Crc32 {

  import opened Blocks

  /** CRC32_NEGL. */
  const NEGL: bv32 := 0xFFFF_FFFF
  /** The generator polynomial, lowest power in the top bit. */
  const POLY: bv32 := 0xEDB8_8320

  /** Addition of polynomials over the two-element field. */
  function Add(a: bv32, b: bv32): bv32 {
    a ^ b
  }

  // ----- the definition: one bit at a time -----

  function Half(v: bv32): bv32 {
    v >> 1
  }

  /** The shift register takes in one bit of the message. */
  function TakeBit(crc: bv32, bit: bv32): bv32 {
    if (crc ^ bit) & 1 == 1 then Half(crc) ^ POLY else Half(crc)
  }

  /** The lowest n bits of w, the lowest first. */
  function TakeBits(crc: bv32, w: bv32, n: nat): bv32
    decreases n
  {
    if n == 0 then crc else TakeBits(TakeBit(crc, w & 1), Half(w), n - 1)
  }

  function TakeOctet(crc: bv32, b: bv8): bv32 {
    TakeBits(crc, b as bv32, 8)
  }

  function Take(crc: bv32, data: Octets): bv32 {
    if data == [] then crc else TakeOctet(Take(crc, data[..|data| - 1]), data[|data| - 1])
  }

  /** The checksum of a message: the register starts as all ones and is complemented at the end. */
  function Crc(data: Octets): bv32 {
    Add(Take(NEGL, data), NEGL)
  }

  /** The register before and after each octet. */
  predicate Registers(data: Octets, regs: seq<bv32>) {
    |regs| == |data| + 1 && forall k :: 0 <= k < |data| ==> TakeOctet(regs[k], data[k]) == regs[k + 1]
  }

  lemma {:induction false} RegistersEnd(data: Octets, regs: seq<bv32>)
    requires Registers(data, regs)
    ensures Take(regs[0], data) == regs[|data|]
  {
    if data != [] {
      RegistersEnd(data[..|data| - 1], regs[..|data|]);
    }
  }

  lemma DigitsAre()
    ensures TakeOctet(0xFFFF_FFFF, 0x31) == 0x7C23_1048
    ensures TakeOctet(0x7C23_1048, 0x32) == 0xB0AC_BB32
    ensures TakeOctet(0xB0AC_BB32, 0x33) == 0x77B7_9C2D
    ensures TakeOctet(0x77B7_9C2D, 0x34) == 0x641C_1F5C
    ensures TakeOctet(0x641C_1F5C, 0x35) == 0x340A_C5E3
    ensures TakeOctet(0x340A_C5E3, 0x36) == 0xF68D_2C9E
    ensures TakeOctet(0xF68D_2C9E, 0x37) == 0xAFFC_9660
    ensures TakeOctet(0xAFFC_9660, 0x38) == 0x651F_2550
    ensures TakeOctet(0x651F_2550, 0x39) == 0x340B_C6D9
  {
  }

  lemma DigitsRun(data: Octets, regs: seq<bv32>)
    requires |data| == 9 && |regs| == 10
    requires data[0] == 0x31 && data[1] == 0x32 && data[2] == 0x33 && data[3] == 0x34 && data[4] == 0x35
    requires data[5] == 0x36 && data[6] == 0x37 && data[7] == 0x38 && data[8] == 0x39
    requires regs[0] == 0xFFFF_FFFF && regs[1] == 0x7C23_1048
    requires regs[2] == 0xB0AC_BB32 && regs[3] == 0x77B7_9C2D
    requires regs[4] == 0x641C_1F5C && regs[5] == 0x340A_C5E3
    requires regs[6] == 0xF68D_2C9E && regs[7] == 0xAFFC_9660
    requires regs[8] == 0x651F_2550 && regs[9] == 0x340B_C6D9
    ensures Registers(data, regs)
  {
    DigitsAre();
  }

  /** The check value of the checksum: that of the digits one to nine. */
  lemma CheckValue(digits: Octets)
    requires digits == [0x31, 0x32, 0x33, 0x34, 0x35, 0x36, 0x37, 0x38, 0x39]
    ensures Crc(digits) == 0xCBF4_3926
  {
    var regs: seq<bv32> := [
      0xFFFF_FFFF, 0x7C23_1048, 0xB0AC_BB32, 0x77B7_9C2D, 0x641C_1F5C,
      0x340A_C5E3, 0xF68D_2C9E, 0xAFFC_9660, 0x651F_2550, 0x340B_C6D9];
    DigitsRun(digits, regs);
    RegistersEnd(digits, regs);
  }

  // ----- the eight-step reduction -----

  function Step(v: bv32): bv32 {
    if v & 1 == 1 then Half(v) ^ POLY else Half(v)
  }

  function Steps(v: bv32, n: nat): bv32
    decreases n
  {
    if n == 0 then v else Steps(Step(v), n - 1)
  }

  function Reduce(v: bv32): bv32 {
    Step(Step(Step(Step(Step(Step(Step(Step(v))))))))
  }

  /** `crc_tab`. */
  const CRC_TAB: seq<bv32> :=
    (((ROW0 + ROW1) + (ROW2 + ROW3)) + ((ROW4 + ROW5) + (ROW6 + ROW7))) +
    (((ROW8 + ROW9) + (ROW10 + ROW11)) + ((ROW12 + ROW13) + (ROW14 + ROW15)))

  const ROW0: seq<bv32> := [
    0x00000000, 0x77073096, 0xEE0E612C, 0x990951BA, 0x076DC419, 0x706AF48F, 0xE963A535, 0x9E6495A3,
    0x0EDB8832, 0x79DCB8A4, 0xE0D5E91E, 0x97D2D988, 0x09B64C2B, 0x7EB17CBD, 0xE7B82D07, 0x90BF1D91]

  const ROW1: seq<bv32> := [
    0x1DB71064, 0x6AB020F2, 0xF3B97148, 0x84BE41DE, 0x1ADAD47D, 0x6DDDE4EB, 0xF4D4B551, 0x83D385C7,
    0x136C9856, 0x646BA8C0, 0xFD62F97A, 0x8A65C9EC, 0x14015C4F, 0x63066CD9, 0xFA0F3D63, 0x8D080DF5]

  const ROW2: seq<bv32> := [
    0x3B6E20C8, 0x4C69105E, 0xD56041E4, 0xA2677172, 0x3C03E4D1, 0x4B04D447, 0xD20D85FD, 0xA50AB56B,
    0x35B5A8FA, 0x42B2986C, 0xDBBBC9D6, 0xACBCF940, 0x32D86CE3, 0x45DF5C75, 0xDCD60DCF, 0xABD13D59]

  const ROW3: seq<bv32> := [
    0x26D930AC, 0x51DE003A, 0xC8D75180, 0xBFD06116, 0x21B4F4B5, 0x56B3C423, 0xCFBA9599, 0xB8BDA50F,
    0x2802B89E, 0x5F058808, 0xC60CD9B2, 0xB10BE924, 0x2F6F7C87, 0x58684C11, 0xC1611DAB, 0xB6662D3D]

  const ROW4: seq<bv32> := [
    0x76DC4190, 0x01DB7106, 0x98D220BC, 0xEFD5102A, 0x71B18589, 0x06B6B51F, 0x9FBFE4A5, 0xE8B8D433,
    0x7807C9A2, 0x0F00F934, 0x9609A88E, 0xE10E9818, 0x7F6A0DBB, 0x086D3D2D, 0x91646C97, 0xE6635C01]

  const ROW5: seq<bv32> := [
    0x6B6B51F4, 0x1C6C6162, 0x856530D8, 0xF262004E, 0x6C0695ED, 0x1B01A57B, 0x8208F4C1, 0xF50FC457,
    0x65B0D9C6, 0x12B7E950, 0x8BBEB8EA, 0xFCB9887C, 0x62DD1DDF, 0x15DA2D49, 0x8CD37CF3, 0xFBD44C65]

  const ROW6: seq<bv32> := [
    0x4DB26158, 0x3AB551CE, 0xA3BC0074, 0xD4BB30E2, 0x4ADFA541, 0x3DD895D7, 0xA4D1C46D, 0xD3D6F4FB,
    0x4369E96A, 0x346ED9FC, 0xAD678846, 0xDA60B8D0, 0x44042D73, 0x33031DE5, 0xAA0A4C5F, 0xDD0D7CC9]

  const ROW7: seq<bv32> := [
    0x5005713C, 0x270241AA, 0xBE0B1010, 0xC90C2086, 0x5768B525, 0x206F85B3, 0xB966D409, 0xCE61E49F,
    0x5EDEF90E, 0x29D9C998, 0xB0D09822, 0xC7D7A8B4, 0x59B33D17, 0x2EB40D81, 0xB7BD5C3B, 0xC0BA6CAD]

  const ROW8: seq<bv32> := [
    0xEDB88320, 0x9ABFB3B6, 0x03B6E20C, 0x74B1D29A, 0xEAD54739, 0x9DD277AF, 0x04DB2615, 0x73DC1683,
    0xE3630B12, 0x94643B84, 0x0D6D6A3E, 0x7A6A5AA8, 0xE40ECF0B, 0x9309FF9D, 0x0A00AE27, 0x7D079EB1]

  const ROW9: seq<bv32> := [
    0xF00F9344, 0x8708A3D2, 0x1E01F268, 0x6906C2FE, 0xF762575D, 0x806567CB, 0x196C3671, 0x6E6B06E7,
    0xFED41B76, 0x89D32BE0, 0x10DA7A5A, 0x67DD4ACC, 0xF9B9DF6F, 0x8EBEEFF9, 0x17B7BE43, 0x60B08ED5]

  const ROW10: seq<bv32> := [
    0xD6D6A3E8, 0xA1D1937E, 0x38D8C2C4, 0x4FDFF252, 0xD1BB67F1, 0xA6BC5767, 0x3FB506DD, 0x48B2364B,
    0xD80D2BDA, 0xAF0A1B4C, 0x36034AF6, 0x41047A60, 0xDF60EFC3, 0xA867DF55, 0x316E8EEF, 0x4669BE79]

  const ROW11: seq<bv32> := [
    0xCB61B38C, 0xBC66831A, 0x256FD2A0, 0x5268E236, 0xCC0C7795, 0xBB0B4703, 0x220216B9, 0x5505262F,
    0xC5BA3BBE, 0xB2BD0B28, 0x2BB45A92, 0x5CB36A04, 0xC2D7FFA7, 0xB5D0CF31, 0x2CD99E8B, 0x5BDEAE1D]

  const ROW12: seq<bv32> := [
    0x9B64C2B0, 0xEC63F226, 0x756AA39C, 0x026D930A, 0x9C0906A9, 0xEB0E363F, 0x72076785, 0x05005713,
    0x95BF4A82, 0xE2B87A14, 0x7BB12BAE, 0x0CB61B38, 0x92D28E9B, 0xE5D5BE0D, 0x7CDCEFB7, 0x0BDBDF21]

  const ROW13: seq<bv32> := [
    0x86D3D2D4, 0xF1D4E242, 0x68DDB3F8, 0x1FDA836E, 0x81BE16CD, 0xF6B9265B, 0x6FB077E1, 0x18B74777,
    0x88085AE6, 0xFF0F6A70, 0x66063BCA, 0x11010B5C, 0x8F659EFF, 0xF862AE69, 0x616BFFD3, 0x166CCF45]

  const ROW14: seq<bv32> := [
    0xA00AE278, 0xD70DD2EE, 0x4E048354, 0x3903B3C2, 0xA7672661, 0xD06016F7, 0x4969474D, 0x3E6E77DB,
    0xAED16A4A, 0xD9D65ADC, 0x40DF0B66, 0x37D83BF0, 0xA9BCAE53, 0xDEBB9EC5, 0x47B2CF7F, 0x30B5FFE9]

  const ROW15: seq<bv32> := [
    0xBDBDF21C, 0xCABAC28A, 0x53B39330, 0x24B4A3A6, 0xBAD03605, 0xCDD70693, 0x54DE5729, 0x23D967BF,
    0xB3667A2E, 0xC4614AB8, 0x5D681B02, 0x2A6F2B94, 0xB40BBE37, 0xC30C8EA1, 0x5A05DF1B, 0x2D02EF8D]

  /** `crc_tab[CRC32_INDEX(crc)]`. */
  function Tab(i: bv8): bv32 {
    assert |CRC_TAB| == 256;
    CRC_TAB[i as nat]
  }

  lemma Row0(i: bv8)
    requires i >> 4 == 0
    ensures Tab(i) == Reduce(i as bv32)
  {
    if i & 8 == 0 {
      assert i == 0 || i == 1 || i == 2 || i == 3 || i == 4 || i == 5 || i == 6 || i == 7;
    } else {
      assert i == 8 || i == 9 || i == 10 || i == 11 || i == 12 || i == 13 || i == 14 || i == 15;
    }
  }

  lemma Row1(i: bv8)
    requires i >> 4 == 1
    ensures Tab(i) == Reduce(i as bv32)
  {
    if i & 8 == 0 {
      assert i == 16 || i == 17 || i == 18 || i == 19 || i == 20 || i == 21 || i == 22 || i == 23;
    } else {
      assert i == 24 || i == 25 || i == 26 || i == 27 || i == 28 || i == 29 || i == 30 || i == 31;
    }
  }

  lemma Row2(i: bv8)
    requires i >> 4 == 2
    ensures Tab(i) == Reduce(i as bv32)
  {
    if i & 8 == 0 {
      assert i == 32 || i == 33 || i == 34 || i == 35 || i == 36 || i == 37 || i == 38 || i == 39;
    } else {
      assert i == 40 || i == 41 || i == 42 || i == 43 || i == 44 || i == 45 || i == 46 || i == 47;
    }
  }

  lemma Row3(i: bv8)
    requires i >> 4 == 3
    ensures Tab(i) == Reduce(i as bv32)
  {
    if i & 8 == 0 {
      assert i == 48 || i == 49 || i == 50 || i == 51 || i == 52 || i == 53 || i == 54 || i == 55;
    } else {
      assert i == 56 || i == 57 || i == 58 || i == 59 || i == 60 || i == 61 || i == 62 || i == 63;
    }
  }

  lemma Row4(i: bv8)
    requires i >> 4 == 4
    ensures Tab(i) == Reduce(i as bv32)
  {
    if i & 8 == 0 {
      assert i == 64 || i == 65 || i == 66 || i == 67 || i == 68 || i == 69 || i == 70 || i == 71;
    } else {
      assert i == 72 || i == 73 || i == 74 || i == 75 || i == 76 || i == 77 || i == 78 || i == 79;
    }
  }

  lemma Row5(i: bv8)
    requires i >> 4 == 5
    ensures Tab(i) == Reduce(i as bv32)
  {
    if i & 8 == 0 {
      assert i == 80 || i == 81 || i == 82 || i == 83 || i == 84 || i == 85 || i == 86 || i == 87;
    } else {
      assert i == 88 || i == 89 || i == 90 || i == 91 || i == 92 || i == 93 || i == 94 || i == 95;
    }
  }

  lemma Row6(i: bv8)
    requires i >> 4 == 6
    ensures Tab(i) == Reduce(i as bv32)
  {
    if i & 8 == 0 {
      assert i == 96 || i == 97 || i == 98 || i == 99 || i == 100 || i == 101 || i == 102 || i == 103;
    } else {
      assert i == 104 || i == 105 || i == 106 || i == 107 || i == 108 || i == 109 || i == 110 || i == 111;
    }
  }

  lemma Row7(i: bv8)
    requires i >> 4 == 7
    ensures Tab(i) == Reduce(i as bv32)
  {
    if i & 8 == 0 {
      assert i == 112 || i == 113 || i == 114 || i == 115 || i == 116 || i == 117 || i == 118 || i == 119;
    } else {
      assert i == 120 || i == 121 || i == 122 || i == 123 || i == 124 || i == 125 || i == 126 || i == 127;
    }
  }

  lemma Row8(i: bv8)
    requires i >> 4 == 8
    ensures Tab(i) == Reduce(i as bv32)
  {
    if i & 8 == 0 {
      assert i == 128 || i == 129 || i == 130 || i == 131 || i == 132 || i == 133 || i == 134 || i == 135;
    } else {
      assert i == 136 || i == 137 || i == 138 || i == 139 || i == 140 || i == 141 || i == 142 || i == 143;
    }
  }

  lemma Row9(i: bv8)
    requires i >> 4 == 9
    ensures Tab(i) == Reduce(i as bv32)
  {
    if i & 8 == 0 {
      assert i == 144 || i == 145 || i == 146 || i == 147 || i == 148 || i == 149 || i == 150 || i == 151;
    } else {
      assert i == 152 || i == 153 || i == 154 || i == 155 || i == 156 || i == 157 || i == 158 || i == 159;
    }
  }

  lemma Row10(i: bv8)
    requires i >> 4 == 10
    ensures Tab(i) == Reduce(i as bv32)
  {
    if i & 8 == 0 {
      assert i == 160 || i == 161 || i == 162 || i == 163 || i == 164 || i == 165 || i == 166 || i == 167;
    } else {
      assert i == 168 || i == 169 || i == 170 || i == 171 || i == 172 || i == 173 || i == 174 || i == 175;
    }
  }

  lemma Row11(i: bv8)
    requires i >> 4 == 11
    ensures Tab(i) == Reduce(i as bv32)
  {
    if i & 8 == 0 {
      assert i == 176 || i == 177 || i == 178 || i == 179 || i == 180 || i == 181 || i == 182 || i == 183;
    } else {
      assert i == 184 || i == 185 || i == 186 || i == 187 || i == 188 || i == 189 || i == 190 || i == 191;
    }
  }

  lemma Row12(i: bv8)
    requires i >> 4 == 12
    ensures Tab(i) == Reduce(i as bv32)
  {
    if i & 8 == 0 {
      assert i == 192 || i == 193 || i == 194 || i == 195 || i == 196 || i == 197 || i == 198 || i == 199;
    } else {
      assert i == 200 || i == 201 || i == 202 || i == 203 || i == 204 || i == 205 || i == 206 || i == 207;
    }
  }

  lemma Row13(i: bv8)
    requires i >> 4 == 13
    ensures Tab(i) == Reduce(i as bv32)
  {
    if i & 8 == 0 {
      assert i == 208 || i == 209 || i == 210 || i == 211 || i == 212 || i == 213 || i == 214 || i == 215;
    } else {
      assert i == 216 || i == 217 || i == 218 || i == 219 || i == 220 || i == 221 || i == 222 || i == 223;
    }
  }

  lemma Row14(i: bv8)
    requires i >> 4 == 14
    ensures Tab(i) == Reduce(i as bv32)
  {
    if i & 8 == 0 {
      assert i == 224 || i == 225 || i == 226 || i == 227 || i == 228 || i == 229 || i == 230 || i == 231;
    } else {
      assert i == 232 || i == 233 || i == 234 || i == 235 || i == 236 || i == 237 || i == 238 || i == 239;
    }
  }

  lemma Row15(i: bv8)
    requires i >> 4 == 15
    ensures Tab(i) == Reduce(i as bv32)
  {
    if i & 8 == 0 {
      assert i == 240 || i == 241 || i == 242 || i == 243 || i == 244 || i == 245 || i == 246 || i == 247;
    } else {
      assert i == 248 || i == 249 || i == 250 || i == 251 || i == 252 || i == 253 || i == 254 || i == 255;
    }
  }

  /** Every entry of the table is the eight-step reduction of its index. */
  lemma TableIsReduction(i: bv8)
    ensures Tab(i) == Reduce(i as bv32)
  {
    var r := i >> 4;
    if r < 8 {
      if r == 0 { Row0(i); } else if r == 1 { Row1(i); } else if r == 2 { Row2(i); } else if r == 3 { Row3(i); }
      else if r == 4 { Row4(i); } else if r == 5 { Row5(i); } else if r == 6 { Row6(i); } else { Row7(i); }
    } else {
      if r == 8 { Row8(i); } else if r == 9 { Row9(i); } else if r == 10 { Row10(i); } else if r == 11 { Row11(i); }
      else if r == 12 { Row12(i); } else if r == 13 { Row13(i); } else if r == 14 { Row14(i); } else { Row15(i); }
    }
  }

  // ----- the reduction is linear -----

  lemma StepOdd(v: bv32)
    requires v & 1 == 1
    ensures Step(v) == Add(Half(v), POLY)
  {
  }

  lemma StepEven(v: bv32)
    requires v & 1 == 0
    ensures Step(v) == Half(v)
  {
  }

  lemma LowBit(x: bv32)
    ensures x & 1 == 0 || x & 1 == 1
  {
  }

  lemma HalfLinear(x: bv32, y: bv32)
    ensures Half(Add(x, y)) == Add(Half(x), Half(y))
    ensures Add(x, y) & 1 == (x & 1) ^ (y & 1)
  {
  }

  lemma AddAssoc(a: bv32, b: bv32, c: bv32)
    ensures Add(a, Add(b, c)) == Add(Add(a, b), c) == Add(Add(a, c), b)
  {
  }

  lemma AddCancel(a: bv32, b: bv32, c: bv32)
    ensures Add(Add(a, c), Add(b, c)) == Add(a, b)
  {
    AddAssoc(Add(a, c), b, c);
    AddAssoc(a, b, c);
    AddAssoc(Add(a, b), c, c);
    AddSelf(c);
    AddNothing(Add(a, b));
  }

  lemma AddSelf(x: bv32)
    ensures Add(x, x) == 0
  {
  }

  lemma AddNothing(x: bv32)
    ensures Add(x, 0) == x
  {
  }

  lemma StepLinear(x: bv32, y: bv32)
    ensures Step(Add(x, y)) == Add(Step(x), Step(y))
  {
    LowBit(x);
    LowBit(y);
    HalfLinear(x, y);
    if x & 1 == 1 {
      StepOdd(x);
      if y & 1 == 1 {
        StepOdd(y);
        StepEven(Add(x, y));
        AddCancel(Half(x), Half(y), POLY);
      } else {
        StepEven(y);
        StepOdd(Add(x, y));
        AddAssoc(Half(x), POLY, Half(y));
      }
    } else {
      StepEven(x);
      if y & 1 == 1 {
        StepOdd(y);
        StepOdd(Add(x, y));
        AddAssoc(Half(x), Half(y), POLY);
      } else {
        StepEven(y);
        StepEven(Add(x, y));
      }
    }
  }

  lemma {:induction false} StepsLinear(x: bv32, y: bv32, n: nat)
    ensures Steps(Add(x, y), n) == Add(Steps(x, n), Steps(y, n))
    decreases n
  {
    if n > 0 {
      StepLinear(x, y);
      StepsLinear(Step(x), Step(y), n - 1);
    }
  }

  lemma TakeOdd(crc: bv32, rest: bv32)
    requires Add(crc, rest) & 1 == 1
    ensures Step(Add(crc, rest)) == Add(TakeBit(crc, rest & 1), Half(rest))
  {
  }

  lemma TakeEven(crc: bv32, rest: bv32)
    requires Add(crc, rest) & 1 == 0
    ensures Step(Add(crc, rest)) == Add(TakeBit(crc, rest & 1), Half(rest))
  {
  }

  function Halves(w: bv32, n: nat): bv32
    decreases n
  {
    if n == 0 then w else Halves(Half(w), n - 1)
  }

  /** Taking n bits of w is adding all of w and reducing n times, up to what is left of w. */
  lemma {:induction false} TakeBitsIsSteps(crc: bv32, w: bv32, n: nat)
    ensures Steps(Add(crc, w), n) == Add(TakeBits(crc, w, n), Halves(w, n))
    decreases n
  {
    if n > 0 {
      LowBit(Add(crc, w));
      if Add(crc, w) & 1 == 1 {
        TakeOdd(crc, w);
      } else {
        TakeEven(crc, w);
      }
      TakeBitsIsSteps(TakeBit(crc, w & 1), Half(w), n - 1);
    }
  }

  lemma EightSteps(v: bv32)
    ensures Steps(v, 8) == Reduce(v)
  {
    var v2 := Step(Step(v));
    var v4 := Step(Step(v2));
    var v6 := Step(Step(v4));
    assert Steps(v, 8) == Steps(Step(v), 7) == Steps(v2, 6);
    assert Steps(v2, 6) == Steps(Step(v2), 5) == Steps(v4, 4);
    assert Steps(v4, 4) == Steps(Step(v4), 3) == Steps(v6, 2);
    assert Steps(v6, 2) == Steps(Step(v6), 1) == Steps(Step(Step(v6)), 0);
  }

  function Half8(w: bv32): bv32 {
    Half(Half(Half(Half(Half(Half(Half(Half(w))))))))
  }

  lemma EightHalves(w: bv32)
    ensures Halves(w, 8) == Half8(w)
  {
    var w2 := Half(Half(w));
    var w4 := Half(Half(w2));
    var w6 := Half(Half(w4));
    assert Halves(w, 8) == Halves(Half(w), 7) == Halves(w2, 6);
    assert Halves(w2, 6) == Halves(Half(w2), 5) == Halves(w4, 4);
    assert Halves(w4, 4) == Halves(Half(w4), 3) == Halves(w6, 2);
    assert Halves(w6, 2) == Halves(Half(w6), 1) == Halves(Half(Half(w6)), 0);
  }

  lemma NothingLeft(b: bv8)
    ensures Half8(b as bv32) == 0
  {
  }

  /** Shifting in an octet bit by bit is adding it to the register and reducing eight times. */
  lemma OctetIsReduction(crc: bv32, b: bv8)
    ensures TakeOctet(crc, b) == Steps(Add(crc, b as bv32), 8)
  {
    TakeBitsIsSteps(crc, b as bv32, 8);
    EightHalves(b as bv32);
    NothingLeft(b);
    AddNothing(TakeOctet(crc, b));
  }

  function Low(v: bv32): bv8 {
    (v & 0xFF) as bv8
  }

  function Down(v: bv32): bv32 {
    v >> 8
  }

  function Up(v: bv32): bv32 {
    v << 8
  }

  /** Eight zero bits at the low end are shifted out unchanged. */
  lemma ReduceShifted(v: bv32)
    requires v & 0xFF == 0
    ensures Reduce(v) == Down(v)
  {
  }

  // ----- the table step -----

  /** `crc_tab[CRC32_INDEX(crc) ^ b] ^ CRC32_SHIFTED(crc)`. */
  function TableStep(crc: bv32, b: bv8): bv32 {
    Add(Tab(Low(crc) ^ b), Down(crc))
  }

  lemma SplitLow(crc: bv32, b: bv8)
    ensures Add((Low(crc) ^ b) as bv32, crc & 0xFFFF_FF00) == Add(crc, b as bv32)
    ensures Down(crc & 0xFFFF_FF00) == Down(crc)
    ensures (crc & 0xFFFF_FF00) & 0xFF == 0
  {
  }

  lemma TableStepIsOctet(crc: bv32, b: bv8)
    ensures TableStep(crc, b) == TakeOctet(crc, b)
  {
    var lo, hi := Low(crc) ^ b, crc & 0xFFFF_FF00;
    SplitLow(crc, b);
    OctetIsReduction(crc, b);
    StepsLinear(lo as bv32, hi, 8);
    EightSteps(lo as bv32);
    EightSteps(hi);
    TableIsReduction(lo);
    ReduceShifted(hi);
  }

  // ----- whole words -----

  /** The word at a four-byte boundary, on a little-endian machine. */
  function Word(b0: bv8, b1: bv8, b2: bv8, b3: bv8): bv32 {
    (b0 as bv32) | ((b1 as bv32) << 8) | ((b2 as bv32) << 16) | ((b3 as bv32) << 24)
  }

  lemma WordSplit(b0: bv8, b1: bv8, b2: bv8, b3: bv8)
    ensures Word(b0, b1, b2, b3) == Add(b0 as bv32, Up(Word(b1, b2, b3, 0)))
    ensures Down(Up(Word(b1, b2, b3, 0))) == Word(b1, b2, b3, 0)
    ensures Up(Word(b1, b2, b3, 0)) & 0xFF == 0
  {
  }

  /** A step with no new input shifts in the lowest octet of the word that was added earlier. */
  lemma WordStep(crc: bv32, b0: bv8, b1: bv8, b2: bv8, b3: bv8)
    ensures TableStep(Add(crc, Word(b0, b1, b2, b3)), 0) == Add(TakeOctet(crc, b0), Word(b1, b2, b3, 0))
  {
    var rest := Word(b1, b2, b3, 0);
    var x := Add(crc, Word(b0, b1, b2, b3));
    WordSplit(b0, b1, b2, b3);
    AddAssoc(crc, b0 as bv32, Up(rest));
    TableStepIsOctet(x, 0);
    OctetIsReduction(x, 0);
    AddNothing(x);
    OctetIsReduction(crc, b0);
    StepsLinear(Add(crc, b0 as bv32), Up(rest), 8);
    EightSteps(Up(rest));
    ReduceShifted(Up(rest));
  }

  /** n steps with no further input. */
  function TableSteps(v: bv32, n: nat): bv32
    decreases n
  {
    if n == 0 then v else TableSteps(TableStep(v, 0), n - 1)
  }

  const WORD_OCTETS: nat := 4

  /** Adding a whole word first and stepping four times. */
  function WordTake(crc: bv32, w: bv32): bv32 {
    TableSteps(Add(crc, w), WORD_OCTETS)
  }

  lemma FourSteps(v0: bv32, v1: bv32, v2: bv32, v3: bv32, v4: bv32)
    requires v1 == TableStep(v0, 0) && v2 == TableStep(v1, 0) && v3 == TableStep(v2, 0) && v4 == TableStep(v3, 0)
    ensures TableSteps(v0, WORD_OCTETS) == v4
  {
    assert TableSteps(v0, 4) == TableSteps(v1, 3) == TableSteps(v2, 2) == TableSteps(v3, 1) == TableSteps(v4, 0);
  }

  lemma WordIsFourOctets(crc: bv32, b0: bv8, b1: bv8, b2: bv8, b3: bv8)
    ensures WordTake(crc, Word(b0, b1, b2, b3)) ==
            TakeOctet(TakeOctet(TakeOctet(TakeOctet(crc, b0), b1), b2), b3)
  {
    WordStep(crc, b0, b1, b2, b3);
    WordStep(TakeOctet(crc, b0), b1, b2, b3, 0);
    WordStep(TakeOctet(TakeOctet(crc, b0), b1), b2, b3, 0, 0);
    WordStep(TakeOctet(TakeOctet(TakeOctet(crc, b0), b1), b2), b3, 0, 0, 0);
    NoWord();
    var c1 := TakeOctet(crc, b0);
    var c2 := TakeOctet(c1, b1);
    var c3 := TakeOctet(c2, b2);
    var c4 := TakeOctet(c3, b3);
    AddNothing(c4);
    FourSteps(Add(crc, Word(b0, b1, b2, b3)), Add(c1, Word(b1, b2, b3, 0)), Add(c2, Word(b2, b3, 0, 0)), Add(c3, Word(b3, 0, 0, 0)), c4);
  }

  lemma NoWord()
    ensures Word(0, 0, 0, 0) == 0
  {
  }

  // ----- splitting -----

  lemma {:induction false} TakeConcat(crc: bv32, a: Octets, b: Octets)
    ensures Take(crc, a + b) == Take(Take(crc, a), b)
  {
    if b == [] {
      assert a + b == a;
    } else {
      var n := |b| - 1;
      assert (a + b)[..|a| + n] == a + b[..n];
      TakeConcat(crc, a, b[..n]);
    }
  }

  lemma TakeNext(crc: bv32, data: Octets, i: nat)
    requires i < |data|
    ensures Take(crc, data[..i + 1]) == TakeOctet(Take(crc, data[..i]), data[i])
  {
    assert data[..i + 1][..i] == data[..i];
  }

  lemma TakeFour(crc: bv32, data: Octets, i: nat)
    requires i + 4 <= |data|
    ensures Take(crc, data[..i + 4]) ==
            TakeOctet(TakeOctet(TakeOctet(TakeOctet(Take(crc, data[..i]), data[i]), data[i + 1]), data[i + 2]), data[i + 3])
  {
    TakeNext(crc, data, i);
    TakeNext(crc, data, i + 1);
    TakeNext(crc, data, i + 2);
    TakeNext(crc, data, i + 3);
  }

  lemma Complement(x: bv32)
    ensures Add(Add(x, NEGL), NEGL) == x
  {
  }

  /** Updating the checksum of one message with another gives the checksum of the two together. */
  lemma UpdateExtends(a: Octets, b: Octets)
    ensures Add(Take(Add(Crc(a), NEGL), b), NEGL) == Crc(a + b)
  {
    TakeConcat(NEGL, a, b);
    Complement(Take(NEGL, a));
  }

  // ----- what the checksum detects -----

  lemma HalfZero(v: bv32)
    requires v & 1 == 0 && Half(v) == 0
    ensures v == 0
  {
  }

  lemma HalfNotPoly(v: bv32)
    ensures Add(Half(v), POLY) != 0
  {
  }

  lemma AddZero(x: bv32, y: bv32)
    ensures Add(x, y) == 0 <==> x == y
  {
    AddSelf(y);
    if Add(x, y) == 0 {
      AddInjective(x, y, y);
    }
  }

  /** No two registers become one: nothing is lost by stepping. */
  lemma {:induction false} StepsInjective(x: bv32, y: bv32, n: nat)
    requires Steps(x, n) == Steps(y, n)
    ensures x == y
    decreases n
  {
    if n > 0 {
      StepsInjective(Step(x), Step(y), n - 1);
      var z := Add(x, y);
      StepLinear(x, y);
      AddZero(Step(x), Step(y));
      LowBit(z);
      if z & 1 == 1 {
        StepOdd(z);
        HalfNotPoly(z);
      } else {
        StepEven(z);
        HalfZero(z);
      }
      AddZero(x, y);
    }
  }

  lemma AddInjective(x: bv32, y: bv32, z: bv32)
    requires Add(x, z) == Add(y, z) || Add(z, x) == Add(z, y)
    ensures x == y
  {
  }

  lemma {:induction false} TakeInjective(x: bv32, y: bv32, data: Octets)
    requires Take(x, data) == Take(y, data)
    ensures x == y
  {
    if data != [] {
      var n := |data| - 1;
      var x', y', b := Take(x, data[..n]), Take(y, data[..n]), data[n];
      OctetIsReduction(x', b);
      OctetIsReduction(y', b);
      StepsInjective(Add(x', b as bv32), Add(y', b as bv32), 8);
      AddInjective(x', y', b as bv32);
      TakeInjective(x, y, data[..n]);
    }
  }

  lemma StepZeroInjective(x: bv32, y: bv32)
    requires TableStep(x, 0) == TableStep(y, 0)
    ensures x == y
  {
    TableStepIsOctet(x, 0);
    TableStepIsOctet(y, 0);
    TakeInjective(x, y, [0]);
  }

  lemma WordInjective(a0: bv8, a1: bv8, a2: bv8, a3: bv8, b0: bv8, b1: bv8, b2: bv8, b3: bv8)
    requires Word(a0, a1, a2, a3) == Word(b0, b1, b2, b3)
    ensures a0 == b0 && a1 == b1 && a2 == b2 && a3 == b3
  {
  }

  function WordOf(u: Octets): bv32
    requires |u| == 4
  {
    Word(u[0], u[1], u[2], u[3])
  }

  lemma WordOfInjective(u: Octets, v: Octets)
    requires |u| == |v| == 4 && WordOf(u) == WordOf(v)
    ensures u == v
  {
    WordInjective(u[0], u[1], u[2], u[3], v[0], v[1], v[2], v[3]);
  }

  lemma TakeOneByOne(crc: bv32, u: Octets)
    requires |u| == 4
    ensures Take(crc, u) == TakeOctet(TakeOctet(TakeOctet(TakeOctet(crc, u[0]), u[1]), u[2]), u[3])
  {
    assert u[..4] == u && u[..0] == [];
    TakeFour(crc, u, 0);
  }

  /** Whatever surrounds them, any change confined to four consecutive octets changes the checksum. */
  lemma BurstDetected(before: Octets, u: Octets, v: Octets, behind: Octets)
    requires |u| == |v| == 4
    ensures Crc(before + u + behind) == Crc(before + v + behind) <==> u == v
  {
    var c := Take(NEGL, before);
    if Crc(before + u + behind) == Crc(before + v + behind) {
      AddInjective(Take(NEGL, before + u + behind), Take(NEGL, before + v + behind), NEGL);
      TakeConcat(NEGL, before + u, behind);
      TakeConcat(NEGL, before + v, behind);
      TakeInjective(Take(NEGL, before + u), Take(NEGL, before + v), behind);
      TakeConcat(NEGL, before, u);
      TakeConcat(NEGL, before, v);
      SameWordTaken(c, u, v);
    }
  }

  lemma SameWordTaken(c: bv32, u: Octets, v: Octets)
    requires |u| == |v| == 4 && Take(c, u) == Take(c, v)
    ensures u == v
  {
    TakeOneByOne(c, u);
    TakeOneByOne(c, v);
    WordIsFourOctets(c, u[0], u[1], u[2], u[3]);
    WordIsFourOctets(c, v[0], v[1], v[2], v[3]);
    WordTakeInjective(c, WordOf(u), WordOf(v));
    WordOfInjective(u, v);
  }

  lemma WordTakeInjective(c: bv32, x: bv32, y: bv32)
    requires WordTake(c, x) == WordTake(c, y)
    ensures x == y
  {
    TableStepsInjective(Add(c, x), Add(c, y), WORD_OCTETS);
    AddInjective(x, y, c);
  }

  lemma {:induction false} TableStepsInjective(x: bv32, y: bv32, n: nat)
    requires TableSteps(x, n) == TableSteps(y, n)
    ensures x == y
    decreases n
  {
    if n > 0 {
      TableStepsInjective(TableStep(x, 0), TableStep(y, 0), n - 1);
      StepZeroInjective(x, y);
    }
  }

  // ----- the two implementations -----

  /** pj_crc32_context with the table version: the state is the checksum so far. */
  class TableContext {
    var crcState: bv32

    /** `pj_crc32_init`. */
    constructor ()
      ensures crcState == Crc([])
    {
      crcState := 0;
      Complement(0);
    }

    static method LookUp(crc: bv32, b: bv8) returns (r: bv32)
      ensures r == TakeOctet(crc, b)
    {
      TableStepIsOctet(crc, b);
      r := TableStep(crc, b);
    }

    /** The body of the word loop. */
    static method LookUpWord(crc: bv32, b0: bv8, b1: bv8, b2: bv8, b3: bv8) returns (r: bv32)
      ensures r == TakeOctet(TakeOctet(TakeOctet(TakeOctet(crc, b0), b1), b2), b3)
    {
      WordIsFourOctets(crc, b0, b1, b2, b3);
      r := Add(crc, Word(b0, b1, b2, b3));
      r := TableStep(r, 0);
      r := TableStep(r, 0);
      r := TableStep(r, 0);
      r := TableStep(r, 0);
    }

    /** The word loop, from octet `from` on. */
    static method TakeWords(crc: bv32, data: Octets, from: nat, ghost start: bv32) returns (r: bv32, i: nat)
      requires from <= |data| && crc == Take(start, data[..from])
      ensures i <= |data| < i + 4 && r == Take(start, data[..i])
    {
      r, i := crc, from;
      while |data| - i >= 4
        invariant i <= |data| && r == Take(start, data[..i])
      {
        TakeFour(start, data, i);
        r := LookUpWord(r, data[i], data[i + 1], data[i + 2], data[i + 3]);
        i := i + 4;
      }
    }

    /** `pj_crc32_update` on octets at address `addr`. */
    method Update(data: Octets, addr: nat) returns (r: bv32)
      modifies this
      ensures crcState == Add(Take(Add(old(crcState), NEGL), data), NEGL) == r
    {
      ghost var start := Add(crcState, NEGL);
      var crc := Add(crcState, NEGL);
      var i := 0;
      while (addr + i) % 4 != 0 && i < |data|
        invariant i <= |data| && crc == Take(start, data[..i])
        decreases |data| - i
      {
        TakeNext(start, data, i);
        crc := LookUp(crc, data[i]);
        i := i + 1;
      }
      crc, i := TakeWords(crc, data, i, start);
      while i < |data|
        invariant i <= |data| && crc == Take(start, data[..i])
      {
        TakeNext(start, data, i);
        crc := LookUp(crc, data[i]);
        i := i + 1;
      }
      assert data[..i] == data;
      crcState := Add(crc, NEGL);
      r := crcState;
    }

    /** `pj_crc32_final` on a little-endian machine, where CRC32_SWAP does nothing. */
    method Final() returns (r: bv32)
      ensures r == crcState
    {
      r := crcState;
    }
  }

  /** The version without the table: the state is the shift register itself. */
  class BitContext {
    var crcState: bv32

    constructor ()
      ensures crcState == NEGL
    {
      crcState := NEGL;
    }

    method Update(data: Octets) returns (r: bv32)
      modifies this
      ensures crcState == Take(old(crcState), data)
      ensures r == Add(crcState, NEGL)
    {
      ghost var start := crcState;
      var crc := crcState;
      var i := 0;
      while i < |data|
        invariant i <= |data| && crc == Take(start, data[..i])
      {
        crc := OctetByBits(crc, data[i]);
        TakeNext(start, data, i);
        i := i + 1;
      }
      assert data[..i] == data;
      crcState := crc;
      r := Add(crc, NEGL);
    }

    /** The loop over the eight bits. */
    static method OctetByBits(crc: bv32, b: bv8) returns (r: bv32)
      ensures r == TakeOctet(crc, b)
    {
      var temp: bv32 := (Low(crc) ^ b) as bv32;
      var j := 0;
      while j < 8
        invariant 0 <= j <= 8
        invariant Steps(temp, 8 - j) == Steps((Low(crc) ^ b) as bv32, 8)
      {
        if temp & 1 == 1 {
          temp := Half(temp) ^ POLY;
        } else {
          temp := Half(temp);
        }
        j := j + 1;
      }
      EightSteps((Low(crc) ^ b) as bv32);
      TableIsReduction(Low(crc) ^ b);
      TableStepIsOctet(crc, b);
      r := Add(temp, Down(crc));
    }

    method Final() returns (r: bv32)
      modifies this
      ensures r == crcState == Add(old(crcState), NEGL)
    {
      crcState := Add(crcState, NEGL);
      r := crcState;
    }
  }

  /** The table version over any split of a message, at any addresses, ends in the message's checksum. */
  method TableOver(chunks: seq<Octets>, addrs: seq<nat>) returns (r: bv32)
    requires |addrs| == |chunks|
    ensures r == Crc(Flatten(chunks))
  {
    var ctx := new TableContext();
    var i := 0;
    while i < |chunks|
      invariant i <= |chunks|
      invariant ctx.crcState == Crc(Flatten(chunks[..i]))
    {
      FlattenNext(chunks, i);
      UpdateExtends(Flatten(chunks[..i]), chunks[i]);
      var _ := ctx.Update(chunks[i], addrs[i]);
      i := i + 1;
    }
    assert chunks[..i] == chunks;
    r := ctx.Final();
  }

  /** So does the version without the table. */
  method BitsOver(chunks: seq<Octets>) returns (r: bv32)
    ensures r == Crc(Flatten(chunks))
  {
    var ctx := new BitContext();
    var i := 0;
    while i < |chunks|
      invariant i <= |chunks|
      invariant ctx.crcState == Take(NEGL, Flatten(chunks[..i]))
    {
      FlattenNext(chunks, i);
      TakeConcat(NEGL, Flatten(chunks[..i]), chunks[i]);
      var _ := ctx.Update(chunks[i]);
      i := i + 1;
    }
    assert chunks[..i] == chunks;
    r := ctx.Final();
  }
}
