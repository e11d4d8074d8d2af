/** The CRC-32 of a diagnostic report: bit by bit as RFC 1952 defines it, and by table as it is computed. */
module Crc32 {
  import opened UpdateTypes

  // ----- CRC-32 bit by bit -----

  /** The polynomial, lowest power first. */
  const POLYNOMIAL: bv32 := 0xedb88320

  function Xor(a: bv32, b: bv32): bv32 {
    a ^ b
  }

  function Half(a: bv32): bv32 {
    a >> 1
  }

  predicate Odd(a: bv32) {
    a & 1 == 1
  }

  function Not(a: bv32): bv32 {
    !a
  }

  /** The lowest byte, and what is above it. */
  function LowByte(a: bv32): (r: bv32)
    ensures r <= 0xff
  {
    a & 0xff
  }

  function Above(a: bv32): bv32 {
    a >> 8
  }

  /** One bit of the message goes into the remainder (section 8 of RFC 1952). */
  function BitIn(c: bv32, bit: bool): bv32 {
    if Odd(c) != bit then Xor(Half(c), POLYNOMIAL) else Half(c)
  }

  /** The bits of a byte go in from the lowest up. */
  function BitsIn(c: bv32, b: bv32, count: nat): bv32
    decreases count
  {
    if count == 0 then c else BitsIn(BitIn(c, Odd(b)), Half(b), count - 1)
  }

  function BytesIn(c: bv32, data: Bytes): bv32 {
    if data == [] then c else BitsIn(BytesIn(c, data[..|data| - 1]), data[|data| - 1] as bv32, 8)
  }

  /** The definition: remainder register and result are complemented. */
  function Crc(c: bv32, data: Bytes): bv32 {
    Not(BytesIn(Not(c), data))
  }

  // ----- CRC-32 by table -----

  const ROW_0: seq<bv32> := [
    0x00000000, 0x77073096, 0xee0e612c, 0x990951ba, 0x076dc419, 0x706af48f, 0xe963a535, 0x9e6495a3,
    0x0edb8832, 0x79dcb8a4, 0xe0d5e91e, 0x97d2d988, 0x09b64c2b, 0x7eb17cbd, 0xe7b82d07, 0x90bf1d91]

  const ROW_1: seq<bv32> := [
    0x1db71064, 0x6ab020f2, 0xf3b97148, 0x84be41de, 0x1adad47d, 0x6ddde4eb, 0xf4d4b551, 0x83d385c7,
    0x136c9856, 0x646ba8c0, 0xfd62f97a, 0x8a65c9ec, 0x14015c4f, 0x63066cd9, 0xfa0f3d63, 0x8d080df5]

  const ROW_2: seq<bv32> := [
    0x3b6e20c8, 0x4c69105e, 0xd56041e4, 0xa2677172, 0x3c03e4d1, 0x4b04d447, 0xd20d85fd, 0xa50ab56b,
    0x35b5a8fa, 0x42b2986c, 0xdbbbc9d6, 0xacbcf940, 0x32d86ce3, 0x45df5c75, 0xdcd60dcf, 0xabd13d59]

  const ROW_3: seq<bv32> := [
    0x26d930ac, 0x51de003a, 0xc8d75180, 0xbfd06116, 0x21b4f4b5, 0x56b3c423, 0xcfba9599, 0xb8bda50f,
    0x2802b89e, 0x5f058808, 0xc60cd9b2, 0xb10be924, 0x2f6f7c87, 0x58684c11, 0xc1611dab, 0xb6662d3d]

  const ROW_4: seq<bv32> := [
    0x76dc4190, 0x01db7106, 0x98d220bc, 0xefd5102a, 0x71b18589, 0x06b6b51f, 0x9fbfe4a5, 0xe8b8d433,
    0x7807c9a2, 0x0f00f934, 0x9609a88e, 0xe10e9818, 0x7f6a0dbb, 0x086d3d2d, 0x91646c97, 0xe6635c01]

  const ROW_5: seq<bv32> := [
    0x6b6b51f4, 0x1c6c6162, 0x856530d8, 0xf262004e, 0x6c0695ed, 0x1b01a57b, 0x8208f4c1, 0xf50fc457,
    0x65b0d9c6, 0x12b7e950, 0x8bbeb8ea, 0xfcb9887c, 0x62dd1ddf, 0x15da2d49, 0x8cd37cf3, 0xfbd44c65]

  const ROW_6: seq<bv32> := [
    0x4db26158, 0x3ab551ce, 0xa3bc0074, 0xd4bb30e2, 0x4adfa541, 0x3dd895d7, 0xa4d1c46d, 0xd3d6f4fb,
    0x4369e96a, 0x346ed9fc, 0xad678846, 0xda60b8d0, 0x44042d73, 0x33031de5, 0xaa0a4c5f, 0xdd0d7cc9]

  const ROW_7: seq<bv32> := [
    0x5005713c, 0x270241aa, 0xbe0b1010, 0xc90c2086, 0x5768b525, 0x206f85b3, 0xb966d409, 0xce61e49f,
    0x5edef90e, 0x29d9c998, 0xb0d09822, 0xc7d7a8b4, 0x59b33d17, 0x2eb40d81, 0xb7bd5c3b, 0xc0ba6cad]

  const ROW_8: seq<bv32> := [
    0xedb88320, 0x9abfb3b6, 0x03b6e20c, 0x74b1d29a, 0xead54739, 0x9dd277af, 0x04db2615, 0x73dc1683,
    0xe3630b12, 0x94643b84, 0x0d6d6a3e, 0x7a6a5aa8, 0xe40ecf0b, 0x9309ff9d, 0x0a00ae27, 0x7d079eb1]

  const ROW_9: seq<bv32> := [
    0xf00f9344, 0x8708a3d2, 0x1e01f268, 0x6906c2fe, 0xf762575d, 0x806567cb, 0x196c3671, 0x6e6b06e7,
    0xfed41b76, 0x89d32be0, 0x10da7a5a, 0x67dd4acc, 0xf9b9df6f, 0x8ebeeff9, 0x17b7be43, 0x60b08ed5]

  const ROW_A: seq<bv32> := [
    0xd6d6a3e8, 0xa1d1937e, 0x38d8c2c4, 0x4fdff252, 0xd1bb67f1, 0xa6bc5767, 0x3fb506dd, 0x48b2364b,
    0xd80d2bda, 0xaf0a1b4c, 0x36034af6, 0x41047a60, 0xdf60efc3, 0xa867df55, 0x316e8eef, 0x4669be79]

  const ROW_B: seq<bv32> := [
    0xcb61b38c, 0xbc66831a, 0x256fd2a0, 0x5268e236, 0xcc0c7795, 0xbb0b4703, 0x220216b9, 0x5505262f,
    0xc5ba3bbe, 0xb2bd0b28, 0x2bb45a92, 0x5cb36a04, 0xc2d7ffa7, 0xb5d0cf31, 0x2cd99e8b, 0x5bdeae1d]

  const ROW_C: seq<bv32> := [
    0x9b64c2b0, 0xec63f226, 0x756aa39c, 0x026d930a, 0x9c0906a9, 0xeb0e363f, 0x72076785, 0x05005713,
    0x95bf4a82, 0xe2b87a14, 0x7bb12bae, 0x0cb61b38, 0x92d28e9b, 0xe5d5be0d, 0x7cdcefb7, 0x0bdbdf21]

  const ROW_D: seq<bv32> := [
    0x86d3d2d4, 0xf1d4e242, 0x68ddb3f8, 0x1fda836e, 0x81be16cd, 0xf6b9265b, 0x6fb077e1, 0x18b74777,
    0x88085ae6, 0xff0f6a70, 0x66063bca, 0x11010b5c, 0x8f659eff, 0xf862ae69, 0x616bffd3, 0x166ccf45]

  const ROW_E: seq<bv32> := [
    0xa00ae278, 0xd70dd2ee, 0x4e048354, 0x3903b3c2, 0xa7672661, 0xd06016f7, 0x4969474d, 0x3e6e77db,
    0xaed16a4a, 0xd9d65adc, 0x40df0b66, 0x37d83bf0, 0xa9bcae53, 0xdebb9ec5, 0x47b2cf7f, 0x30b5ffe9]

  const ROW_F: seq<bv32> := [
    0xbdbdf21c, 0xcabac28a, 0x53b39330, 0x24b4a3a6, 0xbad03605, 0xcdd70693, 0x54de5729, 0x23d967bf,
    0xb3667a2e, 0xc4614ab8, 0x5d681b02, 0x2a6f2b94, 0xb40bbe37, 0xc30c8ea1, 0x5a05df1b, 0x2d02ef8d]

  const TABLE: seq<seq<bv32>> := [
    ROW_0, ROW_1, ROW_2, ROW_3, ROW_4, ROW_5, ROW_6, ROW_7,
    ROW_8, ROW_9, ROW_A, ROW_B, ROW_C, ROW_D, ROW_E, ROW_F]

  function Shift(c: bv32): bv32 {
    if Odd(c) then Xor(Half(c), POLYNOMIAL) else Half(c)
  }

  function Shift8(c: bv32): bv32 {
    Shift(Shift(Shift(Shift(Shift(Shift(Shift(Shift(c))))))))
  }

  // Each row holds what eight bit steps make of sixteen successive bytes.

  lemma Row0(x: bv32)
    requires x < 16
    ensures |ROW_0| == 16 && ROW_0[x as nat] == Shift8(0x00 + x)
  {
    if x == 0 {} else if x == 1 {} else if x == 2 {} else if x == 3 {} else if x == 4 {} else if x == 5 {}
    else if x == 6 {} else if x == 7 {} else if x == 8 {} else if x == 9 {} else if x == 10 {}
    else if x == 11 {} else if x == 12 {} else if x == 13 {} else if x == 14 {} else {}
  }

  lemma Row1(x: bv32)
    requires x < 16
    ensures |ROW_1| == 16 && ROW_1[x as nat] == Shift8(0x10 + x)
  {
    if x == 0 {} else if x == 1 {} else if x == 2 {} else if x == 3 {} else if x == 4 {} else if x == 5 {}
    else if x == 6 {} else if x == 7 {} else if x == 8 {} else if x == 9 {} else if x == 10 {}
    else if x == 11 {} else if x == 12 {} else if x == 13 {} else if x == 14 {} else {}
  }

  lemma Row2(x: bv32)
    requires x < 16
    ensures |ROW_2| == 16 && ROW_2[x as nat] == Shift8(0x20 + x)
  {
    if x == 0 {} else if x == 1 {} else if x == 2 {} else if x == 3 {} else if x == 4 {} else if x == 5 {}
    else if x == 6 {} else if x == 7 {} else if x == 8 {} else if x == 9 {} else if x == 10 {}
    else if x == 11 {} else if x == 12 {} else if x == 13 {} else if x == 14 {} else {}
  }

  lemma Row3(x: bv32)
    requires x < 16
    ensures |ROW_3| == 16 && ROW_3[x as nat] == Shift8(0x30 + x)
  {
    if x == 0 {} else if x == 1 {} else if x == 2 {} else if x == 3 {} else if x == 4 {} else if x == 5 {}
    else if x == 6 {} else if x == 7 {} else if x == 8 {} else if x == 9 {} else if x == 10 {}
    else if x == 11 {} else if x == 12 {} else if x == 13 {} else if x == 14 {} else {}
  }

  lemma Row4(x: bv32)
    requires x < 16
    ensures |ROW_4| == 16 && ROW_4[x as nat] == Shift8(0x40 + x)
  {
    if x == 0 {} else if x == 1 {} else if x == 2 {} else if x == 3 {} else if x == 4 {} else if x == 5 {}
    else if x == 6 {} else if x == 7 {} else if x == 8 {} else if x == 9 {} else if x == 10 {}
    else if x == 11 {} else if x == 12 {} else if x == 13 {} else if x == 14 {} else {}
  }

  lemma Row5(x: bv32)
    requires x < 16
    ensures |ROW_5| == 16 && ROW_5[x as nat] == Shift8(0x50 + x)
  {
    if x == 0 {} else if x == 1 {} else if x == 2 {} else if x == 3 {} else if x == 4 {} else if x == 5 {}
    else if x == 6 {} else if x == 7 {} else if x == 8 {} else if x == 9 {} else if x == 10 {}
    else if x == 11 {} else if x == 12 {} else if x == 13 {} else if x == 14 {} else {}
  }

  lemma Row6(x: bv32)
    requires x < 16
    ensures |ROW_6| == 16 && ROW_6[x as nat] == Shift8(0x60 + x)
  {
    if x == 0 {} else if x == 1 {} else if x == 2 {} else if x == 3 {} else if x == 4 {} else if x == 5 {}
    else if x == 6 {} else if x == 7 {} else if x == 8 {} else if x == 9 {} else if x == 10 {}
    else if x == 11 {} else if x == 12 {} else if x == 13 {} else if x == 14 {} else {}
  }

  lemma Row7(x: bv32)
    requires x < 16
    ensures |ROW_7| == 16 && ROW_7[x as nat] == Shift8(0x70 + x)
  {
    if x == 0 {} else if x == 1 {} else if x == 2 {} else if x == 3 {} else if x == 4 {} else if x == 5 {}
    else if x == 6 {} else if x == 7 {} else if x == 8 {} else if x == 9 {} else if x == 10 {}
    else if x == 11 {} else if x == 12 {} else if x == 13 {} else if x == 14 {} else {}
  }

  lemma Row8(x: bv32)
    requires x < 16
    ensures |ROW_8| == 16 && ROW_8[x as nat] == Shift8(0x80 + x)
  {
    if x == 0 {} else if x == 1 {} else if x == 2 {} else if x == 3 {} else if x == 4 {} else if x == 5 {}
    else if x == 6 {} else if x == 7 {} else if x == 8 {} else if x == 9 {} else if x == 10 {}
    else if x == 11 {} else if x == 12 {} else if x == 13 {} else if x == 14 {} else {}
  }

  lemma Row9(x: bv32)
    requires x < 16
    ensures |ROW_9| == 16 && ROW_9[x as nat] == Shift8(0x90 + x)
  {
    if x == 0 {} else if x == 1 {} else if x == 2 {} else if x == 3 {} else if x == 4 {} else if x == 5 {}
    else if x == 6 {} else if x == 7 {} else if x == 8 {} else if x == 9 {} else if x == 10 {}
    else if x == 11 {} else if x == 12 {} else if x == 13 {} else if x == 14 {} else {}
  }

  lemma RowA(x: bv32)
    requires x < 16
    ensures |ROW_A| == 16 && ROW_A[x as nat] == Shift8(0xa0 + x)
  {
    if x == 0 {} else if x == 1 {} else if x == 2 {} else if x == 3 {} else if x == 4 {} else if x == 5 {}
    else if x == 6 {} else if x == 7 {} else if x == 8 {} else if x == 9 {} else if x == 10 {}
    else if x == 11 {} else if x == 12 {} else if x == 13 {} else if x == 14 {} else {}
  }

  lemma RowB(x: bv32)
    requires x < 16
    ensures |ROW_B| == 16 && ROW_B[x as nat] == Shift8(0xb0 + x)
  {
    if x == 0 {} else if x == 1 {} else if x == 2 {} else if x == 3 {} else if x == 4 {} else if x == 5 {}
    else if x == 6 {} else if x == 7 {} else if x == 8 {} else if x == 9 {} else if x == 10 {}
    else if x == 11 {} else if x == 12 {} else if x == 13 {} else if x == 14 {} else {}
  }

  lemma RowC(x: bv32)
    requires x < 16
    ensures |ROW_C| == 16 && ROW_C[x as nat] == Shift8(0xc0 + x)
  {
    if x == 0 {} else if x == 1 {} else if x == 2 {} else if x == 3 {} else if x == 4 {} else if x == 5 {}
    else if x == 6 {} else if x == 7 {} else if x == 8 {} else if x == 9 {} else if x == 10 {}
    else if x == 11 {} else if x == 12 {} else if x == 13 {} else if x == 14 {} else {}
  }

  lemma RowD(x: bv32)
    requires x < 16
    ensures |ROW_D| == 16 && ROW_D[x as nat] == Shift8(0xd0 + x)
  {
    if x == 0 {} else if x == 1 {} else if x == 2 {} else if x == 3 {} else if x == 4 {} else if x == 5 {}
    else if x == 6 {} else if x == 7 {} else if x == 8 {} else if x == 9 {} else if x == 10 {}
    else if x == 11 {} else if x == 12 {} else if x == 13 {} else if x == 14 {} else {}
  }

  lemma RowE(x: bv32)
    requires x < 16
    ensures |ROW_E| == 16 && ROW_E[x as nat] == Shift8(0xe0 + x)
  {
    if x == 0 {} else if x == 1 {} else if x == 2 {} else if x == 3 {} else if x == 4 {} else if x == 5 {}
    else if x == 6 {} else if x == 7 {} else if x == 8 {} else if x == 9 {} else if x == 10 {}
    else if x == 11 {} else if x == 12 {} else if x == 13 {} else if x == 14 {} else {}
  }

  lemma RowF(x: bv32)
    requires x < 16
    ensures |ROW_F| == 16 && ROW_F[x as nat] == Shift8(0xf0 + x)
  {
    if x == 0 {} else if x == 1 {} else if x == 2 {} else if x == 3 {} else if x == 4 {} else if x == 5 {}
    else if x == 6 {} else if x == 7 {} else if x == 8 {} else if x == 9 {} else if x == 10 {}
    else if x == 11 {} else if x == 12 {} else if x == 13 {} else if x == 14 {} else {}
  }

  /** The entry for a byte. */
  function Entry(b: bv32): bv32
    requires b <= 0xff
  {
    assert |ROW_0| == |ROW_1| == |ROW_2| == |ROW_3| == |ROW_4| == |ROW_5| == |ROW_6| == |ROW_7| == 16;
    assert |ROW_8| == |ROW_9| == |ROW_A| == |ROW_B| == |ROW_C| == |ROW_D| == |ROW_E| == |ROW_F| == 16;
    TABLE[(b >> 4) as nat][(b & 15) as nat]
  }

  lemma EntryIsRight(b: bv32)
    requires b <= 0xff
    ensures Entry(b) == Shift8(b)
  {
    hide Shift8;
    var row, x := b >> 4, b & 15;
    if row < 8 {
      if row == 0 { Row0(x); } else if row == 1 { Row1(x); } else if row == 2 { Row2(x); } else if row == 3 { Row3(x); }
      else if row == 4 { Row4(x); } else if row == 5 { Row5(x); } else if row == 6 { Row6(x); } else { Row7(x); }
    } else {
      if row == 8 { Row8(x); } else if row == 9 { Row9(x); } else if row == 10 { RowA(x); } else if row == 11 { RowB(x); }
      else if row == 12 { RowC(x); } else if row == 13 { RowD(x); } else if row == 14 { RowE(x); } else { RowF(x); }
    }
  }

  // ----- why the table works -----

  lemma Halves(a: bv32, b: bv32)
    ensures Half(Xor(a, b)) == Xor(Half(a), Half(b))
    ensures Odd(Xor(a, b)) <==> Odd(a) != Odd(b)
  {
  }

  lemma XorAssociates(a: bv32, b: bv32, c: bv32)
    ensures Xor(a, Xor(b, c)) == Xor(Xor(a, b), c)
  {
  }

  lemma XorBasics(a: bv32, b: bv32)
    ensures Xor(a, b) == Xor(b, a) && Xor(a, a) == 0 && Xor(a, 0) == a
  {
  }

  lemma XorLaws(a: bv32, b: bv32, p: bv32)
    ensures Xor(Xor(a, p), Xor(b, p)) == Xor(a, b)
    ensures Xor(Xor(a, p), b) == Xor(Xor(a, b), p)
    ensures Xor(a, Xor(b, p)) == Xor(Xor(a, b), p)
  {
    hide Xor;
    XorAssociates(a, b, p);
    // a + p + b
    XorAssociates(a, p, b);
    XorBasics(p, b);
    // (a + p) + (b + p)
    XorAssociates(Xor(a, p), b, p);
    XorAssociates(Xor(a, b), p, p);
    XorBasics(p, p);
    XorBasics(Xor(a, b), p);
  }

  /** Shifting is linear, as polynomial remainders are. */
  lemma ShiftOfXor(a: bv32, b: bv32)
    ensures Shift(Xor(a, b)) == Xor(Shift(a), Shift(b))
  {
    hide Xor, Half, Odd;
    Halves(a, b);
    XorLaws(Half(a), Half(b), POLYNOMIAL);
  }

  lemma Shift8OfXor(a: bv32, b: bv32)
    ensures Shift8(Xor(a, b)) == Xor(Shift8(a), Shift8(b))
  {
    hide Shift, Xor;
    var a1, b1 := Shift(a), Shift(b);
    var a2, b2 := Shift(a1), Shift(b1);
    var a3, b3 := Shift(a2), Shift(b2);
    var a4, b4 := Shift(a3), Shift(b3);
    var a5, b5 := Shift(a4), Shift(b4);
    var a6, b6 := Shift(a5), Shift(b5);
    var a7, b7 := Shift(a6), Shift(b6);
    ShiftOfXor(a, b);
    ShiftOfXor(a1, b1);
    ShiftOfXor(a2, b2);
    ShiftOfXor(a3, b3);
    ShiftOfXor(a4, b4);
    ShiftOfXor(a5, b5);
    ShiftOfXor(a6, b6);
    ShiftOfXor(a7, b7);
  }

  /** The bytes above the lowest one. */
  function TopBytes(a: bv32): bv32 {
    a & 0xffffff00
  }

  lemma EightZeros(c: bv32)
    ensures var h := TopBytes(c);
            && !Odd(h) && !Odd(h >> 1) && !Odd(h >> 2) && !Odd(h >> 3) && !Odd(h >> 4) && !Odd(h >> 5) && !Odd(h >> 6)
            && !Odd(h >> 7) && h >> 8 == Above(c)
  {
  }

  lemma HalfAgain(h: bv32)
    ensures Half(h) == h >> 1 && Half(h >> 1) == h >> 2 && Half(h >> 2) == h >> 3 && Half(h >> 3) == h >> 4
            && Half(h >> 4) == h >> 5 && Half(h >> 5) == h >> 6 && Half(h >> 6) == h >> 7 && Half(h >> 7) == h >> 8
  {
  }

  lemma Shift8OfTopBytes(c: bv32)
    ensures Shift8(TopBytes(c)) == Above(c)
  {
    hide Half, Odd, TopBytes, Above, Xor;
    EightZeros(c);
    HalfAgain(TopBytes(c));
  }

  lemma SplitWord(c: bv32)
    ensures c == Xor(TopBytes(c), LowByte(c))
  {
  }

  /** Eight steps are one look at the table. */
  lemma TableStep(c: bv32)
    ensures Shift8(c) == Xor(Above(c), Entry(LowByte(c)))
  {
    hide *;
    SplitWord(c);
    Shift8OfXor(TopBytes(c), LowByte(c));
    Shift8OfTopBytes(c);
    EntryIsRight(LowByte(c));
  }

  /** A message bit may as well be put into the register's low end before the step. */
  lemma BitAhead(c: bv32, b: bv32)
    ensures Shift(Xor(c, b)) == Xor(BitIn(c, Odd(b)), Half(b))
  {
    hide Xor, Half, Odd;
    Halves(c, b);
    XorLaws(Half(c), Half(b), POLYNOMIAL);
  }

  lemma ByteAhead(c: bv32, b: bv32)
    requires b <= 0xff
    ensures BitsIn(c, b, 8) == Shift8(Xor(c, b))
  {
    BitsRunOut(b);
    hide Shift, BitIn, Xor, Half, Odd, BitsIn;
    var c1, b1 := BitAheadNext(c, b, 7);
    var c2, b2 := BitAheadNext(c1, b1, 6);
    var c3, b3 := BitAheadNext(c2, b2, 5);
    var c4, b4 := BitAheadNext(c3, b3, 4);
    var c5, b5 := BitAheadNext(c4, b4, 3);
    var c6, b6 := BitAheadNext(c5, b5, 2);
    var c7, b7 := BitAheadNext(c6, b6, 1);
    var c8, b8 := BitAheadNext(c7, b7, 0);
    NoBitsLeft(c8);
  }

  lemma BitAheadNext(c: bv32, b: bv32, left: nat) returns (d: bv32, half: bv32)
    ensures half == Half(b) && Shift(Xor(c, b)) == Xor(d, half) && BitsIn(c, b, left + 1) == BitsIn(d, half, left)
  {
    BitAhead(c, b);
    d, half := BitIn(c, Odd(b)), Half(b);
  }

  lemma BitsRunOut(b: bv32)
    requires b <= 0xff
    ensures Half(Half(Half(Half(Half(Half(Half(Half(b)))))))) == 0
  {
  }

  lemma NoBitsLeft(c: bv32)
    ensures Xor(c, 0) == c && BitsIn(c, 0, 0) == c
  {
  }

  /** The register after one more byte, with one look at the table. */
  lemma ByteByTable(c: bv32, b: bv32)
    requires b <= 0xff
    ensures BitsIn(c, b, 8) == Xor(Above(c), Entry(LowByte(Xor(c, b))))
  {
    hide *;
    ByteAhead(c, b);
    TableStep(Xor(c, b));
    LowByteShiftedOut(c, b);
  }

  lemma LowByteShiftedOut(c: bv32, b: bv32)
    requires b <= 0xff
    ensures Above(Xor(c, b)) == Above(c)
  {
  }

  lemma ByteFits(b: bv8)
    ensures (b as bv32) <= 0xff
  {
  }

  /** The table loop computes the checksum its definition gives, for all inputs. */
  method Crc32Update(crc: bv32, data: Bytes) returns (r: bv32)
    ensures r == Crc(crc, data)
  {
    hide Entry, BitsIn, Xor, Above, LowByte, Not;
    var c := Not(crc);
    for i := 0 to |data|
      invariant c == BytesIn(Not(crc), data[..i])
    {
      var b := data[i] as bv32;
      ByteFits(data[i]);
      ByteByTable(c, b);
      assert data[..i + 1][..i] == data[..i];
      c := Xor(Above(c), Entry(LowByte(Xor(c, b))));
    }
    assert data[..|data|] == data;
    r := Not(c);
  }

  lemma {:induction false} BytesCompose(c: bv32, a: Bytes, b: Bytes)
    ensures BytesIn(c, a + b) == BytesIn(BytesIn(c, a), b)
  {
    hide BitsIn;
    if b == [] {
      assert a + b == a;
    } else {
      assert (a + b)[..|a + b| - 1] == a + b[..|b| - 1];
      BytesCompose(c, a, b[..|b| - 1]);
    }
  }

  /** A checksum can be carried on over further data. */
  lemma CrcComposes(c: bv32, a: Bytes, b: Bytes)
    ensures Crc(Crc(c, a), b) == Crc(c, a + b)
  {
    hide BytesIn, Not;
    BytesCompose(Not(c), a, b);
    NotNot(BytesIn(Not(c), a));
  }

  lemma NotNot(c: bv32)
    ensures Not(Not(c)) == c
  {
  }

  // ----- what the checksum catches -----

  /** The register's top bit tells what the step found at its low end. */
  predicate TopBit(c: bv32) {
    c >> 31 == 1
  }

  lemma TopBits(c: bv32)
    ensures !TopBit(Half(c)) && TopBit(Xor(Half(c), POLYNOMIAL))
  {
  }

  lemma XorCancels(a: bv32, b: bv32, p: bv32)
    requires Xor(a, p) == Xor(b, p)
    ensures a == b
  {
  }

  lemma OddAndHalf(a: bv32, b: bv32)
    requires Half(a) == Half(b) && (Odd(a) <==> Odd(b))
    ensures a == b
  {
  }

  /** No step forgets anything. */
  lemma ShiftIsInjective(a: bv32, b: bv32)
    requires Shift(a) == Shift(b)
    ensures a == b
  {
    hide Half, Odd, Xor, TopBit;
    TopBits(a);
    TopBits(b);
    if Odd(a) && Odd(b) {
      XorCancels(Half(a), Half(b), POLYNOMIAL);
    }
    OddAndHalf(a, b);
  }

  lemma Shift8IsInjective(a: bv32, b: bv32)
    requires Shift8(a) == Shift8(b)
    ensures a == b
  {
    hide Shift;
    var a1, b1 := Shift(a), Shift(b);
    var a2, b2 := Shift(a1), Shift(b1);
    var a3, b3 := Shift(a2), Shift(b2);
    var a4, b4 := Shift(a3), Shift(b3);
    var a5, b5 := Shift(a4), Shift(b4);
    var a6, b6 := Shift(a5), Shift(b5);
    var a7, b7 := Shift(a6), Shift(b6);
    ShiftIsInjective(a7, b7);
    ShiftIsInjective(a6, b6);
    ShiftIsInjective(a5, b5);
    ShiftIsInjective(a4, b4);
    ShiftIsInjective(a3, b3);
    ShiftIsInjective(a2, b2);
    ShiftIsInjective(a1, b1);
    ShiftIsInjective(a, b);
  }

  lemma ByteKeepsDifference(c: bv32, d: bv32, b: bv32)
    requires b <= 0xff && BitsIn(c, b, 8) == BitsIn(d, b, 8)
    ensures c == d
  {
    hide *;
    ByteAhead(c, b);
    ByteAhead(d, b);
    Shift8IsInjective(Xor(c, b), Xor(d, b));
    XorCancels(c, d, b);
  }

  lemma {:induction false} BytesKeepDifference(c: bv32, d: bv32, data: Bytes)
    requires BytesIn(c, data) == BytesIn(d, data)
    ensures c == d
  {
    hide BitsIn;
    if data != [] {
      var front, last := data[..|data| - 1], data[|data| - 1];
      ByteFits(last);
      ByteKeepsDifference(BytesIn(c, front), BytesIn(d, front), last as bv32);
      BytesKeepDifference(c, d, front);
    }
  }

  lemma WiderDiffers(x: bv8, y: bv8)
    requires x != y
    ensures (x as bv32) != (y as bv32)
  {
  }

  lemma XorDiffers(c: bv32, x: bv32, y: bv32)
    requires Xor(c, x) == Xor(c, y)
    ensures x == y
  {
  }

  lemma OneByteMatters(c: bv32, x: bv8, y: bv8)
    requires x != y
    ensures BitsIn(c, x as bv32, 8) != BitsIn(c, y as bv32, 8)
  {
    hide *;
    ByteFits(x);
    ByteFits(y);
    WiderDiffers(x, y);
    ByteAhead(c, x as bv32);
    ByteAhead(c, y as bv32);
    if Shift8(Xor(c, x as bv32)) == Shift8(Xor(c, y as bv32)) {
      Shift8IsInjective(Xor(c, x as bv32), Xor(c, y as bv32));
      XorDiffers(c, x as bv32, y as bv32);
    }
  }

  /** Any change confined to one byte changes the checksum. */
  lemma ChangedByteIsCaught(c: bv32, before: Bytes, x: bv8, y: bv8, after: Bytes)
    requires x != y
    ensures Crc(c, before + [x] + after) != Crc(c, before + [y] + after)
  {
    hide BitsIn, Not;
    var s := BytesIn(Not(c), before);
    BytesCompose(Not(c), before + [x], after);
    BytesCompose(Not(c), before + [y], after);
    assert (before + [x])[..|before|] == before && (before + [y])[..|before|] == before;
    OneByteMatters(s, x, y);
    if BytesIn(Not(c), before + [x] + after) == BytesIn(Not(c), before + [y] + after) {
      BytesKeepDifference(BytesIn(Not(c), before + [x]), BytesIn(Not(c), before + [y]), after);
    }
    NotNot(BytesIn(Not(c), before + [x] + after));
    NotNot(BytesIn(Not(c), before + [y] + after));
  }
}
