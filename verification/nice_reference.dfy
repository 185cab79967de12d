/// nice.h: the software reference of the four custom-3 operations (the bodies used when the serial
/// link is switched off), which the coprocessor has to reproduce bit for bit.

module NiceReference {
  import opened Words

  // SM4_Sbox[256], one row of the C initialiser per high nibble.
  function SboxRow(r: nat): (s: seq<byte>)
    requires r < 16
    ensures |s| == 16
  {
    match r
    case 0 => [0xd6, 0x90, 0xe9, 0xfe, 0xcc, 0xe1, 0x3d, 0xb7, 0x16, 0xb6, 0x14, 0xc2, 0x28, 0xfb, 0x2c, 0x05]
    case 1 => [0x2b, 0x67, 0x9a, 0x76, 0x2a, 0xbe, 0x04, 0xc3, 0xaa, 0x44, 0x13, 0x26, 0x49, 0x86, 0x06, 0x99]
    case 2 => [0x9c, 0x42, 0x50, 0xf4, 0x91, 0xef, 0x98, 0x7a, 0x33, 0x54, 0x0b, 0x43, 0xed, 0xcf, 0xac, 0x62]
    case 3 => [0xe4, 0xb3, 0x1c, 0xa9, 0xc9, 0x08, 0xe8, 0x95, 0x80, 0xdf, 0x94, 0xfa, 0x75, 0x8f, 0x3f, 0xa6]
    case 4 => [0x47, 0x07, 0xa7, 0xfc, 0xf3, 0x73, 0x17, 0xba, 0x83, 0x59, 0x3c, 0x19, 0xe6, 0x85, 0x4f, 0xa8]
    case 5 => [0x68, 0x6b, 0x81, 0xb2, 0x71, 0x64, 0xda, 0x8b, 0xf8, 0xeb, 0x0f, 0x4b, 0x70, 0x56, 0x9d, 0x35]
    case 6 => [0x1e, 0x24, 0x0e, 0x5e, 0x63, 0x58, 0xd1, 0xa2, 0x25, 0x22, 0x7c, 0x3b, 0x01, 0x21, 0x78, 0x87]
    case 7 => [0xd4, 0x00, 0x46, 0x57, 0x9f, 0xd3, 0x27, 0x52, 0x4c, 0x36, 0x02, 0xe7, 0xa0, 0xc4, 0xc8, 0x9e]
    case 8 => [0xea, 0xbf, 0x8a, 0xd2, 0x40, 0xc7, 0x38, 0xb5, 0xa3, 0xf7, 0xf2, 0xce, 0xf9, 0x61, 0x15, 0xa1]
    case 9 => [0xe0, 0xae, 0x5d, 0xa4, 0x9b, 0x34, 0x1a, 0x55, 0xad, 0x93, 0x32, 0x30, 0xf5, 0x8c, 0xb1, 0xe3]
    case 10 => [0x1d, 0xf6, 0xe2, 0x2e, 0x82, 0x66, 0xca, 0x60, 0xc0, 0x29, 0x23, 0xab, 0x0d, 0x53, 0x4e, 0x6f]
    case 11 => [0xd5, 0xdb, 0x37, 0x45, 0xde, 0xfd, 0x8e, 0x2f, 0x03, 0xff, 0x6a, 0x72, 0x6d, 0x6c, 0x5b, 0x51]
    case 12 => [0x8d, 0x1b, 0xaf, 0x92, 0xbb, 0xdd, 0xbc, 0x7f, 0x11, 0xd9, 0x5c, 0x41, 0x1f, 0x10, 0x5a, 0xd8]
    case 13 => [0x0a, 0xc1, 0x31, 0x88, 0xa5, 0xcd, 0x7b, 0xbd, 0x2d, 0x74, 0xd0, 0x12, 0xb8, 0xe5, 0xb4, 0xb0]
    case 14 => [0x89, 0x69, 0x97, 0x4a, 0x0c, 0x96, 0x77, 0x7e, 0x65, 0xb9, 0xf1, 0x09, 0xc5, 0x6e, 0xc6, 0x84]
    case _ => [0x18, 0xf0, 0x7d, 0xec, 0x3a, 0xdc, 0x4d, 0x20, 0x79, 0xee, 0x5f, 0x3e, 0xd7, 0xcb, 0x39, 0x48]
  }

  // The number a nibble stands for.
  function Nibble(x: byte): (n: nat)
    ensures n < 16
  {
    if x < 8 then
      (if x < 4 then (if x == 0 then 0 else if x == 1 then 1 else if x == 2 then 2 else 3)
       else if x == 4 then 4 else if x == 5 then 5 else if x == 6 then 6 else 7)
    else
      (if x < 12 then (if x == 8 then 8 else if x == 9 then 9 else if x == 10 then 10 else 11)
       else if x == 12 then 12 else if x == 13 then 13 else if x == 14 then 14 else 15)
  }

  // Array indexing SM4_Sbox[x].
  function Sbox(x: byte): byte { SboxRow(Nibble(x >> 4))[Nibble(x & 0xf)] }

  function SM4Nonlinear(a: word): word
  {
    var b := BytesOf(a);
    WordOf([Sbox(b[0]), Sbox(b[1]), Sbox(b[2]), Sbox(b[3])])
  }

  // mode 0 is the key-schedule map L', mode 1 the encryption map L; any other mode answers 1.
  function SM4Linear(b: word, mode: word): word
  {
    if mode == 0 then Xor3(b, Rotl(b, 13), Rotl(b, 23))
    else if mode == 1 then Xor5(b, Rotl(b, 2), Rotl(b, 10), Rotl(b, 18), Rotl(b, 24))
    else 1
  }

  function SM3P0(x: word): word { Xor3(x, Rotl(x, 9), Rotl(x, 17)) }

  function SM3P1(x: word): word { Xor3(x, Rotl(x, 15), Rotl(x, 23)) }

  function SM4Ks(k: word, tk: word): word { Xor(k, SM4Linear(SM4Nonlinear(tk), 0)) }

  function SM4Ed(x: word, tx: word): word { Xor(x, SM4Linear(SM4Nonlinear(tx), 1)) }

  datatype Op = P0 | P1 | Ks | Ed

  // What a call of the operation returns.
  function Reference(op: Op, a: word, b: word): word
  {
    match op
    case P0 => SM3P0(a)
    case P1 => SM3P1(a)
    case Ks => SM4Ks(a, b)
    case Ed => SM4Ed(a, b)
  }
}
