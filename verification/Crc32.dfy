/** The CRC of the update file (bootldsd/bin2fw.c): the packer's table against the
    polynomial division it stands for, section 8 of RFC 1952. */
module Crc32 {
  type octet = bv8

  /** The CRC polynomial, bits reflected. */
  const POLY: bv32 := 0xEDB88320

  const TABLE: seq<bv32> :=
    ((([ 0x00000000, 0x77073096, 0xee0e612c, 0x990951ba, 0x076dc419, 0x706af48f, 0xe963a535, 0x9e6495a3,
      0x0edb8832, 0x79dcb8a4, 0xe0d5e91e, 0x97d2d988, 0x09b64c2b, 0x7eb17cbd, 0xe7b82d07, 0x90bf1d91 ] +
    [ 0x1db71064, 0x6ab020f2, 0xf3b97148, 0x84be41de, 0x1adad47d, 0x6ddde4eb, 0xf4d4b551, 0x83d385c7,
      0x136c9856, 0x646ba8c0, 0xfd62f97a, 0x8a65c9ec, 0x14015c4f, 0x63066cd9, 0xfa0f3d63, 0x8d080df5 ]) +
    ([ 0x3b6e20c8, 0x4c69105e, 0xd56041e4, 0xa2677172, 0x3c03e4d1, 0x4b04d447, 0xd20d85fd, 0xa50ab56b,
      0x35b5a8fa, 0x42b2986c, 0xdbbbc9d6, 0xacbcf940, 0x32d86ce3, 0x45df5c75, 0xdcd60dcf, 0xabd13d59 ] +
    [ 0x26d930ac, 0x51de003a, 0xc8d75180, 0xbfd06116, 0x21b4f4b5, 0x56b3c423, 0xcfba9599, 0xb8bda50f,
      0x2802b89e, 0x5f058808, 0xc60cd9b2, 0xb10be924, 0x2f6f7c87, 0x58684c11, 0xc1611dab, 0xb6662d3d ])) +
    (([ 0x76dc4190, 0x01db7106, 0x98d220bc, 0xefd5102a, 0x71b18589, 0x06b6b51f, 0x9fbfe4a5, 0xe8b8d433,
      0x7807c9a2, 0x0f00f934, 0x9609a88e, 0xe10e9818, 0x7f6a0dbb, 0x086d3d2d, 0x91646c97, 0xe6635c01 ] +
    [ 0x6b6b51f4, 0x1c6c6162, 0x856530d8, 0xf262004e, 0x6c0695ed, 0x1b01a57b, 0x8208f4c1, 0xf50fc457,
      0x65b0d9c6, 0x12b7e950, 0x8bbeb8ea, 0xfcb9887c, 0x62dd1ddf, 0x15da2d49, 0x8cd37cf3, 0xfbd44c65 ]) +
    ([ 0x4db26158, 0x3ab551ce, 0xa3bc0074, 0xd4bb30e2, 0x4adfa541, 0x3dd895d7, 0xa4d1c46d, 0xd3d6f4fb,
      0x4369e96a, 0x346ed9fc, 0xad678846, 0xda60b8d0, 0x44042d73, 0x33031de5, 0xaa0a4c5f, 0xdd0d7cc9 ] +
    [ 0x5005713c, 0x270241aa, 0xbe0b1010, 0xc90c2086, 0x5768b525, 0x206f85b3, 0xb966d409, 0xce61e49f,
      0x5edef90e, 0x29d9c998, 0xb0d09822, 0xc7d7a8b4, 0x59b33d17, 0x2eb40d81, 0xb7bd5c3b, 0xc0ba6cad ]))) +
    ((([ 0xedb88320, 0x9abfb3b6, 0x03b6e20c, 0x74b1d29a, 0xead54739, 0x9dd277af, 0x04db2615, 0x73dc1683,
      0xe3630b12, 0x94643b84, 0x0d6d6a3e, 0x7a6a5aa8, 0xe40ecf0b, 0x9309ff9d, 0x0a00ae27, 0x7d079eb1 ] +
    [ 0xf00f9344, 0x8708a3d2, 0x1e01f268, 0x6906c2fe, 0xf762575d, 0x806567cb, 0x196c3671, 0x6e6b06e7,
      0xfed41b76, 0x89d32be0, 0x10da7a5a, 0x67dd4acc, 0xf9b9df6f, 0x8ebeeff9, 0x17b7be43, 0x60b08ed5 ]) +
    ([ 0xd6d6a3e8, 0xa1d1937e, 0x38d8c2c4, 0x4fdff252, 0xd1bb67f1, 0xa6bc5767, 0x3fb506dd, 0x48b2364b,
      0xd80d2bda, 0xaf0a1b4c, 0x36034af6, 0x41047a60, 0xdf60efc3, 0xa867df55, 0x316e8eef, 0x4669be79 ] +
    [ 0xcb61b38c, 0xbc66831a, 0x256fd2a0, 0x5268e236, 0xcc0c7795, 0xbb0b4703, 0x220216b9, 0x5505262f,
      0xc5ba3bbe, 0xb2bd0b28, 0x2bb45a92, 0x5cb36a04, 0xc2d7ffa7, 0xb5d0cf31, 0x2cd99e8b, 0x5bdeae1d ])) +
    (([ 0x9b64c2b0, 0xec63f226, 0x756aa39c, 0x026d930a, 0x9c0906a9, 0xeb0e363f, 0x72076785, 0x05005713,
      0x95bf4a82, 0xe2b87a14, 0x7bb12bae, 0x0cb61b38, 0x92d28e9b, 0xe5d5be0d, 0x7cdcefb7, 0x0bdbdf21 ] +
    [ 0x86d3d2d4, 0xf1d4e242, 0x68ddb3f8, 0x1fda836e, 0x81be16cd, 0xf6b9265b, 0x6fb077e1, 0x18b74777,
      0x88085ae6, 0xff0f6a70, 0x66063bca, 0x11010b5c, 0x8f659eff, 0xf862ae69, 0x616bffd3, 0x166ccf45 ]) +
    ([ 0xa00ae278, 0xd70dd2ee, 0x4e048354, 0x3903b3c2, 0xa7672661, 0xd06016f7, 0x4969474d, 0x3e6e77db,
      0xaed16a4a, 0xd9d65adc, 0x40df0b66, 0x37d83bf0, 0xa9bcae53, 0xdebb9ec5, 0x47b2cf7f, 0x30b5ffe9 ] +
    [ 0xbdbdf21c, 0xcabac28a, 0x53b39330, 0x24b4a3a6, 0xbad03605, 0xcdd70693, 0x54de5729, 0x23d967bf,
      0xb3667a2e, 0xc4614ab8, 0x5d681b02, 0x2a6f2b94, 0xb40bbe37, 0xc30c8ea1, 0x5a05df1b, 0x2d02ef8d ])))

  function Xor(x: bv32, y: bv32): bv32 {
    x ^ y
  }

  function Shift(x: bv32): bv32 {
    x >> 1
  }

  function Shift8(x: bv32): bv32 {
    x >> 8
  }

  function Low(x: bv32): (r: bv32)
    ensures r <= 0xff
  {
    x & 0xff
  }

  function High(x: bv32): bv32 {
    x & 0xffff_ff00
  }

  predicate Odd(x: bv32) {
    x & 1 == 1
  }

  /** Division of one bit. */
  function BitStep(x: bv32): bv32 {
    if x & 1 == 1 then (x >> 1) ^ POLY else x >> 1
  }

  function Step8(x: bv32): bv32 {
    BitStep(BitStep(BitStep(BitStep(BitStep(BitStep(BitStep(BitStep(x))))))))
  }

  /** The register after one octet, bit by bit. */
  function OctetStep(crc: bv32, b: octet): bv32 {
    Step8(Xor(crc, b as bv32))
  }

  /** The register after a string of octets. */
  function Crc(crc: bv32, data: seq<octet>): bv32 {
    if data == [] then crc else OctetStep(Crc(crc, data[..|data| - 1]), data[|data| - 1])
  }

  // ----- the table -----

  lemma TableSize()
    ensures |TABLE| == 256
  {
  }

  lemma Entries00(x: bv32)
    requires 0x00 <= x <= 0x07
    ensures |TABLE| == 256 && TABLE[x as int] == Step8(x)
  {
    if x == 0x00 { } else if x == 0x01 { } else if x == 0x02 { } else if x == 0x03 {
    } else if x == 0x04 { } else if x == 0x05 { } else if x == 0x06 { } else { assert x == 0x07; }
  }

  lemma Entries08(x: bv32)
    requires 0x08 <= x <= 0x0f
    ensures |TABLE| == 256 && TABLE[x as int] == Step8(x)
  {
    if x == 0x08 { } else if x == 0x09 { } else if x == 0x0a { } else if x == 0x0b {
    } else if x == 0x0c { } else if x == 0x0d { } else if x == 0x0e { } else { assert x == 0x0f; }
  }

  lemma Entries10(x: bv32)
    requires 0x10 <= x <= 0x17
    ensures |TABLE| == 256 && TABLE[x as int] == Step8(x)
  {
    if x == 0x10 { } else if x == 0x11 { } else if x == 0x12 { } else if x == 0x13 {
    } else if x == 0x14 { } else if x == 0x15 { } else if x == 0x16 { } else { assert x == 0x17; }
  }

  lemma Entries18(x: bv32)
    requires 0x18 <= x <= 0x1f
    ensures |TABLE| == 256 && TABLE[x as int] == Step8(x)
  {
    if x == 0x18 { } else if x == 0x19 { } else if x == 0x1a { } else if x == 0x1b {
    } else if x == 0x1c { } else if x == 0x1d { } else if x == 0x1e { } else { assert x == 0x1f; }
  }

  lemma Entries20(x: bv32)
    requires 0x20 <= x <= 0x27
    ensures |TABLE| == 256 && TABLE[x as int] == Step8(x)
  {
    if x == 0x20 { } else if x == 0x21 { } else if x == 0x22 { } else if x == 0x23 {
    } else if x == 0x24 { } else if x == 0x25 { } else if x == 0x26 { } else { assert x == 0x27; }
  }

  lemma Entries28(x: bv32)
    requires 0x28 <= x <= 0x2f
    ensures |TABLE| == 256 && TABLE[x as int] == Step8(x)
  {
    if x == 0x28 { } else if x == 0x29 { } else if x == 0x2a { } else if x == 0x2b {
    } else if x == 0x2c { } else if x == 0x2d { } else if x == 0x2e { } else { assert x == 0x2f; }
  }

  lemma Entries30(x: bv32)
    requires 0x30 <= x <= 0x37
    ensures |TABLE| == 256 && TABLE[x as int] == Step8(x)
  {
    if x == 0x30 { } else if x == 0x31 { } else if x == 0x32 { } else if x == 0x33 {
    } else if x == 0x34 { } else if x == 0x35 { } else if x == 0x36 { } else { assert x == 0x37; }
  }

  lemma Entries38(x: bv32)
    requires 0x38 <= x <= 0x3f
    ensures |TABLE| == 256 && TABLE[x as int] == Step8(x)
  {
    if x == 0x38 { } else if x == 0x39 { } else if x == 0x3a { } else if x == 0x3b {
    } else if x == 0x3c { } else if x == 0x3d { } else if x == 0x3e { } else { assert x == 0x3f; }
  }

  lemma Entries40(x: bv32)
    requires 0x40 <= x <= 0x47
    ensures |TABLE| == 256 && TABLE[x as int] == Step8(x)
  {
    if x == 0x40 { } else if x == 0x41 { } else if x == 0x42 { } else if x == 0x43 {
    } else if x == 0x44 { } else if x == 0x45 { } else if x == 0x46 { } else { assert x == 0x47; }
  }

  lemma Entries48(x: bv32)
    requires 0x48 <= x <= 0x4f
    ensures |TABLE| == 256 && TABLE[x as int] == Step8(x)
  {
    if x == 0x48 { } else if x == 0x49 { } else if x == 0x4a { } else if x == 0x4b {
    } else if x == 0x4c { } else if x == 0x4d { } else if x == 0x4e { } else { assert x == 0x4f; }
  }

  lemma Entries50(x: bv32)
    requires 0x50 <= x <= 0x57
    ensures |TABLE| == 256 && TABLE[x as int] == Step8(x)
  {
    if x == 0x50 { } else if x == 0x51 { } else if x == 0x52 { } else if x == 0x53 {
    } else if x == 0x54 { } else if x == 0x55 { } else if x == 0x56 { } else { assert x == 0x57; }
  }

  lemma Entries58(x: bv32)
    requires 0x58 <= x <= 0x5f
    ensures |TABLE| == 256 && TABLE[x as int] == Step8(x)
  {
    if x == 0x58 { } else if x == 0x59 { } else if x == 0x5a { } else if x == 0x5b {
    } else if x == 0x5c { } else if x == 0x5d { } else if x == 0x5e { } else { assert x == 0x5f; }
  }

  lemma Entries60(x: bv32)
    requires 0x60 <= x <= 0x67
    ensures |TABLE| == 256 && TABLE[x as int] == Step8(x)
  {
    if x == 0x60 { } else if x == 0x61 { } else if x == 0x62 { } else if x == 0x63 {
    } else if x == 0x64 { } else if x == 0x65 { } else if x == 0x66 { } else { assert x == 0x67; }
  }

  lemma Entries68(x: bv32)
    requires 0x68 <= x <= 0x6f
    ensures |TABLE| == 256 && TABLE[x as int] == Step8(x)
  {
    if x == 0x68 { } else if x == 0x69 { } else if x == 0x6a { } else if x == 0x6b {
    } else if x == 0x6c { } else if x == 0x6d { } else if x == 0x6e { } else { assert x == 0x6f; }
  }

  lemma Entries70(x: bv32)
    requires 0x70 <= x <= 0x77
    ensures |TABLE| == 256 && TABLE[x as int] == Step8(x)
  {
    if x == 0x70 { } else if x == 0x71 { } else if x == 0x72 { } else if x == 0x73 {
    } else if x == 0x74 { } else if x == 0x75 { } else if x == 0x76 { } else { assert x == 0x77; }
  }

  lemma Entries78(x: bv32)
    requires 0x78 <= x <= 0x7f
    ensures |TABLE| == 256 && TABLE[x as int] == Step8(x)
  {
    if x == 0x78 { } else if x == 0x79 { } else if x == 0x7a { } else if x == 0x7b {
    } else if x == 0x7c { } else if x == 0x7d { } else if x == 0x7e { } else { assert x == 0x7f; }
  }

  lemma Entries80(x: bv32)
    requires 0x80 <= x <= 0x87
    ensures |TABLE| == 256 && TABLE[x as int] == Step8(x)
  {
    if x == 0x80 { } else if x == 0x81 { } else if x == 0x82 { } else if x == 0x83 {
    } else if x == 0x84 { } else if x == 0x85 { } else if x == 0x86 { } else { assert x == 0x87; }
  }

  lemma Entries88(x: bv32)
    requires 0x88 <= x <= 0x8f
    ensures |TABLE| == 256 && TABLE[x as int] == Step8(x)
  {
    if x == 0x88 { } else if x == 0x89 { } else if x == 0x8a { } else if x == 0x8b {
    } else if x == 0x8c { } else if x == 0x8d { } else if x == 0x8e { } else { assert x == 0x8f; }
  }

  lemma Entries90(x: bv32)
    requires 0x90 <= x <= 0x97
    ensures |TABLE| == 256 && TABLE[x as int] == Step8(x)
  {
    if x == 0x90 { } else if x == 0x91 { } else if x == 0x92 { } else if x == 0x93 {
    } else if x == 0x94 { } else if x == 0x95 { } else if x == 0x96 { } else { assert x == 0x97; }
  }

  lemma Entries98(x: bv32)
    requires 0x98 <= x <= 0x9f
    ensures |TABLE| == 256 && TABLE[x as int] == Step8(x)
  {
    if x == 0x98 { } else if x == 0x99 { } else if x == 0x9a { } else if x == 0x9b {
    } else if x == 0x9c { } else if x == 0x9d { } else if x == 0x9e { } else { assert x == 0x9f; }
  }

  lemma EntriesA0(x: bv32)
    requires 0xa0 <= x <= 0xa7
    ensures |TABLE| == 256 && TABLE[x as int] == Step8(x)
  {
    if x == 0xa0 { } else if x == 0xa1 { } else if x == 0xa2 { } else if x == 0xa3 {
    } else if x == 0xa4 { } else if x == 0xa5 { } else if x == 0xa6 { } else { assert x == 0xa7; }
  }

  lemma EntriesA8(x: bv32)
    requires 0xa8 <= x <= 0xaf
    ensures |TABLE| == 256 && TABLE[x as int] == Step8(x)
  {
    if x == 0xa8 { } else if x == 0xa9 { } else if x == 0xaa { } else if x == 0xab {
    } else if x == 0xac { } else if x == 0xad { } else if x == 0xae { } else { assert x == 0xaf; }
  }

  lemma EntriesB0(x: bv32)
    requires 0xb0 <= x <= 0xb7
    ensures |TABLE| == 256 && TABLE[x as int] == Step8(x)
  {
    if x == 0xb0 { } else if x == 0xb1 { } else if x == 0xb2 { } else if x == 0xb3 {
    } else if x == 0xb4 { } else if x == 0xb5 { } else if x == 0xb6 { } else { assert x == 0xb7; }
  }

  lemma EntriesB8(x: bv32)
    requires 0xb8 <= x <= 0xbf
    ensures |TABLE| == 256 && TABLE[x as int] == Step8(x)
  {
    if x == 0xb8 { } else if x == 0xb9 { } else if x == 0xba { } else if x == 0xbb {
    } else if x == 0xbc { } else if x == 0xbd { } else if x == 0xbe { } else { assert x == 0xbf; }
  }

  lemma EntriesC0(x: bv32)
    requires 0xc0 <= x <= 0xc7
    ensures |TABLE| == 256 && TABLE[x as int] == Step8(x)
  {
    if x == 0xc0 { } else if x == 0xc1 { } else if x == 0xc2 { } else if x == 0xc3 {
    } else if x == 0xc4 { } else if x == 0xc5 { } else if x == 0xc6 { } else { assert x == 0xc7; }
  }

  lemma EntriesC8(x: bv32)
    requires 0xc8 <= x <= 0xcf
    ensures |TABLE| == 256 && TABLE[x as int] == Step8(x)
  {
    if x == 0xc8 { } else if x == 0xc9 { } else if x == 0xca { } else if x == 0xcb {
    } else if x == 0xcc { } else if x == 0xcd { } else if x == 0xce { } else { assert x == 0xcf; }
  }

  lemma EntriesD0(x: bv32)
    requires 0xd0 <= x <= 0xd7
    ensures |TABLE| == 256 && TABLE[x as int] == Step8(x)
  {
    if x == 0xd0 { } else if x == 0xd1 { } else if x == 0xd2 { } else if x == 0xd3 {
    } else if x == 0xd4 { } else if x == 0xd5 { } else if x == 0xd6 { } else { assert x == 0xd7; }
  }

  lemma EntriesD8(x: bv32)
    requires 0xd8 <= x <= 0xdf
    ensures |TABLE| == 256 && TABLE[x as int] == Step8(x)
  {
    if x == 0xd8 { } else if x == 0xd9 { } else if x == 0xda { } else if x == 0xdb {
    } else if x == 0xdc { } else if x == 0xdd { } else if x == 0xde { } else { assert x == 0xdf; }
  }

  lemma EntriesE0(x: bv32)
    requires 0xe0 <= x <= 0xe7
    ensures |TABLE| == 256 && TABLE[x as int] == Step8(x)
  {
    if x == 0xe0 { } else if x == 0xe1 { } else if x == 0xe2 { } else if x == 0xe3 {
    } else if x == 0xe4 { } else if x == 0xe5 { } else if x == 0xe6 { } else { assert x == 0xe7; }
  }

  lemma EntriesE8(x: bv32)
    requires 0xe8 <= x <= 0xef
    ensures |TABLE| == 256 && TABLE[x as int] == Step8(x)
  {
    if x == 0xe8 { } else if x == 0xe9 { } else if x == 0xea { } else if x == 0xeb {
    } else if x == 0xec { } else if x == 0xed { } else if x == 0xee { } else { assert x == 0xef; }
  }

  lemma EntriesF0(x: bv32)
    requires 0xf0 <= x <= 0xf7
    ensures |TABLE| == 256 && TABLE[x as int] == Step8(x)
  {
    if x == 0xf0 { } else if x == 0xf1 { } else if x == 0xf2 { } else if x == 0xf3 {
    } else if x == 0xf4 { } else if x == 0xf5 { } else if x == 0xf6 { } else { assert x == 0xf7; }
  }

  lemma EntriesF8(x: bv32)
    requires 0xf8 <= x <= 0xff
    ensures |TABLE| == 256 && TABLE[x as int] == Step8(x)
  {
    if x == 0xf8 { } else if x == 0xf9 { } else if x == 0xfa { } else if x == 0xfb {
    } else if x == 0xfc { } else if x == 0xfd { } else if x == 0xfe { } else { assert x == 0xff; }
  }

  lemma TableEntry(x: bv32)
    requires x <= 0xff
    ensures |TABLE| == 256 && TABLE[x as int] == Step8(x)
  {
    hide Step8;
    if x <= 0x07 { Entries00(x); } else if x <= 0x0f { Entries08(x); } else
    if x <= 0x17 { Entries10(x); } else if x <= 0x1f { Entries18(x); } else
    if x <= 0x27 { Entries20(x); } else if x <= 0x2f { Entries28(x); } else
    if x <= 0x37 { Entries30(x); } else if x <= 0x3f { Entries38(x); } else
    if x <= 0x47 { Entries40(x); } else if x <= 0x4f { Entries48(x); } else
    if x <= 0x57 { Entries50(x); } else if x <= 0x5f { Entries58(x); } else
    if x <= 0x67 { Entries60(x); } else if x <= 0x6f { Entries68(x); } else
    if x <= 0x77 { Entries70(x); } else if x <= 0x7f { Entries78(x); } else
    if x <= 0x87 { Entries80(x); } else if x <= 0x8f { Entries88(x); } else
    if x <= 0x97 { Entries90(x); } else if x <= 0x9f { Entries98(x); } else
    if x <= 0xa7 { EntriesA0(x); } else if x <= 0xaf { EntriesA8(x); } else
    if x <= 0xb7 { EntriesB0(x); } else if x <= 0xbf { EntriesB8(x); } else
    if x <= 0xc7 { EntriesC0(x); } else if x <= 0xcf { EntriesC8(x); } else
    if x <= 0xd7 { EntriesD0(x); } else if x <= 0xdf { EntriesD8(x); } else
    if x <= 0xe7 { EntriesE0(x); } else if x <= 0xef { EntriesE8(x); } else
    if x <= 0xf7 { EntriesF0(x); } else { EntriesF8(x); }
  }

  lemma XorShift(x: bv32, y: bv32)
    ensures Shift(Xor(x, y)) == Xor(Shift(x), Shift(y))
  {
  }

  lemma XorOdd(x: bv32, y: bv32)
    ensures Odd(Xor(x, y)) == (Odd(x) != Odd(y))
  {
  }

  lemma XorAssociates(x: bv32, y: bv32, p: bv32)
    ensures Xor(x, Xor(y, p)) == Xor(Xor(x, y), p)
  {
  }

  lemma XorCommutes(x: bv32, y: bv32)
    ensures Xor(x, y) == Xor(y, x)
  {
  }

  lemma XorSelf(x: bv32)
    ensures Xor(x, x) == 0 && Xor(x, 0) == x
  {
  }

  lemma XorSwap(x: bv32, y: bv32, p: bv32)
    ensures Xor(Xor(x, p), y) == Xor(Xor(x, y), p)
  {
    hide Xor;
    XorAssociates(x, p, y);
    XorAssociates(x, y, p);
    XorCommutes(p, y);
  }

  lemma XorTwice(x: bv32, p: bv32)
    ensures Xor(Xor(x, p), p) == x
  {
    hide Xor;
    XorAssociates(x, p, p);
    XorSelf(p);
    XorSelf(x);
  }

  lemma BitStepForm(x: bv32)
    ensures BitStep(x) == if Odd(x) then Xor(Shift(x), POLY) else Shift(x)
  {
  }

  lemma BitStepLinear(x: bv32, y: bv32)
    ensures BitStep(Xor(x, y)) == Xor(BitStep(x), BitStep(y))
  {
    BitStepForm(x);
    BitStepForm(y);
    BitStepForm(Xor(x, y));
    hide Xor, Shift, Odd, BitStep;
    var a, b := Shift(x), Shift(y);
    XorShift(x, y);
    XorOdd(x, y);
    XorSwap(a, b, POLY);
    XorAssociates(a, b, POLY);
    XorAssociates(Xor(a, POLY), b, POLY);
    XorTwice(Xor(a, b), POLY);
  }

  lemma Step8Linear(x: bv32, y: bv32)
    ensures Step8(Xor(x, y)) == Xor(Step8(x), Step8(y))
  {
    hide BitStep, Xor;
    var x1, y1 := BitStep(x), BitStep(y);
    var x2, y2 := BitStep(x1), BitStep(y1);
    var x3, y3 := BitStep(x2), BitStep(y2);
    var x4, y4 := BitStep(x3), BitStep(y3);
    var x5, y5 := BitStep(x4), BitStep(y4);
    var x6, y6 := BitStep(x5), BitStep(y5);
    var x7, y7 := BitStep(x6), BitStep(y6);
    BitStepLinear(x, y);
    BitStepLinear(x1, y1);
    BitStepLinear(x2, y2);
    BitStepLinear(x3, y3);
    BitStepLinear(x4, y4);
    BitStepLinear(x5, y5);
    BitStepLinear(x6, y6);
    BitStepLinear(x7, y7);
  }

  /** Eight steps only shift a word whose low octet is clear. */
  lemma Step8High(x: bv32)
    ensures Step8(High(x)) == Shift8(x)
  {
  }

  lemma SplitLow(x: bv32)
    ensures Xor(Low(x), High(x)) == x
  {
  }

  lemma HighUnchanged(crc: bv32, b: octet)
    ensures Shift8(Xor(crc, b as bv32)) == Shift8(crc)
  {
  }

  lemma Step8Sum(x: bv32, lo: bv32, hi: bv32, shifted: bv32)
    requires Xor(lo, hi) == x && Step8(hi) == shifted
    ensures Step8(x) == Xor(Step8(lo), shifted)
  {
    hide Step8, Xor, Low, High, Shift8;
    Step8Linear(lo, hi);
  }

  /** The low octet of the register is looked up, the rest is shifted. */
  lemma Step8Split(x: bv32)
    ensures Step8(x) == Xor(Step8(Low(x)), Shift8(x))
  {
    hide Step8, Xor, Low, High, Shift8;
    SplitLow(x);
    Step8High(x);
    Step8Sum(x, Low(x), High(x), Shift8(x));
  }

  function Lookup(x: bv32): bv32
    requires x <= 0xff
  {
    TableSize();
    TABLE[x as int]
  }

  /** The macro UPDC32. */
  function Update(b: octet, crc: bv32): bv32 {
    Xor(Lookup(Low(Xor(crc, b as bv32))), Shift8(crc))
  }

  /** One look-up and one shift do the work of eight bit steps. */
  lemma TableStep(crc: bv32, b: octet)
    ensures Update(b, crc) == OctetStep(crc, b)
  {
    hide Step8, Xor, Low, High, Shift8;
    var x := Xor(crc, b as bv32);
    TableEntry(Low(x));
    Step8Split(x);
    HighUnchanged(crc, b);
  }

  /** crc32buf. */
  method Crc32Buf(oldCrc: bv32, buf: seq<octet>) returns (crc: bv32)
    ensures crc == Crc(oldCrc, buf)
  {
    hide OctetStep, Update;
    crc := oldCrc;
    for i := 0 to |buf|
      invariant crc == Crc(oldCrc, buf[..i])
    {
      TableStep(crc, buf[i]);
      assert buf[..i + 1][..i] == buf[..i];
      crc := Update(buf[i], crc);
    }
    assert buf[..|buf|] == buf;
  }

  // ----- consecutive chunks -----

  /** Feeding two chunks one after the other is feeding their concatenation. */
  lemma {:induction false} CrcChunks(crc: bv32, a: seq<octet>, b: seq<octet>)
    ensures Crc(Crc(crc, a), b) == Crc(crc, a + b)
    decreases |b|
  {
    if b == [] {
      assert a + b == a;
    } else {
      assert (a + b)[..|a + b| - 1] == a + b[..|b| - 1];
      CrcChunks(crc, a, b[..|b| - 1]);
    }
  }

  // ----- damage is noticed -----

  /** The step backwards: POLY has its top bit set, a shifted word has not. */
  function BitUnstep(y: bv32): bv32 {
    if y & 0x8000_0000 != 0 then ((y ^ POLY) << 1) | 1 else y << 1
  }

  lemma BitStepInvertible(x: bv32)
    ensures BitUnstep(BitStep(x)) == x
  {
  }

  lemma BitStepInjective(x: bv32, y: bv32)
    ensures BitStep(x) == BitStep(y) ==> x == y
  {
    BitStepInvertible(x);
    BitStepInvertible(y);
  }

  lemma Step8Injective(x: bv32, y: bv32)
    requires Step8(x) == Step8(y)
    ensures x == y
  {
    hide BitStep;
    var x1, y1 := BitStep(x), BitStep(y);
    var x2, y2 := BitStep(x1), BitStep(y1);
    var x3, y3 := BitStep(x2), BitStep(y2);
    var x4, y4 := BitStep(x3), BitStep(y3);
    var x5, y5 := BitStep(x4), BitStep(y4);
    var x6, y6 := BitStep(x5), BitStep(y5);
    var x7, y7 := BitStep(x6), BitStep(y6);
    BitStepInjective(x7, y7);
    BitStepInjective(x6, y6);
    BitStepInjective(x5, y5);
    BitStepInjective(x4, y4);
    BitStepInjective(x3, y3);
    BitStepInjective(x2, y2);
    BitStepInjective(x1, y1);
    BitStepInjective(x, y);
  }

  lemma StepKeepsDifference(c: bv32, d: bv32, b: octet)
    requires c != d
    ensures OctetStep(c, b) != OctetStep(d, b)
  {
    assert Xor(c, b as bv32) != Xor(d, b as bv32);
    hide Step8;
    if OctetStep(c, b) == OctetStep(d, b) {
      Step8Injective(Xor(c, b as bv32), Xor(d, b as bv32));
    }
  }

  lemma StepTellsOctets(c: bv32, a: octet, b: octet)
    requires a != b
    ensures OctetStep(c, a) != OctetStep(c, b)
  {
    assert Xor(c, a as bv32) != Xor(c, b as bv32);
    hide Step8;
    if OctetStep(c, a) == OctetStep(c, b) {
      Step8Injective(Xor(c, a as bv32), Xor(c, b as bv32));
    }
  }

  /** Different registers stay different under equal data. */
  lemma {:induction false} CrcKeepsDifference(c: bv32, d: bv32, data: seq<octet>)
    requires c != d
    ensures Crc(c, data) != Crc(d, data)
    decreases |data|
  {
    hide OctetStep;
    if data != [] {
      var init := data[..|data| - 1];
      CrcKeepsDifference(c, d, init);
      StepKeepsDifference(Crc(c, init), Crc(d, init), data[|data| - 1]);
    }
  }

  /** A single damaged octet, anywhere, changes the checksum. */
  lemma DamageChangesCrc(crc: bv32, data: seq<octet>, i: nat, x: octet)
    requires i < |data| && x != data[i]
    ensures Crc(crc, data[i := x]) != Crc(crc, data)
  {
    hide OctetStep;
    var a, rest, bad := data[..i], data[i + 1..], data[i := x];
    assert data == (a + [data[i]]) + rest && bad == (a + [x]) + rest;
    CrcChunks(crc, a + [data[i]], rest);
    CrcChunks(crc, a + [x], rest);
    assert (a + [x])[..i] == a && (a + [data[i]])[..i] == a;
    StepTellsOctets(Crc(crc, a), x, data[i]);
    CrcKeepsDifference(Crc(crc, a + [x]), Crc(crc, a + [data[i]]), rest);
  }
}
