/** The container UPDATE.FW: the packer (bootldsd/bin2fw.c) and the loader's check
    of it (update_check, checkFileCrc in bootld/src/main.c). */
module UpdateFile {
  import opened Words
  import opened Crc32

  const MAGIC: u32 := 0x4E46_4E4D
  const PLATFORM_ESP32S3 := 0
  const HEAD_SIZE := 16
  const CHUNK := 4096

  /** UPDATEHEAD, packed, little-endian. */
  datatype Head = Head(magic: u32, size: u32, checksum: u32, platform: u16, version: u16)

  function Compose(b0: bool, b1: bool, b2: bool, b3: bool, b4: bool, b5: bool, b6: bool, b7: bool): octet {
    (if b0 then 1 else 0) | (if b1 then 2 else 0) | (if b2 then 4 else 0) | (if b3 then 8 else 0) |
    (if b4 then 16 else 0) | (if b5 then 32 else 0) | (if b6 then 64 else 0) | (if b7 then 128 else 0)
  }

  function Weigh(b0: bool, b1: bool, b2: bool, b3: bool, b4: bool, b5: bool, b6: bool, b7: bool): (v: int)
    ensures 0 <= v < 0x100
  {
    (if b0 then 1 else 0) + (if b1 then 2 else 0) + (if b2 then 4 else 0) + (if b3 then 8 else 0) +
    (if b4 then 16 else 0) + (if b5 then 32 else 0) + (if b6 then 64 else 0) + (if b7 then 128 else 0)
  }

  predicate Odd(x: int) {
    x % 2 == 1
  }

  /** The octet with the binary digits of a number, and the number back. */
  function Octet(x: int): octet {
    var x1 := x / 2;
    var x2 := x1 / 2;
    var x3 := x2 / 2;
    var x4 := x3 / 2;
    var x5 := x4 / 2;
    var x6 := x5 / 2;
    Compose(Odd(x), Odd(x1), Odd(x2), Odd(x3), Odd(x4), Odd(x5), Odd(x6), Odd(x6 / 2))
  }

  function Value(o: octet): (v: int)
    ensures 0 <= v < 0x100
  {
    Weigh(o & 1 != 0, o & 2 != 0, o & 4 != 0, o & 8 != 0, o & 16 != 0, o & 32 != 0, o & 64 != 0, o & 128 != 0)
  }

  lemma BitsBack(b0: bool, b1: bool, b2: bool, b3: bool, b4: bool, b5: bool, b6: bool, b7: bool)
    ensures var o := Compose(b0, b1, b2, b3, b4, b5, b6, b7);
            && (o & 1 != 0) == b0 && (o & 2 != 0) == b1 && (o & 4 != 0) == b2 && (o & 8 != 0) == b3
            && (o & 16 != 0) == b4 && (o & 32 != 0) == b5 && (o & 64 != 0) == b6 && (o & 128 != 0) == b7
  {
  }

  lemma Halve(x: int) returns (half: int)
    requires x >= 0
    ensures half == x / 2 >= 0 && x == 2 * half + if Odd(x) then 1 else 0
  {
    half := x / 2;
  }

  lemma EightDigits(x: nat, x1: nat, x2: nat, x3: nat, x4: nat, x5: nat, x6: nat, x7: nat, x8: nat,
                    b0: bool, b1: bool, b2: bool, b3: bool, b4: bool, b5: bool, b6: bool, b7: bool)
    requires x < 0x100 && x == 2 * x1 + (if b0 then 1 else 0) && x1 == 2 * x2 + (if b1 then 1 else 0)
    requires x2 == 2 * x3 + (if b2 then 1 else 0) && x3 == 2 * x4 + (if b3 then 1 else 0)
    requires x4 == 2 * x5 + (if b4 then 1 else 0) && x5 == 2 * x6 + (if b5 then 1 else 0)
    requires x6 == 2 * x7 + (if b6 then 1 else 0) && x7 == 2 * x8 + (if b7 then 1 else 0)
    ensures Weigh(b0, b1, b2, b3, b4, b5, b6, b7) == x
  {
  }

  lemma OctetValue(x: int)
    requires 0 <= x < 0x100
    ensures Value(Octet(x)) == x
  {
    hide Compose, Odd, Weigh;
    var x1 := Halve(x);
    var x2 := Halve(x1);
    var x3 := Halve(x2);
    var x4 := Halve(x3);
    var x5 := Halve(x4);
    var x6 := Halve(x5);
    var x7 := Halve(x6);
    var x8 := Halve(x7);
    BitsBack(Odd(x), Odd(x1), Odd(x2), Odd(x3), Odd(x4), Odd(x5), Odd(x6), Odd(x7));
    EightDigits(x, x1, x2, x3, x4, x5, x6, x7, x8,
                Odd(x), Odd(x1), Odd(x2), Odd(x3), Odd(x4), Odd(x5), Odd(x6), Odd(x7));
  }

  function Le16(v: u16): (s: seq<octet>)
    ensures |s| == 2
  {
    [Octet(v % 0x100), Octet(v / 0x100)]
  }

  function Num16(s: seq<octet>): u16
    requires |s| == 2
  {
    Value(s[0]) + 0x100 * Value(s[1])
  }

  function Le32(v: u32): (s: seq<octet>)
    ensures |s| == 4
  {
    Le16(v % 0x1_0000) + Le16(v / 0x1_0000)
  }

  function Num32(s: seq<octet>): u32
    requires |s| == 4
  {
    Num16(s[..2]) as int + 0x1_0000 * Num16(s[2..]) as int
  }

  lemma Le16RoundTrip(v: u16)
    ensures Num16(Le16(v)) == v
  {
    hide Octet, Value;
    OctetValue(v % 0x100);
    OctetValue(v / 0x100);
  }

  lemma Le32RoundTrip(v: u32)
    ensures Num32(Le32(v)) == v
  {
    hide Le16, Num16;
    Le16RoundTrip(v % 0x1_0000);
    Le16RoundTrip(v / 0x1_0000);
    assert Le32(v)[..2] == Le16(v % 0x1_0000) && Le32(v)[2..] == Le16(v / 0x1_0000);
  }

  lemma SameWeight(a0: bool, a1: bool, a2: bool, a3: bool, a4: bool, a5: bool, a6: bool, a7: bool,
                   b0: bool, b1: bool, b2: bool, b3: bool, b4: bool, b5: bool, b6: bool, b7: bool)
    requires Weigh(a0, a1, a2, a3, a4, a5, a6, a7) == Weigh(b0, b1, b2, b3, b4, b5, b6, b7)
    ensures a0 == b0 && a1 == b1 && a2 == b2 && a3 == b3 && a4 == b4 && a5 == b5 && a6 == b6 && a7 == b7
  {
  }

  lemma SameBits(a: octet, b: octet)
    requires (a & 1 != 0) == (b & 1 != 0) && (a & 2 != 0) == (b & 2 != 0)
    requires (a & 4 != 0) == (b & 4 != 0) && (a & 8 != 0) == (b & 8 != 0)
    requires (a & 16 != 0) == (b & 16 != 0) && (a & 32 != 0) == (b & 32 != 0)
    requires (a & 64 != 0) == (b & 64 != 0) && (a & 128 != 0) == (b & 128 != 0)
    ensures a == b
  {
  }

  lemma OctetsByValue(a: octet, b: octet)
    requires Value(a) == Value(b)
    ensures a == b
  {
    hide Weigh;
    SameWeight(a & 1 != 0, a & 2 != 0, a & 4 != 0, a & 8 != 0, a & 16 != 0, a & 32 != 0, a & 64 != 0, a & 128 != 0,
               b & 1 != 0, b & 2 != 0, b & 4 != 0, b & 8 != 0, b & 16 != 0, b & 32 != 0, b & 64 != 0, b & 128 != 0);
    SameBits(a, b);
  }

  lemma Digits16(a: int, b: int, c: int, d: int)
    requires 0 <= a < 0x100 && 0 <= c < 0x100 && a + 0x100 * b == c + 0x100 * d
    ensures a == c && b == d
  {
  }

  lemma Digits32(a: int, b: int, c: int, d: int)
    requires 0 <= a < 0x1_0000 && 0 <= c < 0x1_0000 && a + 0x1_0000 * b == c + 0x1_0000 * d
    ensures a == c && b == d
  {
  }

  /** The number determines its octets. */
  lemma Num16Injective(a: seq<octet>, b: seq<octet>)
    requires |a| == |b| == 2 && Num16(a) == Num16(b)
    ensures a == b
  {
    hide Value;
    Digits16(Value(a[0]), Value(a[1]), Value(b[0]), Value(b[1]));
    OctetsByValue(a[0], b[0]);
    OctetsByValue(a[1], b[1]);
  }

  lemma Num32Injective(a: seq<octet>, b: seq<octet>)
    requires |a| == |b| == 4 && Num32(a) == Num32(b)
    ensures a == b
  {
    hide Num16;
    Digits32(Num16(a[..2]), Num16(a[2..]), Num16(b[..2]), Num16(b[2..]));
    Num16Injective(a[..2], b[..2]);
    Num16Injective(a[2..], b[2..]);
    assert a == a[..2] + a[2..] && b == b[..2] + b[2..];
  }

  function HeadBytes(h: Head): (s: seq<octet>)
    ensures |s| == HEAD_SIZE
  {
    Le32(h.magic) + Le32(h.size) + Le32(h.checksum) + Le16(h.platform) + Le16(h.version)
  }

  function ParseHead(s: seq<octet>): Head
    requires |s| >= HEAD_SIZE
  {
    Head(Num32(s[0..4]), Num32(s[4..8]), Num32(s[8..12]), Num16(s[12..14]), Num16(s[14..16]))
  }

  lemma FiveParts(a: seq<octet>, b: seq<octet>, c: seq<octet>, d: seq<octet>, e: seq<octet>, rest: seq<octet>)
    requires |a| == |b| == |c| == 4 && |d| == |e| == 2
    ensures var s := (a + b + c + d + e) + rest;
            s[0..4] == a && s[4..8] == b && s[8..12] == c && s[12..14] == d && s[14..16] == e
  {
  }

  lemma HeadRoundTrip(h: Head, data: seq<octet>)
    ensures ParseHead(HeadBytes(h) + data) == h
  {
    hide Le32, Num32, Le16, Num16;
    FiveParts(Le32(h.magic), Le32(h.size), Le32(h.checksum), Le16(h.platform), Le16(h.version), data);
    Le32RoundTrip(h.magic);
    Le32RoundTrip(h.size);
    Le32RoundTrip(h.checksum);
    Le16RoundTrip(h.platform);
    Le16RoundTrip(h.version);
  }

  function Not(x: bv32): bv32 {
    !x
  }

  lemma NotNot(x: bv32)
    ensures Not(Not(x)) == x
  {
  }

  /** The CRC-32 of a string: register inverted before and after. */
  function Sum(data: seq<octet>): u32 {
    Not(Crc(0xFFFF_FFFF, data)) as int
  }

  /** What the packer writes for an image. */
  function Container(image: seq<octet>): (file: seq<octet>)
    ensures |file| == HEAD_SIZE + |image|
  {
    HeadBytes(Head(MAGIC, ToU32(|image|), Sum(image), 0, 0)) + image
  }

  /** One octet of the check string. */
  lemma CheckStep(crc: bv32, data: seq<octet>, b: octet, before: bv32, after: bv32)
    requires Crc(crc, data) == before && OctetStep(before, b) == after
    ensures Crc(crc, data + [b]) == after
  {
    hide OctetStep;
    assert (data + [b])[..|data|] == data;
  }

  /** The checksum is the CRC-32 in general use: of the digits 1 to 9 it is 0xCBF43926. */
  lemma CheckValue(digits: seq<octet>)
    requires digits == [0x31, 0x32, 0x33, 0x34, 0x35, 0x36, 0x37, 0x38, 0x39]
    ensures Sum(digits) == 0xCBF4_3926
  {
    hide Crc;
    CheckOctets();
    hide OctetStep;
    CrcOfNothing(0xFFFF_FFFF);
    CheckStep(0xFFFF_FFFF, digits[..0], 0x31, 0xffffffff, 0x7c231048);
    assert digits[..0] + [0x31] == digits[..1];
    CheckStep(0xFFFF_FFFF, digits[..1], 0x32, 0x7c231048, 0xb0acbb32);
    assert digits[..1] + [0x32] == digits[..2];
    CheckStep(0xFFFF_FFFF, digits[..2], 0x33, 0xb0acbb32, 0x77b79c2d);
    assert digits[..2] + [0x33] == digits[..3];
    CheckStep(0xFFFF_FFFF, digits[..3], 0x34, 0x77b79c2d, 0x641c1f5c);
    assert digits[..3] + [0x34] == digits[..4];
    CheckStep(0xFFFF_FFFF, digits[..4], 0x35, 0x641c1f5c, 0x340ac5e3);
    assert digits[..4] + [0x35] == digits[..5];
    CheckStep(0xFFFF_FFFF, digits[..5], 0x36, 0x340ac5e3, 0xf68d2c9e);
    assert digits[..5] + [0x36] == digits[..6];
    CheckStep(0xFFFF_FFFF, digits[..6], 0x37, 0xf68d2c9e, 0xaffc9660);
    assert digits[..6] + [0x37] == digits[..7];
    CheckStep(0xFFFF_FFFF, digits[..7], 0x38, 0xaffc9660, 0x651f2550);
    assert digits[..7] + [0x38] == digits[..8];
    CheckStep(0xFFFF_FFFF, digits[..8], 0x39, 0x651f2550, 0x340bc6d9);
    assert digits[..8] + [0x39] == digits[..9];
    assert digits[..9] == digits;
  }

  lemma CheckOctets()
    ensures OctetStep(0xffffffff, 0x31) == 0x7c231048
    ensures OctetStep(0x7c231048, 0x32) == 0xb0acbb32
    ensures OctetStep(0xb0acbb32, 0x33) == 0x77b79c2d
    ensures OctetStep(0x77b79c2d, 0x34) == 0x641c1f5c
    ensures OctetStep(0x641c1f5c, 0x35) == 0x340ac5e3
    ensures OctetStep(0x340ac5e3, 0x36) == 0xf68d2c9e
    ensures OctetStep(0xf68d2c9e, 0x37) == 0xaffc9660
    ensures OctetStep(0xaffc9660, 0x38) == 0x651f2550
    ensures OctetStep(0x651f2550, 0x39) == 0x340bc6d9
  {
  }

  /** Where the fields of a packed file are: the magic MNFN, then size and checksum, the
      octets of lesser weight first, platform and version zero, and the image. */
  lemma ContainerLayout(image: seq<octet>)
    requires |image| < 0x1_0000_0000
    ensures var f := Container(image);
            && |f| == 16 + |image| && f[16..] == image && f[..4] == [0x4D, 0x4E, 0x46, 0x4E]
            && Weighed(f[4..8]) == |image| && Weighed(f[8..12]) == Sum(image) && f[12..16] == [0, 0, 0, 0]
  {
    hide Sum, Octet, Value, Weighed, Le32, Le16;
    Fields(|image|, Sum(image), image);
    MagicOctets();
    WeighedLe32(|image|);
    WeighedLe32(Sum(image));
    assert Container(image)[12..16] == Container(image)[12..14] + Container(image)[14..16];
  }

  /** Four octets as a number, the first of the least weight. */
  function Weighed(s: seq<octet>): int
    requires |s| == 4
  {
    Value(s[0]) + 0x100 * Value(s[1]) + 0x1_0000 * Value(s[2]) + 0x100_0000 * Value(s[3])
  }

  lemma OctetIs(x: int, o: octet)
    requires 0 <= x < 0x100 && Value(o) == x
    ensures Octet(x) == o
  {
    hide Octet, Value;
    OctetValue(x);
    OctetsByValue(Octet(x), o);
  }

  lemma MagicValues()
    ensures Value(0) == 0 && Value(0x4D) == 0x4D && Value(0x4E) == 0x4E && Value(0x46) == 0x46
  {
  }

  lemma MagicOctets()
    ensures Le32(MAGIC) == [0x4D, 0x4E, 0x46, 0x4E] && Le16(0) == [0, 0]
  {
    MagicValues();
    hide Octet, Value;
    OctetIs(0, 0);
    OctetIs(0x4D, 0x4D);
    OctetIs(0x4E, 0x4E);
    OctetIs(0x46, 0x46);
  }

  lemma WeighedLe32(v: u32)
    ensures Weighed(Le32(v)) == v
  {
    hide Octet, Value;
    OctetValue(v % 0x1_0000 % 0x100);
    OctetValue(v % 0x1_0000 / 0x100);
    OctetValue(v / 0x1_0000 % 0x100);
    OctetValue(v / 0x1_0000 / 0x100);
  }

  lemma Fields(size: u32, sum: u32, image: seq<octet>)
    ensures var s := HeadBytes(Head(MAGIC, size, sum, 0, 0)) + image;
            && s[0..4] == Le32(MAGIC) && s[4..8] == Le32(size) && s[8..12] == Le32(sum)
            && s[12..14] == Le16(0) && s[14..16] == Le16(0) && s[16..] == image
  {
    hide Le32, Le16;
    FiveParts(Le32(MAGIC), Le32(size), Le32(sum), Le16(0), Le16(0), image);
  }

  /** What update_check accepts; it looks neither at the magic nor at the version. */
  predicate Accepted(file: seq<octet>): (ok: bool)
    ensures ok ==> |file| >= HEAD_SIZE
  {
    && |file| >= HEAD_SIZE
    && var h := ParseHead(file);
       && h.size == ToU32(|file| - HEAD_SIZE)
       && h.platform == PLATFORM_ESP32S3
       && h.checksum == Sum(file[HEAD_SIZE..])
  }

  function Image(file: seq<octet>): seq<octet>
    requires |file| >= HEAD_SIZE
  {
    file[HEAD_SIZE..]
  }

  // ----- the code -----

  /** One step of reading a file in chunks: fread of at most CHUNK octets. */
  function ChunkEnd(pos: nat, length: nat): (end: nat)
    requires pos <= length
    ensures pos <= end <= length && (end == pos ==> pos == length)
  {
    if length - pos > CHUNK then pos + CHUNK else length
  }

  lemma NextChunk(crc: bv32, data: seq<octet>, pos: nat)
    requires pos <= |data|
    ensures Crc(Crc(crc, data[..pos]), data[pos..ChunkEnd(pos, |data|)]) == Crc(crc, data[..ChunkEnd(pos, |data|)])
  {
    var end := ChunkEnd(pos, |data|);
    assert data[..pos] + data[pos..end] == data[..end];
    CrcChunks(crc, data[..pos], data[pos..end]);
  }

  /** The packing loop of bin2fw: the header comes last and goes to the front. */
  method Pack(image: seq<octet>) returns (file: seq<octet>)
    ensures file == Container(image)
  {
    hide Crc, HeadBytes, Not;
    var size: u32, checksum: bv32 := 0, 0xFFFF_FFFF;
    var body := [];
    var pos := 0;
    assert Crc(0xFFFF_FFFF, image[..0]) == 0xFFFF_FFFF by {
      CrcOfNothing(0xFFFF_FFFF);
    }
    while pos < |image|
      invariant 0 <= pos <= |image| && size == ToU32(pos)
      invariant body == image[..pos] && checksum == Crc(0xFFFF_FFFF, image[..pos])
    {
      var end := ChunkEnd(pos, |image|);
      NextChunk(0xFFFF_FFFF, image, pos);
      checksum := Crc32Buf(checksum, image[pos..end]);
      body := body + image[pos..end];
      size := ToU32(size as int + (end - pos));
      pos := end;
    }
    assert image[..|image|] == image;
    file := HeadBytes(Head(MAGIC, size, Not(checksum) as int, 0, 0)) + body;
  }

  lemma CrcOfNothing(crc: bv32)
    ensures Crc(crc, []) == crc
  {
  }

  /** esp_crc32_le: inverted before and after. */
  method EspCrc32Le(cs: bv32, buf: seq<octet>) returns (r: bv32)
    ensures r == Not(Crc(Not(cs), buf))
  {
    r := Crc32Buf(Not(cs), buf);
    r := Not(r);
  }

  /** checkFileCrc: the rest of the file in chunks. */
  method CheckFileCrc(rest: seq<octet>, checksum: u32) returns (ok: bool)
    ensures ok == (checksum == Sum(rest))
  {
    assert Not(0xFFFF_FFFF) == 0;
    hide Crc, Not, ChunkEnd;
    CrcOfNothing(0xFFFF_FFFF);
    var cs: bv32 := 0;
    var pos := 0;
    assert rest[..0] == [];
    while pos < |rest|
      invariant 0 <= pos <= |rest| && cs == Not(Crc(0xFFFF_FFFF, rest[..pos]))
    {
      var end := ChunkEnd(pos, |rest|);
      NextChunk(0xFFFF_FFFF, rest, pos);
      NotNot(Crc(0xFFFF_FFFF, rest[..pos]));
      cs := EspCrc32Le(cs, rest[pos..end]);
      pos := end;
    }
    assert rest[..|rest|] == rest;
    ok := cs as int == checksum;
  }

  /** update_check, on a file that exists. */
  method UpdateCheck(file: seq<octet>) returns (ok: bool)
    ensures ok == Accepted(file)
  {
    ok := false;
    if |file| >= HEAD_SIZE {
      var head := ParseHead(file);
      if ToU32(|file| - HEAD_SIZE) == head.size {
        if PLATFORM_ESP32S3 == head.platform {
          ok := CheckFileCrc(file[HEAD_SIZE..], head.checksum);
        }
      }
    }
  }

  // ----- packer and loader agree -----

  /** Every packed image passes the check and is found again behind the header. */
  lemma PackedIsAccepted(image: seq<octet>)
    ensures Accepted(Container(image)) && Image(Container(image)) == image
  {
    hide Crc, HeadBytes, ParseHead;
    HeadRoundTrip(Head(MAGIC, ToU32(|image|), Sum(image), 0, 0), image);
  }

  /** No unfinished copy of a packed file passes the check. */
  lemma PrefixIsRefused(image: seq<octet>, n: nat)
    requires |image| < 0x1_0000_0000 && n < HEAD_SIZE + |image|
    ensures !Accepted(Container(image)[..n])
  {
    hide Crc, HeadBytes, ParseHead;
    if n >= HEAD_SIZE {
      var head := Head(MAGIC, ToU32(|image|), Sum(image), 0, 0);
      HeadRoundTrip(head, image[..n - HEAD_SIZE]);
      assert Container(image)[..n] == HeadBytes(head) + image[..n - HEAD_SIZE];
    }
  }

  // ----- single damaged octets -----

  lemma SameSum(a: seq<octet>, b: seq<octet>, i: nat)
    requires |a| == |b| && i < |a| && a[i] != b[i] && b == a[i := b[i]]
    ensures Sum(a) != Sum(b)
  {
    hide Crc;
    DamageChangesCrc(0xFFFF_FFFF, a, i, b[i]);
    var x, y := Crc(0xFFFF_FFFF, a), Crc(0xFFFF_FFFF, b);
    NotNot(x);
    NotNot(y);
    hide Not;
    WordByValue(Not(x), Not(y));
  }

  lemma WordByValue(a: bv32, b: bv32)
    ensures a as int == b as int ==> a == b
  {
    assert (a as int) as bv32 == a;
    assert (b as int) as bv32 == b;
  }

  lemma DamagedField32(s: seq<octet>, t: seq<octet>, from: nat)
    requires |s| == |t| && from + 4 <= |s| && s[from..from + 4] != t[from..from + 4]
    ensures Num32(s[from..from + 4]) != Num32(t[from..from + 4])
  {
    if Num32(s[from..from + 4]) == Num32(t[from..from + 4]) {
      Num32Injective(s[from..from + 4], t[from..from + 4]);
    }
  }

  lemma DamagedField16(s: seq<octet>, t: seq<octet>, from: nat)
    requires |s| == |t| && from + 2 <= |s| && s[from..from + 2] != t[from..from + 2]
    ensures Num16(s[from..from + 2]) != Num16(t[from..from + 2])
  {
    if Num16(s[from..from + 2]) == Num16(t[from..from + 2]) {
      Num16Injective(s[from..from + 2], t[from..from + 2]);
    }
  }

  /** A good file with one changed octet is still accepted exactly when that octet
      belongs to the magic or to the version, the two fields nobody looks at. */
  lemma SingleDamage(file: seq<octet>, i: nat, x: octet)
    requires Accepted(file) && i < |file| && x != file[i]
    ensures Accepted(file[i := x]) <==> i < 4 || 14 <= i < 16
  {
    hide Num32, Num16, Sum;
    var bad := file[i := x];
    if i < HEAD_SIZE {
      assert bad[HEAD_SIZE..] == file[HEAD_SIZE..];
    }
    if i < 4 || 14 <= i < 16 {
      assert bad[4..8] == file[4..8] && bad[8..12] == file[8..12] && bad[12..14] == file[12..14];
    } else if i < 8 {
      assert bad[4..8][i - 4] != file[4..8][i - 4];
      DamagedField32(file, bad, 4);
    } else if i < 12 {
      assert bad[8..12][i - 8] != file[8..12][i - 8];
      DamagedField32(file, bad, 8);
    } else if i < 14 {
      assert bad[12..14][i - 12] != file[12..14][i - 12];
      DamagedField16(file, bad, 12);
    } else {
      assert bad[8..12] == file[8..12];
      assert bad[HEAD_SIZE..] == file[HEAD_SIZE..][i - HEAD_SIZE := x];
      SameSum(file[HEAD_SIZE..], bad[HEAD_SIZE..], i - HEAD_SIZE);
    }
  }
}
