/** The CRSF channel unpacker (components/CRSF/CRSF.c): sixteen 11-bit numbers
    out of 22 octets, low bits first. */
module Crsf {
  import opened Arithmetic
  import opened Words

  const CHANNELS := 16
  const OCTETS := 22

  // ----- numbers and digits -----

  /** The number whose digits, lowest first, are ds. */
  function Number(ds: seq<int>, base: nat): int {
    if ds == [] then 0 else ds[0] + base * Number(ds[1..], base)
  }

  function Quotient(v: nat, base: nat): nat
    requires base > 0
  {
    v / base
  }

  function Remainder(v: nat, base: nat): (r: nat)
    requires base > 0
    ensures r < base
  {
    v % base
  }

  lemma QuotientRemainder(v: nat, base: nat)
    requires base > 0
    ensures v == base * Quotient(v, base) + Remainder(v, base)
  {
    Division(v, base);
  }

  /** The n lowest digits of v. */
  function Digits(v: nat, base: nat, n: nat): (ds: seq<int>)
    requires base > 0
    ensures |ds| == n
    decreases n
  {
    if n == 0 then [] else [Remainder(v, base)] + Digits(Quotient(v, base), base, n - 1)
  }

  function Pow(base: nat, n: nat): nat {
    if n == 0 then 1 else base * Pow(base, n - 1)
  }

  ghost predicate AreDigits(ds: seq<int>, base: nat) {
    forall k :: 0 <= k < |ds| ==> 0 <= ds[k] < base
  }

  lemma {:induction false} DigitsAreDigits(v: nat, base: nat, n: nat)
    requires base > 0
    ensures AreDigits(Digits(v, base, n), base)
    decreases n
  {
    hide Quotient, Remainder;
    if n > 0 {
      DigitsAreDigits(Quotient(v, base), base, n - 1);
    }
  }

  lemma DivMod(d: int, rest: nat, base: nat)
    requires 0 <= d < base
    ensures base * rest >= 0
    ensures Remainder(d + base * rest, base) == d && Quotient(d + base * rest, base) == rest
  {
    MulLe(0, rest, base);
    DivisionIs(d + base * rest, base, rest, d);
  }

  lemma {:induction false} DigitsOfNumber(ds: seq<int>, base: nat)
    requires base > 0 && AreDigits(ds, base)
    ensures Number(ds, base) >= 0 && Digits(Number(ds, base), base, |ds|) == ds
  {
    if ds != [] {
      hide Remainder, Quotient;
      DigitsOfNumber(ds[1..], base);
      DivMod(ds[0], Number(ds[1..], base), base);
      assert ds == [ds[0]] + ds[1..];
    }
  }

  lemma {:induction false} NumberOfDigits(v: nat, base: nat, n: nat)
    requires base > 0 && v < Pow(base, n)
    ensures Number(Digits(v, base, n), base) == v
    decreases n
  {
    hide Remainder, Quotient;
    if n > 0 {
      QuotientRemainder(v, base);
      QuotientBelow(v, base, Pow(base, n - 1));
      NumberOfDigits(Quotient(v, base), base, n - 1);
      assert Digits(v, base, n)[1..] == Digits(Quotient(v, base), base, n - 1);
    }
  }

  lemma QuotientBelow(v: nat, base: nat, p: nat)
    requires base > 0 && v < base * p
    ensures Quotient(v, base) < p
  {
    DivBelow(v, base, p);
  }

  lemma BelowOnce(d: int, n: int, p: int, base: int)
    requires 0 <= d < base && 0 <= n < p
    ensures 0 <= d + base * n < base * p
  {
    MulLe(0, n, base);
    MulLe(n + 1, p, base);
    assert (n + 1) * base == base * n + base;
  }

  lemma {:induction false} NumberBelow(ds: seq<int>, base: nat)
    requires base > 0 && AreDigits(ds, base)
    ensures 0 <= Number(ds, base) < Pow(base, |ds|)
  {
    if ds != [] {
      NumberBelow(ds[1..], base);
      BelowOnce(ds[0], Number(ds[1..], base), Pow(base, |ds| - 1), base);
    }
  }

  // ----- the format -----

  /** What the unpacker is to deliver: channel n is bits 11n to 11n + 10 of the
      payload read as one little-endian number. */
  function Unpacked(payload: seq<int>): (channels: seq<int>)
    requires AreDigits(payload, 0x100)
    ensures |channels| == CHANNELS && AreDigits(channels, 2048)
  {
    hide Digits, Number;
    DigitsOfNumber(payload, 0x100);
    DigitsAreDigits(Number(payload, 0x100), 2048, CHANNELS);
    Digits(Number(payload, 0x100), 2048, CHANNELS)
  }

  /** The sender's side. */
  function Packed(channels: seq<int>): (payload: seq<int>)
    requires AreDigits(channels, 2048)
    ensures |payload| == OCTETS && AreDigits(payload, 0x100)
  {
    hide Digits, Number;
    DigitsOfNumber(channels, 2048);
    DigitsAreDigits(Number(channels, 2048), 0x100, OCTETS);
    Digits(Number(channels, 2048), 0x100, OCTETS)
  }

  lemma {:induction false} PowBits(base: nat, bits: nat, n: nat)
    requires base == Pow(2, bits)
    ensures Pow(base, n) == Pow(2, bits * n)
  {
    if n > 0 {
      PowBits(base, bits, n - 1);
      PowSum(2, bits, bits * (n - 1));
      assert bits + bits * (n - 1) == bits * n;
    }
  }

  lemma {:induction false} PowSum(base: nat, m: nat, n: nat)
    ensures Pow(base, m + n) == Pow(base, m) * Pow(base, n)
  {
    if m > 0 {
      PowSum(base, m - 1, n);
      assert Pow(base, m + n) == base * Pow(base, m - 1 + n);
      assert base * (Pow(base, m - 1) * Pow(base, n)) == (base * Pow(base, m - 1)) * Pow(base, n);
    }
  }

  /** Twenty-two octets hold exactly as much as sixteen channels. */
  lemma SameRoom()
    ensures Pow(0x100, OCTETS) == Pow(2048, CHANNELS)
  {
    assert Pow(2, 4) == 16;
    PowSum(2, 4, 4);
    assert Pow(2, 3) == 8;
    PowSum(2, 8, 3);
    PowBits(0x100, 8, OCTETS);
    PowBits(2048, 11, CHANNELS);
  }

  lemma UnpackAfterPack(channels: seq<int>)
    requires |channels| == CHANNELS && AreDigits(channels, 2048)
    ensures Unpacked(Packed(channels)) == channels
  {
    NumberBelow(channels, 2048);
    SameRoom();
    NumberOfDigits(Number(channels, 2048), 0x100, OCTETS);
    DigitsOfNumber(channels, 2048);
  }

  lemma PackAfterUnpack(payload: seq<int>)
    requires |payload| == OCTETS && AreDigits(payload, 0x100)
    ensures Packed(Unpacked(payload)) == payload
  {
    NumberBelow(payload, 0x100);
    SameRoom();
    NumberOfDigits(Number(payload, 0x100), 2048, CHANNELS);
    DigitsOfNumber(payload, 0x100);
  }

  // ----- the bit buffer of the loop -----

  /** Bitwise or of two numbers. */
  function Or(a: nat, b: nat): nat
    decreases a + b
  {
    if a == 0 && b == 0 then 0
    else (if a % 2 == 1 || b % 2 == 1 then 1 else 0) + 2 * Or(a / 2, b / 2)
  }

  lemma {:induction false} OrZero(b: nat)
    ensures Or(0, b) == b
  {
    if b > 0 {
      OrZero(b / 2);
    }
  }

  /** Or of disjoint bit ranges is a sum. */
  lemma {:induction false} OrAdds(a: nat, b: nat, k: nat)
    requires a < Pow(2, k)
    ensures Or(a, b * Pow(2, k)) == a + b * Pow(2, k)
  {
    if k == 0 {
      OrZero(b);
    } else {
      var p := Pow(2, k - 1);
      assert b * Pow(2, k) == 2 * (b * p);
      OrAdds(a / 2, b, k - 1);
    }
  }

  /** Taking in one octet above the bits held. */
  lemma TakeOctet(held: nat, bits: nat, o: int, rest: int)
    ensures held + Pow(2, bits) * (o + 0x100 * rest)
         == (held + o * Pow(2, bits)) + Pow(2, bits + 8) * rest
  {
    var p := Pow(2, bits);
    assert Pow(2, 4) == 16;
    PowSum(2, 4, 4);
    PowSum(2, bits, 8);
    assert p * (0x100 * rest) == (p * 0x100) * rest;
    assert p * (o + 0x100 * rest) == p * o + p * (0x100 * rest);
  }

  lemma PowAbove(bits: nat)
    requires bits >= 11
    ensures Pow(2, bits) == 2048 * Pow(2, bits - 11)
  {
    assert Pow(2, 3) == 8;
    assert Pow(2, 4) == 16;
    PowSum(2, 4, 4);
    PowSum(2, 8, 3);
    PowSum(2, 11, bits - 11);
  }

  lemma ModDiv(held: nat, q: int)
    ensures (held + 2048 * q) % 2048 == held % 2048
    ensures (held + 2048 * q) / 2048 == held / 2048 + q
  {
    Division(held, 2048);
    DivisionIs(held + 2048 * q, 2048, held / 2048 + q, held % 2048);
  }

  /** Giving out eleven bits. */
  lemma GiveChannel(held: nat, bits: nat, rest: int)
    requires bits >= 11
    ensures (held + Pow(2, bits) * rest) % 2048 == held % 2048
    ensures (held + Pow(2, bits) * rest) / 2048 == held / 2048 + Pow(2, bits - 11) * rest
  {
    hide Pow;
    PowAbove(bits);
    var p := Pow(2, bits - 11);
    assert (2048 * p) * rest == 2048 * (p * rest);
    ModDiv(held, p * rest);
  }

  /** The v whose channels are still to come, after n were given out. */
  function Ahead(v: nat, n: nat): nat {
    if n == 0 then v else Ahead(v, n - 1) / 2048
  }

  lemma {:induction false} AheadDigit(v: nat, n: nat, total: nat)
    requires n < total
    ensures Ahead(v, n) % 2048 == Digits(v, 2048, total)[n]
    decreases n
  {
    if n > 0 {
      AheadShift(v, n);
      AheadDigit(v / 2048, n - 1, total - 1);
    }
  }

  lemma {:induction false} AheadShift(v: nat, n: nat)
    requires n > 0
    ensures Ahead(v, n) == Ahead(v / 2048, n - 1)
  {
    if n > 1 {
      AheadShift(v, n - 1);
    }
  }

  // ----- the code -----

  /** The inner loop: octets are taken in until eleven bits are held. The bits held
      and the octets not yet read make up the number still ahead. */
  method Refill(payload: seq<int>, held: nat, bits: nat, pos: nat) returns (held': nat, bits': nat, pos': nat)
    requires AreDigits(payload, 0x100) && pos <= |payload| && held < Pow(2, bits) && bits <= 18
    requires 8 * (|payload| - pos) + bits >= 11
    ensures pos <= pos' <= |payload| && held' < Pow(2, bits')
    ensures 11 <= bits' && bits' - bits == 8 * (pos' - pos) && (bits < 11 ==> bits' <= 18)
    ensures bits >= 11 ==> bits' == bits
    ensures held' + Pow(2, bits') * Number(payload[pos'..], 0x100)
         == held + Pow(2, bits) * Number(payload[pos..], 0x100)
  {
    held', bits', pos' := held, bits, pos;
    while bits' < 11
      invariant pos <= pos' <= |payload| && held' < Pow(2, bits')
      invariant bits' - bits == 8 * (pos' - pos) && bits' <= 18
      invariant bits >= 11 ==> bits' == bits
      invariant held' + Pow(2, bits') * Number(payload[pos'..], 0x100)
             == held + Pow(2, bits) * Number(payload[pos..], 0x100)
      decreases 11 - bits'
    {
      var o := payload[pos'];
      OctetAbove(held', o, bits');
      assert payload[pos'..][1..] == payload[pos' + 1..];
      TakeOctet(held', bits', o, Number(payload[pos' + 1..], 0x100));
      held' := Or(held', o * Pow(2, bits'));
      bits' := bits' + 8;
      pos' := pos' + 1;
    }
  }

  lemma PowOctet(bits: nat)
    ensures Pow(2, bits + 8) == 0x100 * Pow(2, bits) && Pow(2, bits) > 0
  {
    assert Pow(2, 4) == 16;
    PowSum(2, 4, 4);
    PowSum(2, bits, 8);
    NumberBelow(seq(bits, i => 0), 2);
  }

  lemma OctetAbove(held: nat, o: int, bits: nat)
    requires held < Pow(2, bits) && 0 <= o < 0x100
    ensures o * Pow(2, bits) >= 0
    ensures Or(held, o * Pow(2, bits)) == held + o * Pow(2, bits) < Pow(2, bits + 8)
  {
    hide Pow, Or;
    PowOctet(bits);
    OrAdds(held, o, bits);
    BelowOnce(held, o, 0x100, Pow(2, bits));
  }

  /** What the outer loop keeps: the number still ahead is the bits held, then the
      octets not yet read. */
  ghost predicate Midway(payload: seq<int>, n: nat, held: nat, bits: nat, pos: nat)
    requires pos <= |payload|
  {
    && bits <= 7 && 8 * pos == 11 * n + bits && held < Pow(2, bits)
    && Number(payload, 0x100) >= 0
    && held + Pow(2, bits) * Number(payload[pos..], 0x100) == Ahead(Number(payload, 0x100), n)
  }

  lemma AtStart(payload: seq<int>)
    requires AreDigits(payload, 0x100)
    ensures Midway(payload, 0, 0, 0, 0)
  {
    NumberBelow(payload, 0x100);
    assert payload[0..] == payload;
  }

  /** One turn, after the refill: the channel given out is the digit due. */
  lemma Turn(payload: seq<int>, n: nat, held: nat, bits: nat, pos: nat)
    requires n < CHANNELS && pos <= |payload| && 11 <= bits <= 18 && held < Pow(2, bits)
    requires 8 * pos == 11 * n + bits && Number(payload, 0x100) >= 0
    requires held + Pow(2, bits) * Number(payload[pos..], 0x100) == Ahead(Number(payload, 0x100), n)
    ensures held % 2048 == Digits(Number(payload, 0x100), 2048, CHANNELS)[n]
    ensures Midway(payload, n + 1, held / 2048, bits - 11, pos)
  {
    hide Pow, Number, Digits;
    var rest := Number(payload[pos..], 0x100);
    GiveChannel(held, bits, rest);
    AheadDigit(Number(payload, 0x100), n, CHANNELS);
    HeldShrinks(held, bits);
  }

  /** UnpackChannels: the channels of the payload, all octets read, and no value
      that a clamp would change. */
  method UnpackChannels(payload: seq<int>) returns (dest: seq<int>, used: nat)
    requires |payload| == OCTETS && AreDigits(payload, 0x100)
    ensures dest == Unpacked(payload) && used == OCTETS
  {
    hide Pow, Number, Digits, Ahead;
    AtStart(payload);
    ghost var v: nat := Number(payload, 0x100);
    var bits: nat, held: nat, pos: nat := 0, 0, 0;
    dest := [];
    for n := 0 to CHANNELS
      invariant |dest| == n && pos <= OCTETS && Midway(payload, n, held, bits, pos)
      invariant forall k :: 0 <= k < n ==> dest[k] == Digits(v, 2048, CHANNELS)[k]
    {
      held, bits, pos := Refill(payload, held, bits, pos);
      Turn(payload, n, held, bits, pos);
      var value := held % 2048;
      if value > 2048 {
        value := 2048;
      }
      if value < 0 {
        value := 0;
      }
      dest := dest + [value];
      held := held / 2048;
      bits := bits - 11;
    }
    used := pos;
  }

  lemma HeldShrinks(held: nat, bits: nat)
    requires bits >= 11 && held < Pow(2, bits)
    ensures held / 2048 < Pow(2, bits - 11)
  {
    hide Pow;
    PowAbove(bits);
  }
}
