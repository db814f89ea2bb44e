/** The receiver as one value: stream identity, sync point, reorder flow, play
    state and drift, with the effect of one datagram and of one read. */
module RtpSession {
  import opened Arithmetic
  import opened Words
  import opened ByteArrays
  import opened Reorder
  import opened DriftClock

  const GAP_US := 80_000
  const SSRC_HOLD_US := 1_000_000

  /** State of the jitter buffer as the reader sees it. */
  datatype Play = Idle | Filling | Playing

  /** `rate` is the sample rate, `thres` the fill at which playing starts. */
  datatype Session = Session(rate: u32, thres: nat,
                             flow: Flow, ssrcAt: int, tracking: bool,
                             synced: bool, syncTs: u32, needSeed: bool,
                             play: Play, drift: Drift, lastRecv: int)

  /** A stream just opened at time `at` on a ring that can queue cap bytes. */
  function Opened(rate: u32, cap: nat, thres: nat, at: int): Session {
    Session(rate, thres, Flow(cap, 0, 0, map[], [], 0, [], [], 0, 0, {}), 0, false, false, 0, true, Idle,
            Drift(0, 0, 0, 0, 0, false, 0, 0, 0, 0, 0, 0, []), at)
  }

  /** Ring size for a latency in milliseconds, in the 32-bit int of the source: three
      times the audio of that span, the audio rounded up to whole words, and at least
      1024 bytes. */
  function BufferSize(rate: nat, ms: nat): (size: nat)
    ensures size >= 1024 && size % 4 == 0
  {
    SizeFor(ToI32(rate * FRAME * ms))
  }

  /** Rounding up to whole words. */
  function Words4(x: int): (r: int)
    ensures r % 4 == 0 && x <= r < x + 4
  {
    (x + 3) / 4 * 4
  }

  function SizeFor(product: i32): (size: nat)
    ensures size >= 1024 && size % 4 == 0
  {
    var audio := Words4(TruncDiv(product, 1000));
    if audio * 3 < 1024 then 1024 else audio * 3
  }

  /** The ring has room for three times the audio asked for exactly when the product
      of rate, frame size and latency fits into that int. */
  lemma {:induction false} BufferHoldsLatency(rate: nat, ms: nat)
    ensures BufferSize(rate, ms) >= 3 * (rate * FRAME * ms / 1000) <==> rate * FRAME * ms < 0x8000_0000
  {
    SizeSuffices(rate * FRAME * ms);
  }

  /** And then it has no more than that, but for the rounding. */
  lemma {:induction false} BufferIsNoLarger(rate: nat, ms: nat)
    requires rate * FRAME * ms < 0x8000_0000
    ensures BufferSize(rate, ms) == 1024 || BufferSize(rate, ms) < 3 * (rate * FRAME * ms / 1000) + 12
  {
    SizeIsTight(rate * FRAME * ms);
  }

  lemma SizeIsTight(bytes: nat)
    requires bytes < 0x8000_0000
    ensures SizeFor(ToI32(bytes)) == 1024 || SizeFor(ToI32(bytes)) < 3 * (bytes / 1000) + 12
  {
    hide Words4;
  }

  lemma SizeSuffices(bytes: nat)
    ensures SizeFor(ToI32(bytes)) >= 3 * (bytes / 1000) <==> bytes < 0x8000_0000
  {
    hide Words4;
  }

  // ----- reading a datagram (section 5.1 of RFC 3550) -----

  function Be16(d: seq<byte>, i: nat): u16
    requires i + 2 <= |d|
  {
    d[i] as int * 0x100 + d[i + 1] as int
  }

  function Be32(d: seq<byte>, i: nat): u32
    requires i + 4 <= |d|
  {
    Be16(d, i) as int * 0x1_0000 + Be16(d, i + 2) as int
  }

  function Le16(d: seq<byte>, i: nat): u16
    requires i + 2 <= |d|
  {
    d[i] as int + d[i + 1] as int * 0x100
  }

  /** The samples keep their value: big-endian on the wire (section 4.5.11 of
      RFC 3551), little-endian in the ring. */
  lemma SwapKeepsSamples(p: seq<byte>, k: nat)
    requires |p| % 2 == 0 && 2 * k + 2 <= |p|
    ensures Le16(Swapped(p), 2 * k) == Be16(p, 2 * k)
  {
    assert (2 * k) % 2 == 0 && (2 * k + 1) % 2 == 1;
  }

  predicate WellFormed(d: seq<byte>) {
    |d| >= 12 && |d| % 4 == 0
  }

  /** The packet in a datagram, the event that brought it being number `no`. */
  function Parse(d: seq<byte>, no: nat): Packet
    requires WellFormed(d)
  {
    Packet(Be16(d, 2), Be32(d, 4), Be32(d, 8), Swapped(d[12..]), no)
  }

  // ----- the sync point -----

  /** The start of the second sample-rate period after the current one. */
  function PeriodStart(ts: int, rate: int): int
    requires rate > 0
  {
    (ts / rate + 2) * rate
  }

  function SyncPoint(ts: u32, rate: u32): u32
    requires rate > 0
  {
    ToU32(PeriodStart(ts, rate))
  }

  /** Receivers agree on the sync point exactly when their first packets fall
      into the same period. */
  lemma SyncPointAgreement(a: u32, b: u32, rate: u32)
    requires rate > 0
    ensures SyncPoint(a, rate) == SyncPoint(b, rate) <==> a / rate == b / rate
  {
    hide ToU32, PeriodStart;
    var i := Period(a, rate);
    var j := Period(b, rate);
    if i < j {
      Apart(i, j, rate);
    } else if j < i {
      Apart(j, i, rate);
    }
  }

  /** The number of the period a timestamp falls into. */
  lemma Period(ts: u32, rate: u32) returns (k: int)
    requires rate > 0
    ensures k == ts / rate && k >= 0 && k * rate < 0x1_0000_0000
    ensures PeriodStart(ts, rate) == (k + 2) * rate
  {
    k := ts / rate;
    Division(ts, rate);
  }

  lemma Apart(i: int, j: int, rate: int)
    requires 0 <= i < j && rate > 0 && j * rate < 0x1_0000_0000
    ensures ToU32((i + 2) * rate) != ToU32((j + 2) * rate)
  {
    var gap := (j - i) * rate;
    assert (j + 2) * rate == (i + 2) * rate + gap;
    assert gap == j * rate - i * rate;
    MulLe(0, i, rate);
    MulLess(0, j - i, rate);
    Wrapped((i + 2) * rate, gap);
  }

  lemma Wrapped(x: int, gap: int)
    requires 0 < gap < 0x1_0000_0000
    ensures ToU32(x) != ToU32(x + gap)
  {
  }

  /** Signed distance of a timestamp from the sync point. */
  function Ahead(ts: u32, point: u32): i32 {
    ToI32(ts - point)
  }

  lemma Signed(p: int, e: int)
    requires -0x8000_0000 < e < 0x8000_0000
    ensures ToI32(p - ToU32(p + e)) == -e
  {
  }

  lemma NextPeriods(ts: int, rate: int) returns (e: int)
    requires ts >= 0 && rate > 0
    ensures rate < e <= 2 * rate && PeriodStart(ts, rate) == ts + e
  {
    var k := ts / rate;
    e := 2 * rate - ts % rate;
    Division(ts, rate);
    assert (k + 2) * rate == rate * k + 2 * rate;
  }

  /** The sync point lies one to two periods ahead of the packet that set it. */
  lemma SyncPointAhead(ts: u32, rate: u32)
    requires 0 < rate && rate * 5 < 0x8000_0000
    ensures rate as int < 0 - Ahead(ts, SyncPoint(ts, rate)) as int <= 2 * rate as int
  {
    hide PeriodStart;
    var e := NextPeriods(ts, rate);
    Signed(ts, e);
  }

  // ----- one datagram -----

  /** _rtp_full_reset; `lost` is the total count at that moment. */
  function Reset(s: Session, lost: int): Session {
    s.(flow := Cleared(s.flow, lost).(ssrc := 0), tracking := false, synced := false,
       syncTs := 0, needSeed := true, play := Idle, drift := Forget(s.drift))
  }

  function Received(s: Session, now: int): Session {
    s.(lastRecv := now,
       drift := if now - s.lastRecv > GAP_US && s.tracking && s.drift.windowValid
                then Gap(s.drift, now) else s.drift)
  }

  /** A stream that is alive keeps out another one; a silent one gives way. */
  predicate Foreign(s: Session, ssrc: u32, now: int) {
    ssrc != s.flow.ssrc && s.tracking && now - s.ssrcAt < SSRC_HOLD_US
  }

  function Adopt(s: Session, ssrc: u32, now: int): Session {
    var s1 := if ssrc != s.flow.ssrc && s.tracking then Reset(s, s.flow.lost) else s;
    s1.(flow := s1.flow.(ssrc := ssrc), ssrcAt := now)
  }

  predicate Jumped(s: Session, ts: u32) {
    var jump := ToI32(ts - s.drift.lastTs);
    s.synced && (jump < -(s.rate * 5) || jump > s.rate * 5)
  }

  function Track(s: Session, ts: u32, now: int): Session
    requires s.rate > 0
  {
    if !s.tracking then
      s.(drift := Begin(s.drift, ts, now), tracking := true, needSeed := true,
         syncTs := SyncPoint(ts, s.rate), synced := false)
    else
      var d := if Jumped(s, ts) then Anchor(s.drift, ts, now) else s.drift;
      s.(drift := d.(lastTs := ts))
  }

  function Sync(s: Session, ts: u32, now: int): Session {
    if !s.synced && Ahead(ts, s.syncTs) >= 0
    then s.(synced := true, drift := Anchor(s.drift, ts, now), needSeed := true)
    else s
  }

  ghost function Sequence(s: Session, pkt: Packet, now: int): Session {
    var f := if s.needSeed then Seeded(s.flow, pkt.seqno) else s.flow;
    match Arrive(f, pkt, now)
    case Kept(g) => s.(flow := g, needSeed := false)
    case Overflow(lost) => Reset(s, lost)
  }

  ghost function Receive(s0: Session, d: seq<byte>, now: int, no: nat): Session
    requires s0.rate > 0
  {
    if !WellFormed(d) then s0
    else
      var pkt := Parse(d, no);
      var s1 := Received(s0, now);
      if Foreign(s1, pkt.ssrc, now) then s1
      else
        var s := Sync(Track(Adopt(s1, pkt.ssrc, now), pkt.ts, now), pkt.ts, now);
        if s.synced then Sequence(s, pkt, now) else s
  }

  // ----- one pass of the reader -----

  /** The waiting rules: no sync yet, not filled yet, or nearly empty. */
  predicate MustWait(s: Session) {
    !s.synced || (if s.play == Playing then |s.flow.queue| < 8 else |s.flow.queue| < s.thres)
  }

  function Wait(s: Session): (Play, bool) {
    if !s.synced then (s.play, false)
    else if s.play == Playing then (Playing, s.drift.windowValid)
    else (Filling, false)
  }

  /** How much one read takes out of the ring. */
  function ReadLength(available: nat, len: nat): (n: nat)
    ensures n <= available && n <= len
  {
    if available > 4 then if available > len then len else (available / 4 - 1) * 4 else 0
  }

  /** The drift stage of a read that took this block. */
  function Corrected(s: Session, block: seq<byte>, len: nat, now: int): (Session, seq<byte>)
    requires s.rate > 0 && |block| % 4 == 0
  {
    var n, raw := |block|, RawDrift(s.drift, s.rate, now);
    if !s.tracking || n == 0 then (s, block)
    else (s.(drift := OnRead(s.drift, raw, n, len, |s.flow.queue|, s.flow.cap + 1, s.rate, now)),
          Edited(block, Decide(s.drift, raw, n, len, |s.flow.queue|, s.flow.cap + 1, s.rate, now)))
  }

  lemma ReadsWords(available: nat, len: nat)
    requires available % 4 == 0 && len % 4 == 0
    ensures ReadLength(available, len) % 4 == 0
  {
  }

  /** A read that goes on is taking, then correcting. */
  function Proceeds(s: Session, len: nat, now: int): (Session, seq<byte>)
    requires s.rate > 0 && len % 4 == 0 && |s.flow.queue| % 4 == 0
  {
    ReadsWords(|s.flow.queue|, len);
    var n := ReadLength(|s.flow.queue|, len);
    Corrected(s.(play := Playing, flow := Take(s.flow, n)), s.flow.queue[..n], len, now)
  }

  /** One pass of the reader with room for len bytes: the new state and the block
      handed out, empty when it has to wait. */
  function Read(s: Session, len: nat, now: int): (r: (Session, seq<byte>))
    requires s.rate > 0 && len % 4 == 0 && |s.flow.queue| % 4 == 0
  {
    if MustWait(s) then
      var (play, underrun) := Wait(s);
      (s.(play := play, drift := if underrun then Gap(s.drift, now) else s.drift), [])
    else Proceeds(s, len, now)
  }
}
