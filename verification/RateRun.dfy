/** A run from a freshly opened stream in which the stored drift rate leaves its
    bounds: a sender at 48 kHz whose timestamps step ahead by less than five seconds
    from packet to packet, and one read exactly 31.25 s after the window opened. */
module RateRun {
  import opened Arithmetic
  import opened Words
  import opened ByteArrays
  import opened Reorder
  import opened DriftClock
  import opened RtpSession
  import opened SessionRuns

  const RATE: u32 := 48_000
  /** The sync point of a stream that begins with timestamp 0. */
  const START: u32 := 96_000
  /** The times of the packet at the sync point, of the read that opens the window and
      of the read that closes it. */
  const BEGINS := 2_000_000
  const OPENS := 17_000_000
  const CLOSES := 48_250_000
  /** Packets of the climb, their spacing in time and in timestamps. */
  const CLIMB := 390
  const EVERY_US := 80_000
  const STEP := 175_900
  const LAST: u32 := 68_704_864
  /** Payloads: packets that fill the ring up to playing, and the small ones after them. */
  const FILL := 1440
  const SMALL := 4

  // ----- runs, event by event -----

  /** The events are a legal run from s0 that ends in s at time at. */
  ghost predicate Leads(s0: Session, t: int, events: seq<Event>, s: Session, at: int) {
    Good(s0, t) && Legal(events, t) && TimeAfter(events, t) == at && Run(s0, t, events) == s
  }

  lemma LegalSnoc(events: seq<Event>, t: int, e: Event)
    requires Legal(events, t) && Welcome(e) && TimeAfter(events, t) <= e.at
    ensures Legal(events + [e], t)
  {
    var all := events + [e];
    forall i | 0 <= i < |all|
      ensures Welcome(all[i]) && t <= all[i].at <= e.at
    {
      if i < |events| {
        assert all[i] == events[i];
        assert i < |events| - 1 ==> events[i].at <= events[|events| - 1].at;
      } else if events != [] {
        assert t <= events[|events| - 1].at;
      }
    }
    forall i, j | 0 <= i < j < |all|
      ensures all[i].at <= all[j].at
    {
      assert all[i] == events[i];
      assert j < |events| ==> all[j] == events[j];
    }
  }

  lemma Onward(s0: Session, t: int, events: seq<Event>, s: Session, at: int, e: Event)
    requires Leads(s0, t, events, s, at) && Welcome(e) && at <= e.at
    ensures Good(s, at)
    ensures Leads(s0, t, events + [e], Happen(s, e, at, |events|), e.at)
  {
    LegalSnoc(events, t, e);
    RunSnoc(s0, t, events, e);
    hide Run, Happen, Good, Legal;
  }

  lemma OnwardDatagram(s0: Session, t: int, events: seq<Event>, s: Session, at: int, d: seq<byte>, now: int)
    requires Leads(s0, t, events, s, at) && at <= now
    ensures s.rate > 0
    ensures Leads(s0, t, events + [Datagram(d, now)], Receive(s, d, now, |events|), now)
  {
    hide Receive, Leads;
    Onward(s0, t, events, s, at, Datagram(d, now));
    GoodRate(s, at);
  }

  lemma OnwardReading(s0: Session, t: int, events: seq<Event>, s: Session, at: int, len: nat, now: int)
    requires Leads(s0, t, events, s, at) && at <= now && len % 4 == 0
    ensures s.rate > 0 && |s.flow.queue| % 4 == 0
    ensures Leads(s0, t, events + [Reading(len, now)], Read(s, len, now).0, now)
  {
    hide Read, Leads;
    Onward(s0, t, events, s, at, Reading(len, now));
    GoodRate(s, at);
    QueueAligned(s, at);
  }

  // ----- the head of the run -----

  /** The first datagram starts the tracking. */
  lemma Tracked(s: Session, d: seq<byte>, now: int, no: nat)
    requires !s.tracking && !s.synced && WellFormed(d) && Parse(d, no).ssrc == s.flow.ssrc
    requires 0 < s.rate && s.rate * 5 < 0x8000_0000
    ensures var s', ts := Receive(s, d, now, no), Parse(d, no).ts;
            s' == s.(tracking := true, needSeed := true, syncTs := SyncPoint(ts, s.rate), ssrcAt := now,
                     lastRecv := now, drift := Begin(s.drift, ts, now))
  {
    hide Parse, Arrive, SyncPoint, Ahead;
    SyncPointAhead(Parse(d, no).ts, s.rate);
  }

  /** A datagram at the sync point anchors the drift and seeds the numbering. */
  lemma Anchored(s: Session, d: seq<byte>, now: int, no: nat)
    requires s.tracking && !s.synced && 0 < s.rate && WellFormed(d) && !s.drift.windowValid
    requires var pkt := Parse(d, no);
             && pkt.ssrc == s.flow.ssrc && Ahead(pkt.ts, s.syncTs) >= 0
             && Arrive(Seeded(s.flow, pkt.seqno), pkt, now).Kept?
    ensures var s', pkt := Receive(s, d, now, no), Parse(d, no);
            s' == s.(synced := true, needSeed := false, ssrcAt := now, lastRecv := now,
                     flow := Arrive(Seeded(s.flow, pkt.seqno), pkt, now).flow,
                     drift := Anchor(s.drift.(lastTs := pkt.ts), pkt.ts, now))
  {
    hide Parse, Arrive, Ahead, Seeded;
  }

  /** A stream in its epoch, with nothing waiting in the window. */
  ghost predicate Even(s: Session) {
    && s.synced && s.tracking && !s.needSeed && s.rate == RATE
    && s.flow.ssrc == 0 && s.flow.held == map[]
  }

  /** What one packet in order leaves: its bytes in the ring, its timestamp in the
      drift, and nothing else of the drift changed. */
  lemma InOrder(s: Session, d: seq<byte>, now: int, no: nat)
    requires Even(s) && WellFormed(d)
    requires now - s.lastRecv <= GAP_US || !s.drift.windowValid
    requires var pkt := Parse(d, no);
             && pkt.ssrc == 0 && pkt.seqno == ToU16(s.flow.next)
             && -240_000 <= pkt.ts as int - s.drift.lastTs as int <= 240_000
             && 0 < |pkt.payload| <= s.flow.cap - |s.flow.queue|
    ensures var s', pkt := Receive(s, d, now, no), Parse(d, no);
            && Even(s') && s'.drift == s.drift.(lastTs := pkt.ts) && s'.lastRecv == now
            && s'.flow.next == s.flow.next + 1 && s'.flow.cap == s.flow.cap
            && s'.flow.queue == s.flow.queue + pkt.payload && s'.play == s.play && s'.thres == s.thres
  {
    TakesExpected(s.flow, Parse(d, no), now);
    hide Parse, Arrive;
  }

  /** A stream just anchored, before any window was opened. */
  ghost predicate Quiet(d: Drift) {
    d.firstTs == d.lastTs == START && d.startUs == BEGINS && !d.windowValid && d.rate == 0 && d.debt == 0
  }

  /** A stream whose window was opened by the read at OPENS, with no rate measured yet. */
  ghost predicate Armed(d: Drift) {
    && d.firstTs == START && d.startUs == BEGINS && d.windowValid && d.windowRaw == -720_000
    && d.windowStartUs == OPENS && d.rate == 0
  }

  /** The ring has this room, holds so much, and the number expected is this one. */
  ghost predicate Holds(s: Session, cap: nat, queued: nat, next: int) {
    s.flow.cap == cap && |s.flow.queue| == queued && s.flow.next == next
  }

  lemma WirePacket(s: Session, seqno: u16, ts: u32, n: nat, now: int, no: nat)
    requires Even(s) && n % 4 == 0 && 0 < n <= s.flow.cap - |s.flow.queue| && seqno == ToU16(s.flow.next)
    requires now - s.lastRecv <= GAP_US || !s.drift.windowValid
    requires -240_000 <= ts as int - s.drift.lastTs as int <= 240_000
    ensures var s' := Receive(s, Wire(seqno, ts, n), now, no);
            && Even(s') && s'.drift == s.drift.(lastTs := ts) && s'.lastRecv == now
            && s'.play == s.play && s'.thres == s.thres
            && Holds(s', s.flow.cap, |s.flow.queue| + n, s.flow.next + 1)
  {
    WireParses(seqno, ts, n, no);
    hide Parse, Wire, Receive, ToU16;
    InOrder(s, Wire(seqno, ts, n), now, no);
  }

  /** The read that opens the window takes one frame and corrects nothing. */
  lemma OpensWindow(d: Drift, raw: i32, wr: nat, len: nat, fill: nat, bufsize: nat, sampleRate: nat, now: int)
    requires Quiet(d) && sampleRate > 0 && now == OPENS && raw == -720_000
    ensures Armed(OnRead(d, raw, wr, len, fill, bufsize, sampleRate, now))
    ensures OnRead(d, raw, wr, len, fill, bufsize, sampleRate, now).lastTs == d.lastTs
  {
    hide Slope;
  }

  lemma RawAtOpening(d: Drift, now: int)
    requires Quiet(d) && now == OPENS
    ensures RawDrift(d, RATE, now) == -720_000
  {
  }

  /** A small read of a playing, or full enough, stream takes one frame. */
  lemma SmallRead(s: Session, len: nat, now: int)
    requires s.synced && s.rate > 0 && |s.flow.queue| % 4 == 0 && len == 4
    requires |s.flow.queue| >= 8 && |s.flow.queue| >= s.thres
    ensures var s' := Read(s, len, now).0;
            && s'.play == Playing && s'.flow == Take(s.flow, 4)
            && (s.tracking ==> s'.drift == OnRead(s.drift, RawDrift(s.drift, s.rate, now), 4, 4, |s'.flow.queue|,
                                                  s.flow.cap + 1, s.rate, now))
            && s' == s.(play := s'.play, flow := s'.flow, drift := s'.drift)
  {
    hide OnRead, RawDrift, Decide, Edited;
  }

  lemma OpeningRead(s: Session, len: nat, now: int)
    requires Even(s) && Quiet(s.drift) && |s.flow.queue| % 4 == 0 && len == 4 && now == OPENS
    requires |s.flow.queue| >= 8 && |s.flow.queue| >= s.thres
    ensures var s' := Read(s, len, now).0;
            && Even(s') && Armed(s'.drift) && s'.drift.lastTs == s.drift.lastTs && s'.play == Playing
            && s'.lastRecv == s.lastRecv && Holds(s', s.flow.cap, |s.flow.queue| - 4, s.flow.next)
  {
    SmallRead(s, len, now);
    RawAtOpening(s.drift, now);
    hide Read, OnRead, RawDrift;
    OpensWindow(s.drift, -720_000, 4, 4, |s.flow.queue| - 4, s.flow.cap + 1, s.rate, now);
  }

  // ----- the run -----

  /** Rings that play once n of the large packets came, and then have room for the
      small ones. */
  ghost predicate Roomy(cap: nat, thres: nat, n: nat) {
    0 < n <= 1000 && thres <= FILL * n && FILL * n + 2000 <= cap
  }

  /** The stream begins, reaches its sync point, and fills the ring with n packets. */
  function Filled(n: nat): (events: seq<Event>)
    requires 0 < n <= 1000
    ensures |events| == n + 1
  {
    if n == 1 then [Datagram(Wire(0, 0, SMALL), 0)] + [Datagram(Wire(0, START, FILL), BEGINS)]
    else Filled(n - 1) + [Filler(n)]
  }

  function Filler(n: nat): (e: Event)
    requires 0 < n <= 1000
    ensures e.Datagram? && e.at == BEGINS + 1000 * n
  {
    Datagram(Wire(n - 1, START, FILL), BEGINS + 1000 * n)
  }

  /** The window is opened. */
  function Head(n: nat): (events: seq<Event>)
    requires 0 < n <= 1000
    ensures |events| == n + 3
  {
    Filled(n) + [Rung(n, 0)] + [Reading(4, OPENS)]
  }

  function Rung(n: nat, k: nat): (e: Event)
    requires 0 < n <= 1000 && k <= CLIMB
    ensures e.Datagram? && e.at == OPENS + EVERY_US * k
  {
    Datagram(Wire(n + k, START + STEP * k, SMALL), OPENS + EVERY_US * k)
  }

  /** k packets of the climb behind the head. */
  function Climb(n: nat, k: nat): (events: seq<Event>)
    requires 0 < n <= 1000 && k <= CLIMB
    ensures |events| == n + k + 3
  {
    if k == 0 then Head(n) else Climb(n, k - 1) + [Rung(n, k)]
  }

  /** The packet that brings the sum to the fatal value. */
  function Top(n: nat): (e: Event)
    requires 0 < n <= 1000
    ensures e.Datagram? && e.at == CLOSES
  {
    Datagram(Wire(n + CLIMB + 1, LAST, SMALL), CLOSES)
  }

  /** The whole run, with the read that sees it. */
  function FatalRun(n: nat): seq<Event>
    requires 0 < n <= 1000
  {
    Climb(n, CLIMB) + [Top(n)] + [Reading(4, CLOSES)]
  }

  ghost predicate Full(s: Session, cap: nat, thres: nat, n: nat) {
    Even(s) && Quiet(s.drift) && s.thres == thres && Holds(s, cap, FILL * n, n)
  }

  ghost predicate Up(s: Session, cap: nat, n: nat, k: nat) {
    && Even(s) && Armed(s.drift) && s.play == Playing
    && s.drift.lastTs == START + STEP * k && s.lastRecv == OPENS + EVERY_US * k
    && Holds(s, cap, FILL * n + SMALL * k, n + k + 1)
  }

  lemma Begins(cap: nat, thres: nat) returns (s: Session)
    requires FILL <= cap
    ensures Leads(Opened(RATE, cap, thres, 0), 0, Filled(1), s, BEGINS) && Full(s, cap, thres, 1)
  {
    var s0, first: u32, zero: u16 := Opened(RATE, cap, thres, 0), 0, 0;
    var e0, e1 := Datagram(Wire(zero, first, SMALL), 0), Datagram(Wire(zero, START, FILL), BEGINS);
    OpenedGood(RATE, cap, thres, 0);
    assert Leads(s0, 0, [], s0, 0);
    assert [] + [e0] == [e0];
    WireParses(zero, first, SMALL, 0);
    WireParses(zero, START, FILL, 1);
    assert Ahead(START, SyncPoint(first, RATE)) >= 0;
    hide Wire, Parse, Receive, Leads, Arrive, Ahead, SyncPoint;
    Tracked(s0, e0.d, e0.at, 0);
    OnwardDatagram(s0, 0, [], s0, 0, e0.d, e0.at);
    var s1 := Receive(s0, e0.d, e0.at, 0);
    TakesExpected(Seeded(s1.flow, zero), Parse(e1.d, 1), e1.at);
    Anchored(s1, e1.d, e1.at, 1);
    OnwardDatagram(s0, 0, [e0], s1, e0.at, e1.d, e1.at);
    s := Receive(s1, e1.d, e1.at, 1);
  }

  lemma {:induction false} FillingLeads(cap: nat, thres: nat, n: nat) returns (s: Session)
    requires 0 < n <= 1000 && FILL * n <= cap
    ensures Leads(Opened(RATE, cap, thres, 0), 0, Filled(n), s, if n == 1 then BEGINS else BEGINS + 1000 * n)
    ensures Full(s, cap, thres, n)
  {
    if n == 1 {
      hide Leads, Filled, Full;
      s := Begins(cap, thres);
    } else {
      hide Leads, Full, Wire, Receive;
      var s1 := FillingLeads(cap, thres, n - 1);
      var e := Filler(n);
      Fills(s1, cap, thres, n, e);
      OnwardDatagram(Opened(RATE, cap, thres, 0), 0, Filled(n - 1), s1,
                     if n == 2 then BEGINS else BEGINS + 1000 * (n - 1), e.d, e.at);
      s := Receive(s1, e.d, e.at, n);
    }
  }

  lemma Fills(s: Session, cap: nat, thres: nat, n: nat, e: Event)
    requires 1 < n <= 1000 && FILL * n <= cap && Full(s, cap, thres, n - 1) && e == Filler(n)
    ensures s.rate > 0 && Full(Receive(s, e.d, e.at, n), cap, thres, n)
  {
    hide Wire, Receive;
    WirePacket(s, n - 1, START, FILL, e.at, n);
  }

  lemma HeadLeads(cap: nat, thres: nat, n: nat) returns (s: Session)
    requires Roomy(cap, thres, n)
    ensures Leads(Opened(RATE, cap, thres, 0), 0, Head(n), s, OPENS) && Up(s, cap, n, 0)
  {
    hide Wire, Receive, Read, Leads, Filled;
    var s0, e, last := Opened(RATE, cap, thres, 0), Rung(n, 0), Reading(4, OPENS);
    var s1 := FillingLeads(cap, thres, n);
    WirePacket(s1, n, START, SMALL, e.at, n + 1);
    OnwardDatagram(s0, 0, Filled(n), s1, if n == 1 then BEGINS else BEGINS + 1000 * n, e.d, e.at);
    var s2 := Receive(s1, e.d, e.at, n + 1);
    assert |s2.flow.queue| % 4 == 0;
    OpeningRead(s2, last.len, last.at);
    OnwardReading(s0, 0, Filled(n) + [e], s2, e.at, last.len, last.at);
    s := Read(s2, last.len, last.at).0;
  }

  lemma {:induction false} ClimbLeads(cap: nat, thres: nat, n: nat, k: nat) returns (s: Session)
    requires Roomy(cap, thres, n) && 0 < n <= 1000 && k <= CLIMB
    ensures Leads(Opened(RATE, cap, thres, 0), 0, Climb(n, k), s, OPENS + EVERY_US * k) && Up(s, cap, n, k)
  {
    hide *;
    if k == 0 {
      s := HeadLeads(cap, thres, n);
      ClimbStarts(n, k);
    } else {
      var s1 := ClimbLeads(cap, thres, n, k - 1);
      var e := Rung(n, k);
      Climbs(s1, cap, thres, n, k, e);
      ClimbGrows(n, k);
      OnwardDatagram(Opened(RATE, cap, thres, 0), 0, Climb(n, k - 1), s1, OPENS + EVERY_US * (k - 1), e.d, e.at);
      s := Receive(s1, e.d, e.at, n + k + 2);
    }
  }

  lemma ClimbStarts(n: nat, k: nat)
    requires k == 0 && 0 < n <= 1000
    ensures Climb(n, k) == Head(n) && OPENS + EVERY_US * k == OPENS
  {
    hide Head;
  }

  lemma ClimbGrows(n: nat, k: nat)
    requires 0 < k <= CLIMB && 0 < n <= 1000
    ensures Climb(n, k) == Climb(n, k - 1) + [Rung(n, k)]
    ensures OPENS + EVERY_US * (k - 1) <= Rung(n, k).at
  {
  }

  lemma Climbs(s: Session, cap: nat, thres: nat, n: nat, k: nat, e: Event)
    requires 0 < k <= CLIMB && Roomy(cap, thres, n) && Up(s, cap, n, k - 1) && e == Rung(n, k)
    ensures s.rate > 0 && Up(Receive(s, e.d, e.at, n + k + 2), cap, n, k)
  {
    hide Wire, Receive;
    WirePacket(s, n + k, START + STEP * k, SMALL, e.at, n + k + 2);
  }

  lemma FatalRaw(d: Drift, now: int)
    requires Armed(d) && d.lastTs == LAST && now == CLOSES
    ensures RawDrift(d, RATE, now) == 66_388_864
  {
  }

  /** The read at the end closes the window with the most negative slope. */
  lemma LastOverturns(s: Session, e: Event)
    requires Even(s) && Armed(s.drift) && s.drift.lastTs == LAST && s.play == Playing
    requires |s.flow.queue| >= 8 && |s.flow.queue| % 4 == 0 && e == Reading(4, CLOSES)
    ensures Overturns(s, e)
  {
    FatalRaw(s.drift, e.at);
    hide RawDrift, Slope;
    var delta: i32, span := 67_108_864, e.at - OPENS;
    Overflowing(delta, span);
    assert Closes(s, e, delta);
  }

  lemma {:induction false} RunOverturns(cap: nat, thres: nat, n: nat)
    requires Roomy(cap, thres, n)
    ensures var s0, events := Opened(RATE, cap, thres, 0), FatalRun(n);
            && Good(s0, 0) && Legal(events, 0) && !PlausibleThroughout(s0, 0, events)
            && Run(s0, 0, events).drift.rate == -0x8000_0000
  {
    hide Wire, Receive, Read, Leads, Climb, Overturns;
    var s0, e, last := Opened(RATE, cap, thres, 0), Top(n), Reading(4, CLOSES);
    var s1 := ClimbLeads(cap, thres, n, CLIMB);
    WirePacket(s1, n + CLIMB + 1, LAST, SMALL, CLOSES, n + CLIMB + 3);
    OnwardDatagram(s0, 0, Climb(n, CLIMB), s1, OPENS + EVERY_US * CLIMB, e.d, CLOSES);
    var s2 := Receive(s1, e.d, CLOSES, n + CLIMB + 3);
    assert |s2.flow.queue| % 4 == 0;
    LastOverturns(s2, last);
    EndsImplausible(s0, 0, Climb(n, CLIMB) + [e], s2, CLOSES, last);
  }

  /** For every jitter buffer the options allow, from 20 to 200 ms, there is a run from
      a stream opened at 48 kHz that ends with a stored rate of -2147483648. */
  lemma {:induction false} RateLeavesBounds(ms: nat) returns (n: nat)
    requires 20 <= ms <= 200
    ensures 0 < n <= 1000
    ensures var size := BufferSize(RATE, ms);
            var s0, events := Opened(RATE, size - 1, size / 2, 0), FatalRun(n);
            && Good(s0, 0) && Legal(events, 0) && !PlausibleThroughout(s0, 0, events)
            && Run(s0, 0, events).drift.rate == -0x8000_0000
  {
    hide *;
    n := Room(ms);
    RunOverturns(BufferSize(RATE, ms) - 1, BufferSize(RATE, ms) / 2, n);
  }

  lemma Room(ms: nat) returns (n: nat)
    requires 20 <= ms <= 200
    ensures 0 < n <= 1000 && Roomy(BufferSize(RATE, ms) - 1, BufferSize(RATE, ms) / 2, n)
  {
    RingSize(192_000 * ms, ms);
    assert RATE as int * FRAME * ms == 192_000 * ms;
    assert BufferSize(RATE, ms) == 576 * ms;
    hide BufferSize;
    n := 288 * ms / FILL + 1;
    Division(288 * ms, FILL);
  }

  lemma RingSize(product: i32, ms: nat)
    requires product == 192_000 * ms && 20 <= ms
    ensures SizeFor(product) == 576 * ms
  {
    DivisionIs(product, 1000, 192 * ms, 0);
    DivisionIs(192 * ms + 3, 4, 48 * ms, 3);
  }

  /** All its datagrams fit the packet buffer of 1600 octets. */
  lemma {:induction false} RunFits(n: nat)
    requires 0 < n <= 1000
    ensures forall e :: e in FatalRun(n) && e.Datagram? ==> |e.d| <= 1600
  {
    ClimbFits(n, CLIMB);
    hide Wire, Climb;
  }

  lemma {:induction false} ClimbFits(n: nat, k: nat)
    requires 0 < n <= 1000 && k <= CLIMB
    ensures forall e :: e in Climb(n, k) && e.Datagram? ==> |e.d| <= 1600
  {
    hide Wire, Filled;
    if k == 0 {
      FilledFits(n);
    } else {
      ClimbFits(n, k - 1);
    }
  }

  lemma {:induction false} FilledFits(n: nat)
    requires 0 < n <= 1000
    ensures forall e :: e in Filled(n) && e.Datagram? ==> |e.d| <= 1600
  {
    hide Wire;
    if n > 1 {
      FilledFits(n - 1);
    }
  }

  lemma EndsImplausible(s0: Session, t: int, events: seq<Event>, s: Session, at: int, e: Event)
    requires Leads(s0, t, events, s, at) && Welcome(e) && at <= e.at && Plausible(s.drift)
    requires s.rate > 0 && |s.flow.queue| % 4 == 0 && Overturns(s, e)
    ensures Legal(events + [e], t) && !PlausibleThroughout(s0, t, events + [e])
    ensures Run(s0, t, events + [e]).drift.rate == -0x8000_0000
  {
    Onward(s0, t, events, s, at, e);
    RateAfter(s, e, at, |events|);
    hide Overturns, Run, Happen;
    DriftBounds(s0, t, events + [e]);
  }
}
