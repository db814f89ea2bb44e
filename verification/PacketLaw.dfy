/** What a datagram does to the stream around the packet path: which datagrams are
    passed over, when another stream takes over, and what becomes of the drift. */
module PacketLaw {
  import opened Words
  import opened Reorder
  import opened DriftClock
  import opened RtpSession

  /** More than 80 ms without a datagram, while a window is open. */
  predicate LongGap(s: Session, now: int) {
    s.tracking && s.drift.windowValid && now - s.lastRecv > 80_000
  }

  /** What a gap leaves of the drift. */
  function Spoilt(s: Session, now: int): Drift {
    if LongGap(s, now) then s.drift.(windowValid := false, debt := 0, rate := 0, startUs := now) else s.drift
  }

  /** A datagram below twelve octets or not of whole words is as none. */
  lemma MalformedIsIgnored(s: Session, d: seq<byte>, now: int, no: nat)
    requires s.rate > 0 && (|d| < 12 || |d| % 4 != 0)
    ensures Receive(s, d, now, no) == s
  {
  }

  /** While a stream was heard within the last second, a datagram of another one changes
      nothing but the time of the last datagram. */
  lemma OtherStreamIsKeptOut(s: Session, d: seq<byte>, now: int, no: nat)
    requires s.rate > 0 && s.tracking && |d| >= 12 && |d| % 4 == 0 && Parse(d, no).ssrc != s.flow.ssrc
    requires now - s.ssrcAt < 1_000_000
    ensures Receive(s, d, now, no) == s.(lastRecv := now, drift := Spoilt(s, now))
  {
    hide Parse;
  }

  /** From a second on it takes over: ring and window are empty, it has a sync point of
      its own ahead, and drift tracking begins with it. */
  lemma OtherStreamTakesOver(s: Session, d: seq<byte>, now: int, no: nat)
    requires 0 < s.rate && s.rate * 5 < 0x8000_0000 && s.tracking && |d| >= 12 && |d| % 4 == 0
    requires Parse(d, no).ssrc != s.flow.ssrc && now - s.ssrcAt >= 1_000_000
    ensures var s', pkt := Receive(s, d, now, no), Parse(d, no);
            && s'.flow.ssrc == pkt.ssrc && s'.tracking && !s'.synced && s'.ssrcAt == now && s'.play == Idle
            && s'.flow.queue == [] && s'.flow.held == map[] && s'.flow.out == [] && s'.flow.taken == []
            && s'.flow.lost == s.flow.lost && s'.syncTs == SyncPoint(pkt.ts, s.rate)
            && Begun(s'.drift, pkt.ts, now)
  {
    hide Parse, SyncPoint, RtpSession.Ahead;
    SyncPointAhead(Parse(d, no).ts, s.rate);
  }

  /** Drift tracking as the first packet of a stream leaves it. */
  predicate Begun(d: Drift, ts: u32, now: int) {
    && d.firstTs == d.lastTs == ts && d.startUs == now && d.lastFixUs == now && !d.windowValid
    && d.rate == 0 && d.debt == 0 && d.total == 0 && d.corrected == 0 && d.returned == 0
  }

  /** The first datagram of a stream fixes its sync point and waits for it. */
  lemma FirstDatagramBegins(s: Session, d: seq<byte>, now: int, no: nat)
    requires 0 < s.rate && s.rate * 5 < 0x8000_0000 && !s.tracking && |d| >= 12 && |d| % 4 == 0
    ensures var s', pkt := Receive(s, d, now, no), Parse(d, no);
            && s'.flow == s.flow.(ssrc := pkt.ssrc) && s'.tracking && !s'.synced && s'.ssrcAt == now
            && s'.syncTs == SyncPoint(pkt.ts, s.rate) && s'.play == s.play && Begun(s'.drift, pkt.ts, now)
  {
    hide Parse, SyncPoint, RtpSession.Ahead;
    SyncPointAhead(Parse(d, no).ts, s.rate);
  }

  /** The timestamp is more than five seconds away from the last one, either way, by the
      signed 32-bit difference. */
  predicate Leaps(s: Session, ts: u32) {
    var leap := ToI32(ts - s.drift.lastTs);
    leap > 5 * s.rate || leap < -5 * s.rate
  }

  /** A datagram of a synchronised stream: a gap of over 80 ms throws window, debt and
      rate away, a leap of the timestamp window and debt and all counts, but not the
      rate; otherwise the drift only learns the timestamp. */
  lemma DriftOfOwnDatagram(s: Session, d: seq<byte>, now: int, no: nat)
    requires 0 < s.rate && s.synced && s.tracking && !s.needSeed && |d| >= 12 && |d| % 4 == 0
    requires Parse(d, no).ssrc == s.flow.ssrc && Arrive(s.flow, Parse(d, no), now).Kept?
    ensures var s', ts := Receive(s, d, now, no), Parse(d, no).ts;
            var gap, leap := LongGap(s, now), Leaps(s, ts);
            && s'.flow == Arrive(s.flow, Parse(d, no), now).flow && s'.synced && s'.lastRecv == s'.ssrcAt == now
            && s'.drift.lastTs == ts && s'.drift.lastFixUs == s.drift.lastFixUs
            && s'.drift.rate == (if gap then 0 else s.drift.rate)
            && s'.drift.debt == (if gap || leap then 0 else s.drift.debt)
            && s'.drift.windowValid == (s.drift.windowValid && !gap && !leap)
            && s'.drift.startUs == (if gap || leap then now else s.drift.startUs)
            && s'.drift.firstTs == (if leap then ts else s.drift.firstTs)
            && s'.drift.total == (if leap then 0 else s.drift.total)
            && s'.drift.corrected == (if leap then 0 else s.drift.corrected)
  {
    hide Parse, Arrive, ToI32;
  }

  /** Before the sync point a datagram of the stream is passed over; the first one at or
      after it seeds the numbering and anchors the drift. */
  lemma SyncPointIsReached(s: Session, d: seq<byte>, now: int, no: nat)
    requires 0 < s.rate && !s.synced && s.tracking && |d| >= 12 && |d| % 4 == 0
    requires Parse(d, no).ssrc == s.flow.ssrc
    requires Arrive(Seeded(s.flow, Parse(d, no).seqno), Parse(d, no), now).Kept?
    ensures var s', pkt := Receive(s, d, now, no), Parse(d, no);
            if ToI32(pkt.ts - s.syncTs) < 0 then !s'.synced && s'.flow == s.flow
            else
              && s'.synced && !s'.needSeed
              && s'.flow == Arrive(Seeded(s.flow, pkt.seqno), pkt, now).flow
              && s'.drift.firstTs == s'.drift.lastTs == pkt.ts && s'.drift.startUs == now
              && !s'.drift.windowValid && s'.drift.debt == 0 && s'.drift.total == s'.drift.corrected == 0
              && s'.drift.rate == (if LongGap(s, now) then 0 else s.drift.rate)
  {
    hide Parse, Arrive, ToI32, Seeded;
  }

  /** A packet that the ring cannot take resets the stream: not synchronised, nothing
      queued or waiting, no window open; only the loss count and the rate stay. */
  lemma OverflowResets(s: Session, d: seq<byte>, now: int, no: nat)
    requires 0 < s.rate && s.synced && s.tracking && !s.needSeed && |d| >= 12 && |d| % 4 == 0
    requires Parse(d, no).ssrc == s.flow.ssrc && Arrive(s.flow, Parse(d, no), now).Overflow?
    ensures var s' := Receive(s, d, now, no);
            && !s'.synced && !s'.tracking && s'.flow.queue == [] && s'.flow.held == map[] && s'.play == Idle
            && s'.flow.lost == Arrive(s.flow, Parse(d, no), now).lost && s'.flow.out == [] && s'.flow.taken == []
            && !s'.drift.windowValid && s'.drift.debt == 0
            && s'.drift.rate == (if LongGap(s, now) then 0 else s.drift.rate)
  {
    hide Parse, Arrive, ToI32;
  }

  /** A read of a playing stream that finds fewer than two frames throws an open window
      away, with debt and rate; every other read that has to wait leaves the drift alone. */
  lemma UnderrunSpoilsDrift(s: Session, len: nat, now: int)
    requires s.rate > 0 && len % 4 == 0 && |s.flow.queue| % 4 == 0
    requires !s.synced || |s.flow.queue| < if s.play == Playing then 8 else s.thres
    ensures var s' := Read(s, len, now).0;
            && Read(s, len, now).1 == [] && s'.flow == s.flow
            && s'.drift == if s.synced && s.play == Playing && s.drift.windowValid
                           then s.drift.(windowValid := false, debt := 0, rate := 0, startUs := now) else s.drift
  {
  }
}
