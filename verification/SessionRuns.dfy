/** What holds over every run of the receiver, for any datagrams, any reads and
    any address switches, as long as the clock does not run backwards. */
module SessionRuns {
  import opened Words
  import opened ByteArrays
  import opened Reorder
  import opened DriftClock
  import opened RtpSession

  datatype Event =
    | Datagram(d: seq<byte>, at: int)
    | Reading(len: nat, at: int)
    | Switch(at: int)

  ghost predicate Blank(f: Flow) {
    && f.held == map[] && f.queue == [] && f.out == [] && f.taken == []
    && f.heard == {} && f.lost == f.lost0
  }

  /** The first packet written is one that reached the sync point. */
  ghost predicate FromSync(s: Session) {
    s.flow.out != [] && Ahead(s.flow.out[0].src.pkt.ts, s.syncTs) >= 0
  }

  /** The invariant of the receiver at time t. */
  ghost predicate Good(s: Session, t: int) {
    && s.rate > 0 && s.rate * 5 < 0x8000_0000
    && (if s.synced then s.tracking && !s.needSeed && Reorder.Inv(s.flow) && Complete(s.flow) && FromSync(s)
        else Blank(s.flow))
    && s.ssrcAt <= t && Steady(s.drift, t)
  }

  lemma OpenedGood(rate: u32, cap: nat, thres: nat, at: int)
    requires rate > 0 && rate * 5 < 0x8000_0000 && at >= 0
    ensures Good(Opened(rate, cap, thres, at), at)
  {
  }

  ghost predicate Welcome(e: Event) {
    e.Reading? ==> e.len % 4 == 0
  }

  /** One event, number `no` of its run. */
  ghost function Happen(s: Session, e: Event, t: int, no: nat): Session
    requires Good(s, t) && Welcome(e)
  {
    match e
    case Datagram(d, at) => Receive(s, d, at, no)
    case Reading(len, at) => QueueAligned(s, t); Read(s, len, at).0
    case Switch(at) => Reset(s, s.flow.lost)
  }

  lemma QueueAligned(s: Session, t: int)
    requires Good(s, t)
    ensures |s.flow.queue| % 4 == 0 && (s.synced ==> |s.flow.queue| <= s.flow.cap)
  {
  }

  // ----- one event -----

  lemma AdoptGood(s: Session, ssrc: u32, t: int, now: int)
    requires Good(s, t) && t <= now && !Foreign(s, ssrc, now)
    ensures Good(Adopt(s, ssrc, now), now) && Adopt(s, ssrc, now).flow.ssrc == ssrc
  {
    hide Reorder.Inv;
    if ssrc != s.flow.ssrc && s.tracking {
      assert Blank(Reset(s, s.flow.lost).flow);
    } else {
      assert s.flow.(ssrc := ssrc) == s.flow || Blank(s.flow.(ssrc := ssrc));
    }
  }

  lemma TrackGood(s: Session, ts: u32, t: int, now: int)
    requires Good(s, t) && t <= now
    ensures Good(Track(s, ts, now), now) && Track(s, ts, now).flow == s.flow && Track(s, ts, now).tracking
  {
    hide Reorder.Inv;
    PacketsKeepSteady(s.drift, ts, t, now);
    PacketsKeepSteady(Anchor(s.drift, ts, now), ts, now, now);
  }

  ghost predicate Sequenceable(s: Session, ts: u32, now: int) {
    && s.rate > 0 && s.rate * 5 < 0x8000_0000 && s.tracking && s.ssrcAt <= now && Steady(s.drift, now)
    && if s.needSeed then Blank(s.flow) && Ahead(ts, s.syncTs) >= 0
       else Reorder.Inv(s.flow) && Complete(s.flow) && FromSync(s)
  }

  lemma SequenceGood(s: Session, pkt: Packet, now: int)
    requires s.synced && Sequenceable(s, pkt.ts, now)
    requires pkt.ssrc == s.flow.ssrc && |pkt.payload| % 4 == 0
    ensures Good(Sequence(s, pkt, now), now)
  {
    hide Arrive;
    hide Reorder.Inv;
    var f := if s.needSeed then Seeded(s.flow, pkt.seqno) else s.flow;
    if Arrive(f, pkt, now).Kept? {
      if s.needSeed {
        SeedSound(s.flow, pkt, now);
      } else {
        ArriveSound(s.flow, pkt, now);
        ArriveComplete(s.flow, pkt, now);
      }
    }
  }

  lemma SyncGood(s: Session, ts: u32, now: int)
    requires Good(s, now) && s.tracking
    ensures var s' := Sync(s, ts, now);
            && s'.flow == s.flow
            && (if s'.synced then Sequenceable(s', ts, now) else Good(s', now))
  {
    hide Reorder.Inv;
    PacketsKeepSteady(s.drift, ts, now, now);
  }

  lemma ReceiveGood(s0: Session, d: seq<byte>, t: int, now: int, no: nat)
    requires Good(s0, t) && t <= now
    ensures Good(Receive(s0, d, now, no), now)
  {
    hide Reorder.Inv, Sequence, Steady, Sync, Track, Adopt;
    PacketsKeepSteady(s0.drift, 0, t, now);
    if WellFormed(d) {
      var pkt := Parse(d, no);
      var s1 := Received(s0, now);
      if !Foreign(s1, pkt.ssrc, now) {
        AdoptGood(s1, pkt.ssrc, now, now);
        var s2 := Adopt(s1, pkt.ssrc, now);
        TrackGood(s2, pkt.ts, now, now);
        SyncGood(Track(s2, pkt.ts, now), pkt.ts, now);
        var s := Sync(Track(s2, pkt.ts, now), pkt.ts, now);
        if s.synced {
          SequenceGood(s, pkt, now);
        }
      }
    }
  }

  lemma ReadGood(s: Session, len: nat, t: int, now: int)
    requires Good(s, t) && t <= now && len % 4 == 0
    ensures |s.flow.queue| % 4 == 0
    ensures Good(Read(s, len, now).0, now)
  {
    hide Reorder.Inv;
    QueueAligned(s, t);
    if !MustWait(s) {
      var n := ReadLength(|s.flow.queue|, len);
      TakeSound(s.flow, n);
      if n != 0 {
        hide OnRead;
        OnReadSteady(s.drift, RawDrift(s.drift, s.rate, now), n, len, |Take(s.flow, n).queue|,
                     s.flow.cap + 1, s.rate, t, now);
      }
    }
  }

  lemma HappenGood(s: Session, e: Event, t: int, no: nat)
    requires Good(s, t) && Welcome(e) && t <= e.at
    ensures Good(Happen(s, e, t, no), e.at)
  {
    match e
    case Datagram(d, at) => ReceiveGood(s, d, t, at, no);
    case Reading(len, at) => ReadGood(s, len, t, at);
    case Switch(at) => PacketsKeepSteady(s.drift, 0, t, at);
  }

  /** How much a read takes: all it has room for, but one frame stays behind. */
  function Fetched(available: nat, len: nat): nat
    requires available >= 4
  {
    if len + 4 <= available then len else available - 4
  }

  /** A block of at most len bytes, made from the front of the ring by at most one
      correction. */
  ghost predicate Handed(f: Flow, f': Flow, len: nat, block: seq<byte>)
    requires len % 4 == 0 && |f.queue| % 4 == 0
  {
    && |f.queue| >= 8 && 0 < |block| <= len && |block| % 4 == 0
    && var n := Fetched(|f.queue|, len);
       && f' == Take(f, n)
       && exists action :: (action != Keep ==> n >= 16) && block == Edited(f.queue[..n], action)
  }

  /** What a read hands out: nothing while it must wait; otherwise the front of
      the ring, edited by at most one frame, a positive whole number of frames. */
  lemma ReadBlock(s: Session, len: nat, t: int, now: int)
    requires Good(s, t) && len % 4 == 0 && len > 0 && s.thres >= 8
    ensures |s.flow.queue| % 4 == 0
    ensures var (s', block) := Read(s, len, now);
            if MustWait(s) then block == [] && s'.flow == s.flow
            else Handed(s.flow, s'.flow, len, block)
  {
    hide OnRead, Measure, Choose, RawDrift, OpenWindow, Reorder.Inv, Steady, Decide, Edited;
    QueueAligned(s, t);
    if !MustWait(s) {
      var n := ReadLength(|s.flow.queue|, len);
      assert 0 < n == Fetched(|s.flow.queue|, len);
      var raw := RawDrift(s.drift, s.rate, now);
      var action := Decide(s.drift, raw, n, len, |Take(s.flow, n).queue|, s.flow.cap + 1, s.rate, now);
      BlockFits(s.drift, raw, n, len, |Take(s.flow, n).queue|, s.flow.cap + 1, s.rate, now);
      assert Read(s, len, now).0.flow == Take(s.flow, n);
      assert Read(s, len, now).1 == Edited(s.flow.queue[..n], action);
    }
  }

  // ----- runs -----

  ghost predicate Legal(events: seq<Event>, t: int) {
    && (forall i :: 0 <= i < |events| ==> Welcome(events[i]) && t <= events[i].at)
    && (forall i, j :: 0 <= i < j < |events| ==> events[i].at <= events[j].at)
  }

  function TimeAfter(events: seq<Event>, t: int): int {
    if events == [] then t else events[|events| - 1].at
  }

  ghost function Run(s: Session, t: int, events: seq<Event>): (s': Session)
    requires Good(s, t) && Legal(events, t)
    ensures Good(s', TimeAfter(events, t))
    decreases |events|
  {
    if events == [] then s
    else
      var before := events[..|events| - 1];
      HappenGood(Run(s, t, before), events[|events| - 1], TimeAfter(before, t), |before|);
      Happen(Run(s, t, before), events[|events| - 1], TimeAfter(before, t), |before|)
  }

  /** The packet is that of the datagram it names. */
  ghost predicate Came(pkt: Packet, events: seq<Event>) {
    && pkt.no < |events| && events[pkt.no].Datagram? && WellFormed(events[pkt.no].d)
    && Parse(events[pkt.no].d, pkt.no) == pkt
  }

  /** Whatever a datagram adds to the packets heard is its own packet, once. */
  ghost predicate HearsOnly(before: set<Heard>, after: set<Heard>, d: seq<byte>, no: nat) {
    exists q :: HearsAt(before, after, d, no, q)
  }

  ghost predicate HearsAt(before: set<Heard>, after: set<Heard>, d: seq<byte>, no: nat, q: int) {
    forall h :: h in after ==> h in before || (WellFormed(d) && h == Heard(q, Parse(d, no)))
  }

  lemma {:induction false} ReceiveHears(s0: Session, d: seq<byte>, now: int, no: nat)
    requires s0.rate > 0
    ensures HearsOnly(s0.flow.heard, Receive(s0, d, now, no).flow.heard, d, no)
  {
    hide Arrive, Parse, Lift;
    var q := 0;
    if WellFormed(d) {
      var pkt := Parse(d, no);
      var s1 := Received(s0, now);
      if !Foreign(s1, pkt.ssrc, now) {
        var s := Sync(Track(Adopt(s1, pkt.ssrc, now), pkt.ts, now), pkt.ts, now);
        var f := if s.needSeed then Seeded(s.flow, pkt.seqno) else s.flow;
        assert f.heard <= s0.flow.heard;
        q := Lift(f.next, pkt.seqno);
        if s.synced && Arrive(f, pkt, now).Kept? {
          ArriveHears(f, pkt, now);
        }
      }
    }
    assert HearsAt(s0.flow.heard, Receive(s0, d, now, no).flow.heard, d, no, q);
  }

  /** Each packet heard came in by the datagram it names, and each datagram is heard
      at most once. */
  ghost predicate AllCame(heard: set<Heard>, events: seq<Event>) {
    && (forall h :: h in heard ==> Came(h.pkt, events))
    && (forall h, k :: h in heard && k in heard && h.pkt.no == k.pkt.no ==> h == k)
  }

  lemma AllCameGrows(heard: set<Heard>, events: seq<Event>, e: Event)
    requires AllCame(heard, events)
    ensures AllCame(heard, events + [e])
  {
    forall h | h in heard
      ensures Came(h.pkt, events + [e])
    {
      assert Came(h.pkt, events);
    }
  }

  lemma HearsOnlyCame(before: set<Heard>, after: set<Heard>, events: seq<Event>, e: Event)
    requires AllCame(before, events) && e.Datagram? && HearsOnly(before, after, e.d, |events|)
    ensures AllCame(after, events + [e])
  {
    AllCameGrows(before, events, e);
    forall h | h in after
      ensures Came(h.pkt, events + [e])
    {
    }
    forall h, k | h in after && k in after && h.pkt.no == k.pkt.no
      ensures h == k
    {
      assert h in before ==> Came(h.pkt, events);
      assert k in before ==> Came(k.pkt, events);
    }
  }

  lemma OneMoreHeard(s: Session, e: Event, t: int, events: seq<Event>)
    requires Good(s, t) && Welcome(e) && AllCame(s.flow.heard, events)
    ensures AllCame(Happen(s, e, t, |events|).flow.heard, events + [e])
  {
    hide AllCame, Receive, Read, HearsOnly, Reorder.Inv, Complete, Steady;
    AllCameGrows(s.flow.heard, events, e);
    match e
    case Datagram(d, at) =>
      ReceiveHears(s, d, at, |events|);
      HearsOnlyCame(s.flow.heard, Receive(s, d, at, |events|).flow.heard, events, e);
    case Reading(len, at) => ReadHears(s, len, t, at);
    case Switch(at) => NothingCame(events + [e]);
  }

  lemma {:induction false} HeardCame(s: Session, t: int, events: seq<Event>)
    requires Good(s, t) && Legal(events, t) && s.flow.heard == {}
    ensures AllCame(Run(s, t, events).flow.heard, events)
    decreases |events|
  {
    if events != [] {
      hide AllCame, Happen, Good, Run, Legal, TimeAfter;
      var before, e := events[..|events| - 1], events[|events| - 1];
      assert events == before + [e];
      RunSnoc(s, t, before, e);
      HeardCame(s, t, before);
      OneMoreHeard(Run(s, t, before), e, TimeAfter(before, t), before);
    } else {
      RunNothing(s, t);
      NothingCame(events);
    }
  }

  lemma NothingCame(events: seq<Event>)
    ensures AllCame({}, events)
  {
  }

  lemma ReadHears(s: Session, len: nat, t: int, now: int)
    requires Good(s, t) && len % 4 == 0
    ensures |s.flow.queue| % 4 == 0 && Read(s, len, now).0.flow.heard == s.flow.heard
  {
    hide OnRead, Decide;
    QueueAligned(s, t);
  }

  // ----- the main results -----

  /** Each packet written is one that was received for the tracked stream, at its own
      place in the numbering, whole unless it waited in the window, which has room
      for the first 1500 bytes. */
  ghost predicate WellTold(c: Chunk, f: Flow, events: seq<Event>) {
    && Came(c.src.pkt, events) && c.src.pkt.ssrc == f.ssrc
    && f.seed <= c.src.q && ToU16(c.src.q) == c.src.pkt.seqno
    && c.body == if c.waited then Clip(c.src.pkt.payload) else c.src.pkt.payload
  }

  /** End to end. In every run, the bytes the reader took and the bytes still in
      the ring are the bodies of the packets written, in the order of the numbering,
      each packet of a datagram of its own, the first one at the sync point. */
  lemma {:induction false} EndToEnd(s0: Session, t: int, events: seq<Event>)
    requires Good(s0, t) && Legal(events, t) && s0.flow.heard == {}
    ensures var f := Run(s0, t, events).flow;
            && f.taken + f.queue == Spoken(f.out)
            && (forall c :: c in f.out ==> WellTold(c, f, events))
            && (forall j, k :: 0 <= j < k < |f.out| ==>
                  f.out[j].src.q < f.out[k].src.q && f.out[j].src.pkt.no != f.out[k].src.pkt.no)
            && (f.out != [] ==>
                  f.out[0].src.q == f.seed && Ahead(f.out[0].src.pkt.ts, Run(s0, t, events).syncTs) >= 0)
  {
    HeardCame(s0, t, events);
    hide Run, Came, Steady, Complete;
    ToldOnce(Run(s0, t, events), TimeAfter(events, t), events);
  }

  lemma ToldOnce(s: Session, t: int, events: seq<Event>)
    requires Good(s, t) && AllCame(s.flow.heard, events)
    ensures s.flow.taken + s.flow.queue == Spoken(s.flow.out)
    ensures forall c :: c in s.flow.out ==> WellTold(c, s.flow, events)
    ensures forall j, k :: 0 <= j < k < |s.flow.out| ==>
              s.flow.out[j].src.q < s.flow.out[k].src.q
              && s.flow.out[j].src.pkt.no != s.flow.out[k].src.pkt.no
    ensures s.flow.out != [] ==>
              s.flow.out[0].src.q == s.flow.seed && Ahead(s.flow.out[0].src.pkt.ts, s.syncTs) >= 0
  {
    hide Came, Steady, Complete, Ahead, Clip;
    var f := s.flow;
    forall c | c in f.out
      ensures WellTold(c, f, events)
    {
      var k :| 0 <= k < |f.out| && f.out[k] == c;
      assert ChunkWell(f, f.out[k]) && Genuine(c.src, f.ssrc);
    }
    forall j, k | 0 <= j < k < |f.out|
      ensures f.out[j].src.q < f.out[k].src.q && f.out[j].src.pkt.no != f.out[k].src.pkt.no
    {
      assert ChunkWell(f, f.out[j]) && ChunkWell(f, f.out[k]);
    }
  }

  /** A packet is cut exactly if it waited in the window and has more than 1500 bytes
      of payload; so none is cut where no datagram has over 1512 bytes. */
  lemma {:induction false} WholePackets(s0: Session, t: int, events: seq<Event>)
    requires Good(s0, t) && Legal(events, t) && s0.flow.heard == {}
    ensures forall c :: c in Run(s0, t, events).flow.out ==>
              (c.body != c.src.pkt.payload <==> c.waited && |c.src.pkt.payload| > SLOT_SIZE)
    ensures (forall i :: 0 <= i < |events| && events[i].Datagram? ==> |events[i].d| <= 12 + SLOT_SIZE) ==>
              forall c :: c in Run(s0, t, events).flow.out ==> c.body == c.src.pkt.payload
  {
    hide Run;
    EndToEnd(s0, t, events);
    forall c | c in Run(s0, t, events).flow.out
      ensures c.body != c.src.pkt.payload <==> c.waited && |c.src.pkt.payload| > SLOT_SIZE
    {
      assert WellTold(c, Run(s0, t, events).flow, events);
    }
    forall c | c in Run(s0, t, events).flow.out
      ensures |events[c.src.pkt.no].d| == 12 + |c.src.pkt.payload|
    {
      assert WellTold(c, Run(s0, t, events).flow, events);
    }
  }

  /** A sender whose timestamps do not run back with its numbering: stamps gives each
      lifted number an unbounded timestamp. */
  ghost predicate Forward(heard: set<Heard>, stamps: int -> int) {
    && (forall p, q :: p <= q ==> stamps(p) <= stamps(q))
    && (forall h :: h in heard ==> h.pkt.ts == ToU32(stamps(h.q)))
  }

  /** From such a sender, everything written is at or after the sync point: `point` is
      the unbounded timestamp the 32-bit sync point stands for. */
  lemma {:induction false} AllFromSync(s0: Session, t: int, events: seq<Event>, stamps: int -> int)
    requires Good(s0, t) && Legal(events, t) && s0.flow.heard == {}
    requires Run(s0, t, events).synced && Forward(Run(s0, t, events).flow.heard, stamps)
    ensures var s := Run(s0, t, events);
            exists point :: ToU32(point) == s.syncTs
                            && forall c :: c in s.flow.out ==> point <= stamps(c.src.q)
  {
    hide Run, Steady, Complete;
    SinceSync(Run(s0, t, events), TimeAfter(events, t), stamps);
  }

  lemma SinceSync(s: Session, t: int, stamps: int -> int)
    requires Good(s, t) && s.synced && Forward(s.flow.heard, stamps)
    ensures exists point :: ToU32(point) == s.syncTs
                            && forall c :: c in s.flow.out ==> point <= stamps(c.src.q)
  {
    hide Steady, Complete, ToU32, Ahead;
    var f := s.flow;
    assert ChunkWell(f, f.out[0]);
    var first := stamps(f.out[0].src.q);
    var e := Ahead(f.out[0].src.pkt.ts, s.syncTs);
    Distance(first, s.syncTs);
    forall c | c in f.out
      ensures first - e as int <= stamps(c.src.q)
    {
      var k :| 0 <= k < |f.out| && f.out[k] == c;
      assert ChunkWell(f, f.out[k]);
    }
  }

  lemma Distance(ts: int, point: u32)
    ensures ToU32(ts - Ahead(ToU32(ts), point) as int) == point
  {
  }

  // ----- a run that cuts a packet -----

  lemma RunSnoc(s: Session, t: int, events: seq<Event>, e: Event)
    requires Good(s, t) && Legal(events + [e], t)
    ensures Legal(events, t) && Good(Run(s, t, events), TimeAfter(events, t)) && Welcome(e)
    ensures Run(s, t, events + [e]) == Happen(Run(s, t, events), e, TimeAfter(events, t), |events|)
  {
    var all := events + [e];
    assert all[..|events|] == events && all[|events|] == e;
    forall i | 0 <= i < |events|
      ensures Welcome(events[i]) && t <= events[i].at
    {
      assert all[i] == events[i];
    }
    forall i, j | 0 <= i < j < |events|
      ensures events[i].at <= events[j].at
    {
      assert all[i] == events[i] && all[j] == events[j];
    }
    hide Happen, Good;
  }

  lemma RunDatagram(s: Session, t: int, events: seq<Event>, d: seq<byte>, at: int)
    requires Good(s, t) && Legal(events + [Datagram(d, at)], t)
    ensures Legal(events, t) && Run(s, t, events).rate > 0
    ensures Run(s, t, events + [Datagram(d, at)]) == Receive(Run(s, t, events), d, at, |events|)
  {
    hide Receive, Run, Legal;
    RunSnoc(s, t, events, Datagram(d, at));
  }

  lemma RunNothing(s: Session, t: int)
    requires Good(s, t)
    ensures Run(s, t, []) == s
  {
  }

  /** What matters of a stream in the middle of its epoch. */
  ghost predicate Midstream(s: Session, lastTs: u32) {
    s.synced && s.tracking && !s.needSeed && 0 < s.rate && s.rate * 5 < 0x8000_0000 && s.drift.lastTs == lastTs
  }

  lemma NextDatagram(s: Session, d: seq<byte>, now: int, no: nat, lastTs: u32)
    requires Midstream(s, lastTs) && WellFormed(d)
    requires var pkt := Parse(d, no);
             && pkt.ssrc == s.flow.ssrc && 0 <= pkt.ts as int - lastTs as int <= s.rate as int
             && Arrive(s.flow, pkt, now).Kept?
    ensures Receive(s, d, now, no).flow == Arrive(s.flow, Parse(d, no), now).flow
    ensures Midstream(Receive(s, d, now, no), Parse(d, no).ts) && Receive(s, d, now, no).rate == s.rate
  {
    hide Arrive, Parse;
  }

  lemma Unsynced(s: Session, d: seq<byte>, now: int, no: nat)
    requires !s.tracking && !s.synced && WellFormed(d) && Parse(d, no).ssrc == s.flow.ssrc
    requires 0 < s.rate && s.rate * 5 < 0x8000_0000
    ensures var s', ts := Receive(s, d, now, no), Parse(d, no).ts;
            && s'.tracking && !s'.synced && s'.needSeed && s'.rate == s.rate && s'.flow == s.flow
            && s'.syncTs == SyncPoint(ts, s.rate) && s'.drift.lastTs == ts
  {
    hide Parse, Arrive, SyncPoint, Ahead;
    SyncPointAhead(Parse(d, no).ts, s.rate);
  }

  lemma Synced(s: Session, d: seq<byte>, now: int, no: nat)
    requires s.tracking && !s.synced && s.needSeed && 0 < s.rate && s.rate * 5 < 0x8000_0000 && WellFormed(d)
    requires var pkt := Parse(d, no);
             && pkt.ssrc == s.flow.ssrc && Ahead(pkt.ts, s.syncTs) >= 0
             && Arrive(Seeded(s.flow, pkt.seqno), pkt, now).Kept?
    ensures var s', pkt := Receive(s, d, now, no), Parse(d, no);
            && Midstream(s', pkt.ts) && s'.rate == s.rate
            && s'.flow == Arrive(Seeded(s.flow, pkt.seqno), pkt, now).flow
  {
    hide Parse, Arrive, Ahead, Seeded;
  }

  /** A stream gets under way, then the packet numbered next + 1 overtakes the one
      numbered next; it has more than 1500 bytes of payload. */
  ghost predicate Overtaking(p0: Packet, p1: Packet, p2: Packet, p3: Packet, rate: u32)
    requires rate > 0
  {
    && p0.ssrc == p1.ssrc == p2.ssrc == p3.ssrc == 0
    && Ahead(p1.ts, SyncPoint(p0.ts, rate)) >= 0
    && p1.ts as int <= p2.ts as int <= p3.ts as int <= p1.ts as int + rate as int
    && p2.seqno == ToU16(p1.seqno as int + 2) && p3.seqno == ToU16(p1.seqno as int + 1)
    && |p1.payload| == |p3.payload| == 4 && |p2.payload| > SLOT_SIZE
  }

  lemma UnderWay(s: Session, d0: seq<byte>, d1: seq<byte>, t0: int, t1: int)
    requires !s.tracking && !s.synced && s.flow.ssrc == 0 && Blank(s.flow) && s.flow.cap >= 8
    requires 0 < s.rate && s.rate * 5 < 0x8000_0000 && WellFormed(d0) && WellFormed(d1)
    requires var p0, p1 := Parse(d0, 0), Parse(d1, 1);
             && p0.ssrc == p1.ssrc == 0 && Ahead(p1.ts, SyncPoint(p0.ts, s.rate)) >= 0 && |p1.payload| == 4
    ensures var s2 := Receive(Receive(s, d0, t0, 0), d1, t1, 1);
            var p1 := Parse(d1, 1);
            && Midstream(s2, p1.ts) && s2.rate == s.rate
            && s2.flow == s.flow.(heard := {Heard(p1.seqno, p1)}, queue := p1.payload, next := p1.seqno + 1,
                                  seed := p1.seqno, out := [Chunk(Heard(p1.seqno, p1), p1.payload, false)])
  {
    hide Parse, Receive, Arrive, SyncPoint, Ahead, Midstream;
    Unsynced(s, d0, t0, 0);
    var s1, p1 := Receive(s, d0, t0, 0), Parse(d1, 1);
    TakesExpected(Seeded(s1.flow, p1.seqno), p1, t1);
    Synced(s1, d1, t1, 1);
  }

  lemma Overtaken(s: Session, d2: seq<byte>, d3: seq<byte>, lastTs: u32, t2: int)
    requires Midstream(s, lastTs) && s.flow.ssrc == 0 && s.flow.held == map[]
    requires WellFormed(d2) && WellFormed(d3)
    requires var p2, p3 := Parse(d2, 2), Parse(d3, 3);
             && p2.ssrc == p3.ssrc == 0
             && lastTs as int <= p2.ts as int <= p3.ts as int <= lastTs as int + s.rate as int
             && p2.seqno == ToU16(s.flow.next + 1) && p3.seqno == ToU16(s.flow.next)
             && |p3.payload| == 4 && 0 < |p2.payload| <= s.flow.cap - |s.flow.queue| - 4
    ensures var out := Receive(Receive(s, d2, t2, 2), d3, t2 + 1, 3).flow.out;
            out == s.flow.out + [Chunk(Heard(s.flow.next, Parse(d3, 3)), Parse(d3, 3).payload, false),
                                 Chunk(Heard(s.flow.next + 1, Parse(d2, 2)), Clip(Parse(d2, 2).payload), true)]
  {
    hide Parse, Receive, ToU16, Clip;
    var late, pkt := Parse(d2, 2), Parse(d3, 3);
    HoldsSecond(s.flow, late, t2);
    hide Arrive;
    NextDatagram(s, d2, t2, 2, lastTs);
    hide Midstream;
    var s1 := Receive(s, d2, t2, 2);
    WritesBoth(s1.flow, pkt, late, t2 + 1);
    NextDatagram(s1, d3, t2 + 1, 3, late.ts);
  }

  /** Four datagrams, the first two and the last two one after the other. */
  function Four(d0: seq<byte>, d1: seq<byte>, d2: seq<byte>, d3: seq<byte>, t0: int, t2: int): seq<Event> {
    [Datagram(d0, t0)] + [Datagram(d1, t0)] + [Datagram(d2, t2)] + [Datagram(d3, t2 + 1)]
  }

  lemma FourLegal(d0: seq<byte>, d1: seq<byte>, d2: seq<byte>, d3: seq<byte>, t: int, t0: int, t2: int)
    requires t <= t0 <= t2
    ensures Legal(Four(d0, d1, d2, d3, t0, t2), t)
  {
  }

  lemma RunFour(s: Session, t: int, d0: seq<byte>, d1: seq<byte>, d2: seq<byte>, d3: seq<byte>, t0: int, t2: int)
    requires Good(s, t) && Legal(Four(d0, d1, d2, d3, t0, t2), t)
    ensures s.rate > 0 && Receive(s, d0, t0, 0).rate > 0
    ensures var s2 := Receive(Receive(s, d0, t0, 0), d1, t0, 1);
            && s2.rate > 0 && Receive(s2, d2, t2, 2).rate > 0
            && Run(s, t, Four(d0, d1, d2, d3, t0, t2)) == Receive(Receive(s2, d2, t2, 2), d3, t2 + 1, 3)
  {
    hide Receive, Run, Legal, Good;
    var e0, e1, e2 := Datagram(d0, t0), Datagram(d1, t0), Datagram(d2, t2);
    RunDatagram(s, t, [e0] + [e1] + [e2], d3, t2 + 1);
    RunDatagram(s, t, [e0] + [e1], d2, t2);
    RunDatagram(s, t, [e0], d1, t0);
    assert [e0] == [] + [e0];
    RunDatagram(s, t, [], d0, t0);
    RunNothing(s, t);
  }

  /** Every such run cuts the packet that overtook. */
  lemma OvertakenIsCut(s: Session, t: int, d0: seq<byte>, d1: seq<byte>, d2: seq<byte>, d3: seq<byte>, t0: int, t2: int)
    requires Good(s, t) && !s.tracking && !s.synced && s.flow.ssrc == 0
    requires t <= t0 <= t2 && WellFormed(d0) && WellFormed(d1) && WellFormed(d2) && WellFormed(d3)
    requires Overtaking(Parse(d0, 0), Parse(d1, 1), Parse(d2, 2), Parse(d3, 3), s.rate)
    requires |Parse(d2, 2).payload| + 8 <= s.flow.cap
    ensures Legal(Four(d0, d1, d2, d3, t0, t2), t)
    ensures var out := Run(s, t, Four(d0, d1, d2, d3, t0, t2)).flow.out;
            |out| == 3 && out[2].src.pkt == Parse(d2, 2) && out[2].body != out[2].src.pkt.payload
  {
    assert Blank(s.flow);
    FourLegal(d0, d1, d2, d3, t, t0, t2);
    RunFour(s, t, d0, d1, d2, d3, t0, t2);
    hide Parse, Receive, Run, Legal, Good, Midstream, ToU16, Ahead, SyncPoint, Four, Blank;
    UnderWay(s, d0, d1, t0, t0);
    Overtaken(Receive(Receive(s, d0, t0, 0), d1, t0, 1), d2, d3, Parse(d1, 1).ts, t2);
  }

  /** A datagram of SSRC 0 with n zero octets of payload. */
  function Wire(seqno: u16, ts: u32, n: nat): (d: seq<byte>)
    ensures |d| == 12 + n
  {
    [0x80, 0] + Bytes16(seqno) + Bytes16(ts / 0x1_0000) + Bytes16(ts % 0x1_0000) + [0, 0, 0, 0] + seq(n, i => 0)
  }

  /** A 16-bit number, big-endian. */
  function Bytes16(x: u16): (d: seq<byte>)
    ensures |d| == 2 && Be16(d, 0) == x
  {
    [x / 0x100, x % 0x100]
  }

  lemma WireOctets(seqno: u16, ts: u32, n: nat)
    ensures var d := Wire(seqno, ts, n);
            && Be16(d, 2) == seqno && Be16(d, 4) == ts / 0x1_0000 && Be16(d, 6) == ts % 0x1_0000
            && d[8] == d[9] == d[10] == d[11] == 0 && d[12..] == seq(n, i => 0)
  {
    hide Bytes16;
  }

  lemma SwappedZeros(n: nat)
    requires n % 2 == 0
    ensures Swapped(seq(n, i => 0)) == seq(n, i => 0)
  {
  }

  lemma ParseOf(d: seq<byte>, seqno: u16, ts: u32, payload: seq<byte>, no: nat)
    requires |d| == 12 + |payload| && |payload| % 4 == 0 && |payload| % 2 == 0
    requires Swapped(payload) == payload
    requires Be16(d, 2) == seqno && Be16(d, 4) == ts / 0x1_0000 && Be16(d, 6) == ts % 0x1_0000
    requires d[8] == d[9] == d[10] == d[11] == 0 && d[12..] == payload
    ensures WellFormed(d) && Parse(d, no) == Packet(seqno, ts, 0, payload, no)
  {
    hide Swapped;
  }

  lemma WireParses(seqno: u16, ts: u32, n: nat, no: nat)
    requires n % 4 == 0
    ensures WellFormed(Wire(seqno, ts, n))
    ensures Parse(Wire(seqno, ts, n), no) == Packet(seqno, ts, 0, seq(n, i => 0), no)
  {
    hide Wire, Swapped, Parse, WellFormed;
    WireOctets(seqno, ts, n);
    SwappedZeros(n);
    ParseOf(Wire(seqno, ts, n), seqno, ts, seq(n, i => 0), no);
  }

  /** There are such datagrams at 8000 Hz: the sync point is 16000, and number 2 with
      1504 octets comes before number 1. */
  lemma OvertakingExists(rate: u32) returns (d0: seq<byte>, d1: seq<byte>, d2: seq<byte>, d3: seq<byte>)
    requires rate == 8000
    ensures WellFormed(d0) && WellFormed(d1) && WellFormed(d2) && WellFormed(d3)
    ensures Overtaking(Parse(d0, 0), Parse(d1, 1), Parse(d2, 2), Parse(d3, 3), rate)
    ensures |Parse(d2, 2).payload| == 1504
  {
    var none: u16, start: u32, sync: u32, small: nat, large: nat := 0, 0, 16000, 4, 1504;
    hide Parse, Wire, SyncPoint, Ahead, WellFormed;
    d0, d1 := Wire(none, start, small), Wire(none, sync, small);
    d2, d3 := Wire(none + 2, sync + 2, large), Wire(none + 1, sync + 3, small);
    WireParses(none, start, small, 0);
    WireParses(none, sync, small, 1);
    WireParses(none + 2, sync + 2, large, 2);
    WireParses(none + 1, sync + 3, small, 3);
    FirstPoint(rate, start, sync);
  }

  lemma FirstPoint(rate: u32, ts: u32, sync: u32)
    requires rate == 8000 && ts == 0 && sync == 16000
    ensures Ahead(sync, SyncPoint(ts, rate)) >= 0
  {
  }

  ghost predicate Accounted(f: Flow) {
    && |f.out| + (f.lost - f.lost0) == f.next - f.seed
    && (forall c :: c in f.out ==> f.seed <= c.src.q < f.next)
    && (forall q :: q in f.held ==>
          && f.next < q < f.next + SLOTS
          && f.held[q].pkt.ssrc == f.ssrc && f.held[q].pkt.seqno == ToU16(q))
  }

  lemma InvAccounts(f: Flow)
    requires Reorder.Inv(f)
    ensures Accounted(f)
  {
    forall q | q in f.held
      ensures f.held[q].pkt.ssrc == f.ssrc && f.held[q].pkt.seqno == ToU16(q)
    {
      assert Genuine(Heard(q, f.held[q].pkt), f.ssrc);
    }
    forall c | c in f.out
      ensures ChunkWell(f, c)
    {
      var k :| 0 <= k < |f.out| && f.out[k] == c;
    }
  }

  /** Every number the stream moved past was written once or counted lost once;
      what waits in the window lies one to seven ahead; all of it is of one SSRC. */
  lemma LedgerAndWindow(s0: Session, t: int, events: seq<Event>)
    requires Good(s0, t) && Legal(events, t)
    ensures var s := Run(s0, t, events);
            if s.synced then Accounted(s.flow) else s.flow.queue == [] && s.flow.held == map[]
  {
    hide Reorder.Inv, Accounted;
    var s := Run(s0, t, events);
    if s.synced {
      InvAccounts(s.flow);
    }
  }

  lemma {:induction false} Consecutive(f: Flow, k: nat)
    requires OutWell(f) && |f.out| == f.next - f.seed && k < |f.out|
    ensures f.seed + k <= f.out[k].src.q
  {
    assert ChunkWell(f, f.out[k]);
    if k > 0 {
      Consecutive(f, k - 1);
    }
  }

  lemma {:induction false} ConsecutiveFromEnd(f: Flow, k: nat)
    requires OutWell(f) && |f.out| == f.next - f.seed && k < |f.out|
    ensures f.out[k].src.q <= f.seed + k
    decreases |f.out| - k
  {
    assert ChunkWell(f, f.out[k]);
    if k + 1 < |f.out| {
      ConsecutiveFromEnd(f, k + 1);
    }
  }

  ghost predicate WasHeard(f: Flow, q: int) {
    exists h :: h in f.heard && h.q == q
  }

  ghost predicate Unbroken(f: Flow) {
    |f.out| == f.next - f.seed && forall k :: 0 <= k < |f.out| ==> f.out[k].src.q == f.seed + k
  }

  lemma NoGap(f: Flow, m: int)
    requires Reorder.Inv(f) && Complete(f) && f.lost == f.lost0
    requires forall q :: f.seed <= q < m ==> WasHeard(f, q)
    ensures f.next >= m && Unbroken(f)
  {
    assert f.next < m ==> WasHeard(f, f.next);
    forall k | 0 <= k < |f.out|
      ensures f.out[k].src.q == f.seed + k
    {
      Consecutive(f, k);
      ConsecutiveFromEnd(f, k);
    }
  }

  /** Reordering without loss: while nothing is counted lost, packets heard in any
      order are written in numbering order without a gap, and every number up to
      the first one not heard is written. */
  lemma NothingMissing(s0: Session, t: int, events: seq<Event>, m: int)
    requires Good(s0, t) && Legal(events, t)
    requires var s := Run(s0, t, events);
             && s.synced && s.flow.lost == s.flow.lost0
             && forall q :: s.flow.seed <= q < m ==> WasHeard(s.flow, q)
    ensures Run(s0, t, events).flow.next >= m && Unbroken(Run(s0, t, events).flow)
  {
    hide Reorder.Inv, Complete, Unbroken, WasHeard;
    NoGap(Run(s0, t, events).flow, m);
  }

  /** Drift over every run: bounded debt and rate, corrections more than 100 ms apart,
      and bytes handed out = frame size * (frames read + net corrections). */
  lemma {:induction false} DriftBounds(s0: Session, t: int, events: seq<Event>)
    requires Good(s0, t) && Legal(events, t)
    ensures var d := Run(s0, t, events).drift;
            && -MAX_DEBT <= d.debt <= MAX_DEBT
            && (-MAX_RATE <= d.rate <= MAX_RATE || d.rate == -0x8000_0000)
            && (forall i, j :: 0 <= i < j < |d.fixes| ==> d.fixes[j] - d.fixes[i] > COOLDOWN_US)
            && d.returned == FRAME * (d.total + d.corrected)
  {
    hide Run;
  }

  /** The event is a read that closes a measurement window; delta is the change of the
      raw drift over that window. */
  ghost predicate Closes(s: Session, e: Event, delta: i32)
    requires s.rate > 0 && |s.flow.queue| % 4 == 0
  {
    && e.Reading? && !MustWait(s) && s.tracking && ReadLength(|s.flow.queue|, e.len) > 0
    && var raw := RawDrift(s.drift, s.rate, e.at);
       var d := OpenWindow(s.drift, raw, e.at);
       d.windowValid && e.at - d.windowStartUs >= WINDOW_US && delta == ToI32(raw - d.windowRaw)
  }

  ghost predicate Plausible(d: Drift) {
    -MAX_RATE <= d.rate <= MAX_RATE
  }

  /** The event closes a window whose 32-bit slope is the most negative number. */
  ghost predicate Overturns(s: Session, e: Event)
    requires s.rate > 0 && |s.flow.queue| % 4 == 0
  {
    exists delta :: Closes(s, e, delta)
                    && Slope(delta, e.at - OpenWindow(s.drift, RawDrift(s.drift, s.rate, e.at), e.at).windowStartUs)
                       == -0x8000_0000
  }

  lemma MeasuredRate(d: Drift, raw: i32, wr: nat, sampleRate: nat, now: int)
    requires sampleRate > 0
    ensures var d1 := OpenWindow(d, raw, now);
            if d1.windowValid && now - d1.windowStartUs >= WINDOW_US then
              var r := Slope(ToI32(raw - d1.windowRaw), now - d1.windowStartUs);
              Measure(d, raw, wr, sampleRate, now).rate == if Abs32(r) > MAX_RATE then 0 else r
            else Measure(d, raw, wr, sampleRate, now).rate == d.rate
  {
    hide Slope, ToI32;
  }

  lemma RateAfterRead(s: Session, len: nat, at: int, t: int, no: nat)
    requires Good(s, t) && len % 4 == 0 && t <= at && Plausible(s.drift)
    ensures |s.flow.queue| % 4 == 0
    ensures Plausible(Happen(s, Reading(len, at), t, no).drift) <==> !Overturns(s, Reading(len, at))
  {
    QueueAligned(s, t);
    RateAfterFetch(s, len, at);
    hide Overturns, Read;
  }

  lemma RateAfterFetch(s: Session, len: nat, at: int)
    requires s.rate > 0 && len % 4 == 0 && |s.flow.queue| % 4 == 0 && Plausible(s.drift)
    ensures Plausible(Read(s, len, at).0.drift) <==> !Overturns(s, Reading(len, at))
  {
    hide Slope, Measure, RawDrift, Decide, Take, ReadLength, Edited, BlockLength;
    var e := Reading(len, at);
    var n := ReadLength(|s.flow.queue|, len);
    if !MustWait(s) && s.tracking && n > 0 {
      hide MustWait;
      var raw := RawDrift(s.drift, s.rate, at);
      MeasuredRate(s.drift, raw, n, s.rate, at);
      var d1 := OpenWindow(s.drift, raw, at);
      if d1.windowValid && at - d1.windowStartUs >= WINDOW_US {
        assert Closes(s, e, ToI32(raw - d1.windowRaw));
      }
    }
  }

  lemma RateAfterOther(s: Session, e: Event, t: int, no: nat)
    requires Good(s, t) && Welcome(e) && t <= e.at && Plausible(s.drift) && !e.Reading?
    ensures Plausible(Happen(s, e, t, no).drift)
  {
    hide Good;
    match e
    case Datagram(d, at) =>
      GoodRate(s, t);
      RateAfterDatagram(s, d, at, no);
    case Switch(at) =>
  }

  lemma RateAfterStep(s: Session, ssrc: u32, ts: u32, at: int)
    requires s.rate > 0 && Plausible(s.drift)
    ensures Plausible(Received(s, at).drift) && Plausible(Adopt(s, ssrc, at).drift)
    ensures Plausible(Track(s, ts, at).drift) && Plausible(Sync(s, ts, at).drift)
  {
    hide SyncPoint, Jumped, RtpSession.Ahead;
  }

  lemma RateAfterSequence(s: Session, pkt: Packet, at: int)
    requires Plausible(s.drift)
    ensures Plausible(Sequence(s, pkt, at).drift)
  {
    hide Arrive, Seeded, Cleared;
  }

  lemma RateAfterDatagram(s: Session, d: seq<byte>, at: int, no: nat)
    requires s.rate > 0 && Plausible(s.drift)
    ensures Plausible(Receive(s, d, at, no).drift)
  {
    hide Parse, Foreign, Plausible, WellFormed;
    RateAfterStep(s, 0, 0, at);
    var s1 := Received(s, at);
    if WellFormed(d) && !Foreign(s1, Parse(d, no).ssrc, at) {
      var pkt := Parse(d, no);
      RateAfterStep(s1, pkt.ssrc, pkt.ts, at);
      var s2 := Adopt(s1, pkt.ssrc, at);
      RateAfterStep(s2, pkt.ssrc, pkt.ts, at);
      var s3 := Track(s2, pkt.ts, at);
      RateAfterStep(s3, pkt.ssrc, pkt.ts, at);
      RateAfterSequence(Sync(s3, pkt.ts, at), pkt, at);
      hide Received, Adopt, Track, Sync, Sequence;
    }
  }

  /** The rate is plausible at the start and after every event. */
  ghost predicate PlausibleThroughout(s0: Session, t: int, events: seq<Event>)
    requires Good(s0, t) && Legal(events, t)
  {
    && Plausible(Run(s0, t, events).drift)
    && (events != [] ==> PlausibleThroughout(s0, t, events[..|events| - 1]))
  }

  ghost predicate NeverOverturned(s0: Session, t: int, events: seq<Event>)
    requires Good(s0, t) && Legal(events, t)
  {
    events != [] ==>
      var before := events[..|events| - 1];
      var s := Run(s0, t, before);
      && NeverOverturned(s0, t, before)
      && |s.flow.queue| % 4 == 0 && !Overturns(s, events[|events| - 1])
  }

  /** The stored rate stays within 25 samples a second throughout a run exactly if no
      window of it closes with the most negative 32-bit slope. */
  lemma {:induction false} RateOverRuns(s0: Session, t: int, events: seq<Event>)
    requires Good(s0, t) && Legal(events, t) && Plausible(s0.drift)
    ensures PlausibleThroughout(s0, t, events) <==> NeverOverturned(s0, t, events)
    decreases |events|
  {
    if events != [] {
      hide Happen, Overturns, Good, Plausible;
      var before, e := events[..|events| - 1], events[|events| - 1];
      RateOverRuns(s0, t, before);
      var s := Run(s0, t, before);
      if PlausibleThroughout(s0, t, before) {
        RateAfter(s, e, TimeAfter(before, t), |before|);
      }
    }
  }

  lemma RateAfter(s: Session, e: Event, t: int, no: nat)
    requires Good(s, t) && Welcome(e) && t <= e.at && Plausible(s.drift)
    ensures s.rate > 0 && |s.flow.queue| % 4 == 0
    ensures Plausible(Happen(s, e, t, no).drift) <==> !Overturns(s, e)
  {
    hide Happen, Plausible;
    QueueAligned(s, t);
    match e
    case Reading(len, at) => RateAfterRead(s, len, at, t, no);
    case _ =>
      RateAfterOther(s, e, t, no);
      assert forall delta :: !Closes(s, e, delta);
  }

  /** The window the event closes, if it closes one, saw less than that. */
  ghost predicate SmallChange(s: Session, e: Event)
    requires s.rate > 0 && |s.flow.queue| % 4 == 0
  {
    forall delta :: Closes(s, e, delta) ==> -64_424_509 <= delta <= 64_424_509
  }

  lemma SmallDoesNotOverturn(s: Session, e: Event)
    requires s.rate > 0 && |s.flow.queue| % 4 == 0 && SmallChange(s, e)
    ensures !Overturns(s, e)
  {
    hide Slope, OpenWindow, RawDrift, MustWait;
    forall delta | Closes(s, e, delta)
      ensures Slope(delta, e.at - OpenWindow(s.drift, RawDrift(s.drift, s.rate, e.at), e.at).windowStartUs) != -0x8000_0000
    {
      PlausibleDelta(delta, e.at - OpenWindow(s.drift, RawDrift(s.drift, s.rate, e.at), e.at).windowStartUs);
    }
  }

  /** No window of the run sees the raw drift change by more than 64424509 samples. */
  ghost predicate SmallChanges(s0: Session, t: int, events: seq<Event>)
    requires Good(s0, t) && Legal(events, t)
  {
    events != [] ==>
      var before := events[..|events| - 1];
      var s := Run(s0, t, before);
      && SmallChanges(s0, t, before)
      && |s.flow.queue| % 4 == 0 && SmallChange(s, events[|events| - 1])
  }

  /** So the rate is plausible throughout every run without such a leap. */
  lemma {:induction false} RateStaysPlausible(s0: Session, t: int, events: seq<Event>)
    requires Good(s0, t) && Legal(events, t) && Plausible(s0.drift) && SmallChanges(s0, t, events)
    ensures PlausibleThroughout(s0, t, events)
  {
    hide Run, Good;
    SmallIsEnough(s0, t, events);
    RateOverRuns(s0, t, events);
  }

  lemma {:induction false} SmallIsEnough(s0: Session, t: int, events: seq<Event>)
    requires Good(s0, t) && Legal(events, t) && SmallChanges(s0, t, events)
    ensures NeverOverturned(s0, t, events)
    decreases |events|
  {
    if events != [] {
      hide Run, Good, SmallChange, Overturns;
      var before := events[..|events| - 1];
      SmallIsEnough(s0, t, before);
      GoodRate(Run(s0, t, before), TimeAfter(before, t));
      SmallDoesNotOverturn(Run(s0, t, before), events[|events| - 1]);
    }
  }

  lemma GoodRate(s: Session, t: int)
    requires Good(s, t)
    ensures s.rate > 0
  {
  }

  // ----- what a datagram without payload does, and the rate after a reset -----

  /** A datagram of nothing but a header for the tracked stream, with nothing waiting:
      it resets the stream exactly if its number is the expected one or eight or more
      ahead. If it is the expected one it does so whatever is waiting. */
  lemma EmptyDatagramResets(s: Session, d: seq<byte>, t: int, now: int, no: nat)
    requires Good(s, t) && s.synced && |d| == 12 && Parse(d, no).ssrc == s.flow.ssrc
    ensures var q, s' := Lift(s.flow.next, Parse(d, no).seqno), Receive(s, d, now, no);
            && (q == s.flow.next ==> !s'.synced)
            && (s.flow.held == map[] ==> (!s'.synced <==> q == s.flow.next || q >= s.flow.next + SLOTS))
            && (if s'.synced then s'.tracking else !s'.tracking && Blank(s'.flow))
  {
    var pkt := Parse(d, no);
    assert pkt.payload == [];
    hide Parse, Arrive, Lift, Jumped, Steady, Complete;
    EmptyOverflows(s.flow, pkt, now);
    hide Reorder.Inv;
  }

  /** A full reset leaves the rate as it was, but no read uses it: until the stream
      is synchronised again reads wait, and the first packet sets it to zero. */
  lemma RateEndsWithReset(s: Session, lost: int, d: seq<byte>, len: nat, now: int, no: nat)
    requires 0 < s.rate && s.rate * 5 < 0x8000_0000 && WellFormed(d) && len % 4 == 0
    ensures var r := Reset(s, lost);
            && r.drift.rate == s.drift.rate
            && Read(r, len, now).1 == [] && Read(r, len, now).0 == r
            && Receive(r, d, now, no).tracking && !Receive(r, d, now, no).synced
            && Receive(r, d, now, no).drift.rate == 0 && Receive(r, d, now, no).drift.debt == 0
  {
    hide Parse, Arrive, SyncPoint, Ahead;
    SyncPointAhead(Parse(d, no).ts, s.rate);
  }

  // ----- one stream at a time -----

  ghost predicate SpokeLast(e: Event, s: Session) {
    e.Datagram? && WellFormed(e.d) && Parse(e.d, 0).ssrc == s.flow.ssrc ==> e.at <= s.ssrcAt
  }

  lemma ReceiveSpoke(s: Session, e: Event, t: int, no: nat, earlier: Event)
    requires Good(s, t) && e.Datagram? && t <= e.at && earlier.at <= e.at
    requires Receive(s, e.d, e.at, no).tracking
    requires earlier == e || (s.tracking ==> SpokeLast(earlier, s))
    ensures SpokeLast(earlier, Receive(s, e.d, e.at, no))
  {
    hide Arrive, Reorder.Inv, Complete, Blank, Steady, Swapped;
  }

  lemma {:induction false} SpokeBefore(s: Session, t: int, events: seq<Event>, i: nat)
    requires Good(s, t) && !s.tracking && Legal(events, t) && i < |events|
    requires Run(s, t, events).tracking
    ensures SpokeLast(events[i], Run(s, t, events))
    decreases |events|
  {
    hide Receive, Read;
    var before, e := events[..|events| - 1], events[|events| - 1];
    var s1 := Run(s, t, before);
    if i < |before| && s1.tracking {
      SpokeBefore(s, t, before, i);
      assert events[i] == before[i];
    }
    match e
    case Datagram(d, at) => ReceiveSpoke(s1, e, TimeAfter(before, t), |before|, events[i]);
    case Reading(len, at) => ReadSpoke(s1, len, TimeAfter(before, t), at);
    case Switch(at) =>
  }

  lemma ReadSpoke(s: Session, len: nat, t: int, now: int)
    requires Good(s, t) && len % 4 == 0
    ensures |s.flow.queue| % 4 == 0
    ensures var s' := Read(s, len, now).0;
            s'.flow.ssrc == s.flow.ssrc && s'.ssrcAt == s.ssrcAt && s'.tracking == s.tracking
  {
    hide OnRead, Decide;
    QueueAligned(s, t);
  }

  /** A tracked stream gives way to another SSRC only in one event that empties
      ring and window, and only after a second without datagrams of its own. */
  lemma StreamChange(s0: Session, t: int, events: seq<Event>, e: Event)
    requires Good(s0, t) && !s0.tracking && Legal(events + [e], t)
    requires Legal(events, t) && e.at >= TimeAfter(events, t) && Welcome(e)
    requires Run(s0, t, events).tracking && Happen(Run(s0, t, events), e, TimeAfter(events, t), |events|).tracking
    requires Happen(Run(s0, t, events), e, TimeAfter(events, t), |events|).flow.ssrc != Run(s0, t, events).flow.ssrc
    ensures e.Datagram? && WellFormed(e.d)
    ensures forall i :: 0 <= i < |events| && events[i].Datagram? && WellFormed(events[i].d)
                        && Parse(events[i].d, i).ssrc == Run(s0, t, events).flow.ssrc
                        ==> e.at - events[i].at >= SSRC_HOLD_US
    ensures Blank(Happen(Run(s0, t, events), e, TimeAfter(events, t), |events|).flow)
  {
    var s := Run(s0, t, events);
    forall i | 0 <= i < |events|
      ensures SpokeLast(events[i], s)
    {
      SpokeBefore(s0, t, events, i);
    }
    match e
    case Datagram(d, at) => ChangeOnReceive(s, d, TimeAfter(events, t), at, |events|);
    case Reading(len, at) => ReadSpoke(s, len, TimeAfter(events, t), at);
    case Switch(at) =>
  }

  lemma ChangeOnReceive(s: Session, d: seq<byte>, t: int, now: int, no: nat)
    requires Good(s, t) && s.tracking && t <= now
    requires Receive(s, d, now, no).tracking && Receive(s, d, now, no).flow.ssrc != s.flow.ssrc
    ensures WellFormed(d) && now - s.ssrcAt >= SSRC_HOLD_US && Blank(Receive(s, d, now, no).flow)
  {
    hide Arrive;
    if WellFormed(d) {
      var pkt := Parse(d, no);
      SyncPointAhead(pkt.ts, s.rate);
      var s1 := Received(s, now);
      var s3 := Sync(Track(Adopt(s1, pkt.ssrc, now), pkt.ts, now), pkt.ts, now);
      var f := if s3.needSeed then Seeded(s3.flow, pkt.seqno) else s3.flow;
      if Arrive(f, pkt, now).Kept? {
        ArriveHears(f, pkt, now);
      }
    }
  }
}
