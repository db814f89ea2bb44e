/** When the reader plays: an epoch begins silent until the ring was once seen filled to
    its threshold, and from then on hands out a block whenever two frames are queued. */
module PlayRuns {
  import opened Words
  import opened Reorder
  import opened DriftClock
  import opened RtpSession
  import opened SessionRuns

  /** Since the epoch began, some read saw at least `thres` bytes queued. A reset ends an
      epoch by ending synchronisation, and never in the event that begins the next. */
  ghost predicate SawFull(s0: Session, t: int, events: seq<Event>)
    requires Good(s0, t) && Legal(events, t)
    decreases |events|
  {
    events != [] &&
    var before, e := events[..|events| - 1], events[|events| - 1];
    var s := Run(s0, t, before);
    && s.synced && Run(s0, t, events).synced
    && (SawFull(s0, t, before) || (e.Reading? && |s.flow.queue| >= s0.thres))
  }

  /** The play state of the source says just that, and nothing was taken before. */
  ghost predicate Tells(s: Session, full: bool) {
    && (s.play == Playing <==> full)
    && (full ==> s.synced) && (s.flow.taken != [] ==> full)
  }

  // ----- packets neither play nor take -----

  lemma {:induction false} FlushTakesNothing(f: Flow)
    ensures Flush(f).Kept? ==> Flush(f).flow.taken == f.taken
    decreases f.held.Keys
  {
    if f.next in f.held {
      var o := PutHeld(f);
      if o.Kept? {
        FlushTakesNothing(o.flow);
      }
    }
  }

  lemma FarTakesNothing(f: Flow, q: int, pkt: Packet, now: int)
    ensures Far(f, q, pkt, now).Kept? ==> Far(f, q, pkt, now).flow.taken == f.taken
  {
    FlushTakesNothing(Skip(f));
    var o := if f.held == map[] then Kept(f) else Flush(Skip(f));
    if o.Kept? {
      DeliverTakesNothing(o.flow, q, pkt);
    }
  }

  lemma DeliverTakesNothing(f: Flow, q: int, pkt: Packet)
    ensures Deliver(f, q, pkt).Kept? ==> Deliver(f, q, pkt).flow.taken == f.taken
  {
    var o := Put(f, Heard(q, pkt), pkt.payload, false);
    if o.Kept? {
      FlushTakesNothing(o.flow);
    }
  }

  lemma ArriveTakesNothing(f0: Flow, pkt: Packet, now: int)
    ensures Arrive(f0, pkt, now).Kept? ==> Arrive(f0, pkt, now).flow.taken == f0.taken
  {
    hide Deliver, Far, Flush, Lift;
    var q := Lift(f0.next, pkt.seqno);
    var f := f0.(heard := f0.heard + {Heard(q, pkt)});
    if q >= f.next && q !in f.held {
      DeliverTakesNothing(f, q, pkt);
      FarTakesNothing(f, q, pkt, now);
      var o := if q == f.next then Deliver(f, q, pkt)
               else if q < f.next + SLOTS then Kept(Hold(f, q, pkt, now))
               else Far(f, q, pkt, now);
      if o.Kept? {
        FlushTakesNothing(Skip(o.flow));
      }
    }
  }

  ghost predicate Alike(s: Session, s': Session) {
    s'.play == s.play && s'.flow.taken == s.flow.taken && s'.thres == s.thres
  }

  /** A step of the packet path: it leaves threshold, play state and bytes taken alone,
      or it resets. */
  ghost predicate Silent(s: Session, s': Session) {
    && s'.thres == s.thres
    && (Alike(s, s') || (s'.play == Idle && s'.flow.taken == [] && !s'.synced))
  }

  lemma StepsSilent(s: Session, ssrc: u32, ts: u32, at: int)
    requires s.rate > 0
    ensures var r := Received(s, at);
            && Alike(s, r) && r.synced == s.synced && r.rate == s.rate && r.tracking == s.tracking
            && r.flow.ssrc == s.flow.ssrc
    ensures var a := Adopt(s, ssrc, at);
            && a.rate == s.rate && a.thres == s.thres
            && (if ssrc != s.flow.ssrc && s.tracking
                then a.play == Idle && a.flow.taken == [] && !a.synced && !a.tracking else Alike(s, a))
    ensures Alike(s, Track(s, ts, at)) && Track(s, ts, at).rate == s.rate
    ensures Alike(s, Sync(s, ts, at))
  {
    hide SyncPoint, Jumped, RtpSession.Ahead;
  }

  /** A stream whose tracking just began has not reached its sync point. */
  lemma NotYetSynced(s: Session, ts: u32, at: int)
    requires !s.tracking && 0 < s.rate && s.rate * 5 < 0x8000_0000
    ensures !Sync(Track(s, ts, at), ts, at).synced
  {
    SyncPointAhead(ts, s.rate);
    hide SyncPoint, RtpSession.Ahead;
  }

  lemma SequenceSilent(s: Session, pkt: Packet, at: int)
    ensures Silent(s, Sequence(s, pkt, at))
  {
    ArriveTakesNothing(if s.needSeed then Seeded(s.flow, pkt.seqno) else s.flow, pkt, at);
    hide Arrive;
  }

  lemma ReceiveSilent(s: Session, d: seq<byte>, at: int, no: nat)
    requires 0 < s.rate && s.rate * 5 < 0x8000_0000
    ensures Silent(s, Receive(s, d, at, no))
  {
    hide Parse, Foreign, WellFormed;
    var s1 := Received(s, at);
    StepsSilent(s, 0, 0, at);
    if WellFormed(d) && !Foreign(s1, Parse(d, no).ssrc, at) {
      var pkt := Parse(d, no);
      StepsSilent(s1, pkt.ssrc, pkt.ts, at);
      var s2 := Adopt(s1, pkt.ssrc, at);
      StepsSilent(s2, pkt.ssrc, pkt.ts, at);
      var s3 := Track(s2, pkt.ts, at);
      StepsSilent(s3, pkt.ssrc, pkt.ts, at);
      if !s2.tracking {
        NotYetSynced(s2, pkt.ts, at);
      }
      hide Received, Adopt, Track, Sync;
      SequenceSilent(Sync(s3, pkt.ts, at), pkt, at);
      hide Sequence;
    }
  }

  // ----- reads -----

  /** Two frames are queued; before the ring was seen full, the threshold counts. */
  ghost predicate MayPlay(s: Session, full: bool) {
    && s.synced && |s.flow.queue| >= 8 && (full || |s.flow.queue| >= s.thres)
  }

  lemma ReadPlays(s: Session, len: nat, t: int, now: int, full: bool)
    requires Good(s, t) && t <= now && len % 4 == 0 && s.thres >= 8 && Tells(s, full)
    ensures |s.flow.queue| % 4 == 0
    ensures len > 0 ==> (Read(s, len, now).1 != [] <==> MayPlay(s, full))
    ensures var s' := Read(s, len, now).0;
            && Tells(s', s.synced && (full || |s.flow.queue| >= s.thres))
            && s'.thres == s.thres && s'.synced == s.synced
  {
    hide Reorder.Inv, Steady, Complete, OnRead, Decide, Edited, RawDrift;
    QueueAligned(s, t);
    if len > 0 {
      ReadBlock(s, len, t, now);
    }
  }

  // ----- runs -----

  lemma EventTells(s: Session, e: Event, t: int, no: nat, full: bool)
    requires Good(s, t) && Welcome(e) && t <= e.at && s.thres >= 8 && Tells(s, full)
    ensures var s' := Happen(s, e, t, no);
            && s'.thres == s.thres
            && Tells(s', s.synced && s'.synced && (full || (e.Reading? && |s.flow.queue| >= s.thres)))
  {
    BlankTakesNothing(s, t);
    GoodRate(s, t);
    assert s.rate * 5 < 0x8000_0000;
    HappenGood(s, e, t, no);
    BlankTakesNothing(Happen(s, e, t, no), e.at);
    hide Good, Receive, Read;
    match e
    case Datagram(d, at) => ReceiveSilent(s, d, at, no);
    case Reading(len, at) => ReadPlays(s, len, t, at, full);
    case Switch(at) =>
  }

  lemma BlankTakesNothing(s: Session, t: int)
    requires Good(s, t)
    ensures !s.synced ==> s.flow.taken == []
  {
  }

  lemma {:induction false} PlayTells(s0: Session, t: int, events: seq<Event>)
    requires Good(s0, t) && Legal(events, t) && s0.thres >= 8 && !s0.synced && s0.play != Playing
    ensures Tells(Run(s0, t, events), SawFull(s0, t, events)) && Run(s0, t, events).thres == s0.thres
    decreases |events|
  {
    if events == [] {
      BlankTakesNothing(s0, t);
    } else {
      hide Happen, Good, Tells;
      var before, e := events[..|events| - 1], events[|events| - 1];
      PlayTells(s0, t, before);
      EventTells(Run(s0, t, before), e, TimeAfter(before, t), |before|, SawFull(s0, t, before));
    }
  }

  /** Over every run: a read hands out a block exactly if the stream is synchronised,
      two frames are queued, and the ring is filled to its threshold now or was seen so
      by a read since the epoch began. Before that nothing of the epoch is taken. */
  lemma {:induction false} PlaysOnceFilled(s0: Session, t: int, events: seq<Event>, len: nat, now: int)
    requires Good(s0, t) && Legal(events, t) && s0.thres >= 8 && !s0.synced && s0.play != Playing
    requires len % 4 == 0 && len > 0 && TimeAfter(events, t) <= now
    ensures |Run(s0, t, events).flow.queue| % 4 == 0
    ensures var s := Run(s0, t, events);
            && (Read(s, len, now).1 != []
                <==> s.synced && |s.flow.queue| >= 8 && (SawFull(s0, t, events) || |s.flow.queue| >= s0.thres))
            && (s.flow.taken != [] ==> SawFull(s0, t, events))
  {
    PlayTells(s0, t, events);
    hide Run, Good, SawFull;
    ReadPlays(Run(s0, t, events), len, TimeAfter(events, t), now, SawFull(s0, t, events));
    hide Read;
  }
}
