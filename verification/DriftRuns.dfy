/** Which way the drift is corrected over whole runs of the receiver, with packets,
    gaps, new sync points and other streams between the reads. */
module DriftRuns {
  import opened Words
  import opened Reorder
  import opened DriftClock
  import opened RtpSession
  import opened SessionRuns

  /** A read that takes bytes of a tracked stream, and so may correct the drift. */
  predicate Fetches(s: Session, e: Event)
    requires s.rate > 0
  {
    e.Reading? && !MustWait(s) && s.tracking && ReadLength(|s.flow.queue|, e.len) > 0
  }

  /** What it decides. */
  function Decision(s: Session, e: Event): Action
    requires s.rate > 0
  {
    if !Fetches(s, e) then Keep
    else
      var n := ReadLength(|s.flow.queue|, e.len);
      Decide(s.drift, RawDrift(s.drift, s.rate, e.at), n, e.len, |s.flow.queue| - n, s.flow.cap + 1, s.rate, e.at)
  }

  /** Against the open window the sender has not fallen behind, or has not got ahead,
      and the read is of at most a second. */
  ghost predicate Onside(s: Session, e: Event, ahead: bool)
    requires s.rate > 0
  {
    Fetches(s, e) ==>
      && ReadLength(|s.flow.queue|, e.len) / FRAME <= s.rate
      && (s.drift.windowValid ==>
            var change := RawDrift(s.drift, s.rate, e.at) as int - s.drift.windowRaw as int;
            if ahead then 0 <= change <= 64_424_509 else -64_424_509 <= change <= 0)
  }

  /** Rate and debt of a sender that is not slower, or not faster, than the local clock. */
  ghost predicate Leaning(d: Drift, ahead: bool) {
    if ahead then 0 <= d.rate <= MAX_RATE && d.debt >= 0 else -MAX_RATE <= d.rate <= 0 && d.debt <= 0
  }

  /** The correction that such a sender never needs. */
  function Wrong(ahead: bool): Action {
    if ahead then RepeatFrame else DropFrame
  }

  lemma StepsLean(s: Session, ssrc: u32, ts: u32, at: int, ahead: bool)
    requires s.rate > 0 && Leaning(s.drift, ahead)
    ensures Leaning(Received(s, at).drift, ahead) && Leaning(Adopt(s, ssrc, at).drift, ahead)
    ensures Leaning(Track(s, ts, at).drift, ahead) && Leaning(Sync(s, ts, at).drift, ahead)
  {
    hide SyncPoint, Jumped, RtpSession.Ahead;
  }

  lemma SequenceLeans(s: Session, pkt: Packet, at: int, ahead: bool)
    requires Leaning(s.drift, ahead)
    ensures Leaning(Sequence(s, pkt, at).drift, ahead)
  {
    hide Arrive, Seeded, Cleared;
  }

  lemma DatagramLeans(s: Session, d: seq<byte>, at: int, no: nat, ahead: bool)
    requires s.rate > 0 && Leaning(s.drift, ahead)
    ensures Leaning(Receive(s, d, at, no).drift, ahead)
  {
    hide Parse, Foreign, Leaning, WellFormed;
    var s1 := Received(s, at);
    StepsLean(s, 0, 0, at, ahead);
    if WellFormed(d) && !Foreign(s1, Parse(d, no).ssrc, at) {
      var pkt := Parse(d, no);
      StepsLean(s1, pkt.ssrc, pkt.ts, at, ahead);
      var s2 := Adopt(s1, pkt.ssrc, at);
      StepsLean(s2, pkt.ssrc, pkt.ts, at, ahead);
      var s3 := Track(s2, pkt.ts, at);
      StepsLean(s3, pkt.ssrc, pkt.ts, at, ahead);
      SequenceLeans(Sync(s3, pkt.ts, at), pkt, at, ahead);
      hide Received, Adopt, Track, Sync, Sequence;
    }
  }

  lemma ReadLeans(s: Session, e: Event, ahead: bool)
    requires e.Reading? && s.rate > 0 && e.len % 4 == 0 && |s.flow.queue| % 4 == 0
    requires Bounded(s.drift) && Leaning(s.drift, ahead) && Onside(s, e, ahead)
    ensures Leaning(Read(s, e.len, e.at).0.drift, ahead) && Decision(s, e) != Wrong(ahead)
  {
    hide RawDrift, OnRead, Decide, ReadLength, Edited, Bounded;
    var n := ReadLength(|s.flow.queue|, e.len);
    var raw := RawDrift(s.drift, s.rate, e.at);
    if Fetches(s, e) {
      hide MustWait;
      RightDirection(s.drift, raw, n, e.len, |s.flow.queue| - n, s.flow.cap + 1, s.rate, e.at);
      ReadBounded(s.drift, raw, n, e.len, |s.flow.queue| - n, s.flow.cap + 1, s.rate, e.at);
      StaysPlausible(s.drift, raw, n, e.len, |s.flow.queue| - n, s.flow.cap + 1, s.rate, e.at);
    }
  }

  /** The block handed out is the front of the ring with that correction. */
  lemma DecisionIsHanded(s: Session, e: Event)
    requires s.rate > 0 && e.Reading? && e.len % 4 == 0 && |s.flow.queue| % 4 == 0 && !MustWait(s)
    ensures var front := s.flow.queue[..ReadLength(|s.flow.queue|, e.len)];
            |front| % FRAME == 0 && Read(s, e.len, e.at).1 == Edited(front, Decision(s, e))
  {
    hide OnRead, Decide, RawDrift;
    var n := ReadLength(|s.flow.queue|, e.len);
    var front := s.flow.queue[..n];
    assert Decision(s, e) != Keep ==> n >= 4 * FRAME;
    hide MustWait;
  }

  /** A read that finds more than its own length queued takes its whole length, and has
      no room to repeat a frame: a sender that is slower is only answered once the ring
      has run low. */
  lemma FullReadsNeverRepeat(s: Session, e: Event)
    requires s.rate > 0 && e.Reading? && |s.flow.queue| > e.len
    ensures Decision(s, e) != RepeatFrame
  {
    hide Decide, MustWait;
  }

  lemma StaysPlausible(d: Drift, raw: i32, wr: nat, len: nat, fill: nat, bufsize: nat, sampleRate: nat, now: int)
    requires Bounded(d) && sampleRate > 0
    ensures var r := OnRead(d, raw, wr, len, fill, bufsize, sampleRate, now).rate; r >= 0 ==> r <= MAX_RATE
  {
    ReadBounded(d, raw, wr, len, fill, bufsize, sampleRate, now);
    hide OnRead;
  }

  lemma EventLeans(s: Session, e: Event, t: int, no: nat, ahead: bool)
    requires Good(s, t) && Welcome(e) && t <= e.at
    requires s.rate > 0 && Leaning(s.drift, ahead) && Onside(s, e, ahead)
    ensures Leaning(Happen(s, e, t, no).drift, ahead) && Decision(s, e) != Wrong(ahead)
  {
    QueueAligned(s, t);
    assert Bounded(s.drift);
    hide Good, Receive, Read, Onside;
    match e
    case Datagram(d, at) => DatagramLeans(s, d, at, no, ahead);
    case Reading(len, at) => ReadLeans(s, e, ahead);
    case Switch(at) =>
  }

  /** Every read of the run is onside. */
  ghost predicate OnsideThroughout(s0: Session, t: int, events: seq<Event>, ahead: bool)
    requires Good(s0, t) && Legal(events, t)
  {
    events != [] ==>
      var before := events[..|events| - 1];
      && OnsideThroughout(s0, t, before, ahead)
      && Run(s0, t, before).rate > 0 && Onside(Run(s0, t, before), events[|events| - 1], ahead)
  }

  /** No read of the run corrects in the wrong direction. */
  ghost predicate NeverWrong(s0: Session, t: int, events: seq<Event>, ahead: bool)
    requires Good(s0, t) && Legal(events, t)
  {
    events != [] ==>
      var before := events[..|events| - 1];
      && NeverWrong(s0, t, before, ahead)
      && Run(s0, t, before).rate > 0 && Decision(Run(s0, t, before), events[|events| - 1]) != Wrong(ahead)
  }

  /** Over every run of packets, reads and switches: a sender that never falls behind its
      open window only ever gets frames dropped, one that never gets ahead of it only
      ever gets frames repeated. */
  lemma {:induction false} RightDirectionThroughout(s0: Session, t: int, events: seq<Event>, ahead: bool)
    requires Good(s0, t) && Legal(events, t) && Leaning(s0.drift, ahead) && OnsideThroughout(s0, t, events, ahead)
    ensures NeverWrong(s0, t, events, ahead) && Leaning(Run(s0, t, events).drift, ahead)
    decreases |events|
  {
    if events != [] {
      hide Happen, Good, Leaning, Onside, Decision;
      var before, e := events[..|events| - 1], events[|events| - 1];
      RightDirectionThroughout(s0, t, before, ahead);
      EventLeans(Run(s0, t, before), e, TimeAfter(before, t), |before|, ahead);
    }
  }
}
