/** The receiver object over a whole run: packets, reads and address switches in any
    order act on it as the events of SessionRuns act on its value, so what holds over
    runs of sessions holds for the registers, slots and ring of the firmware. */
module StreamRuns {
  import opened Words
  import opened JitterRing
  import opened Reorder
  import opened DriftClock
  import opened RtpSession
  import opened RtpStream
  import opened SessionRuns

  /** One datagram in a buffer of its own. */
  method OnDatagram(s: Stream, d: seq<byte>, now: int, ghost t: int, ghost no: nat)
    requires s.Ready() && Good(s.Value(), t)
    modifies s, s.ring, s.ring.buf, s.meta, s.slots, s.clock
    ensures s.Ready() && s.Value() == Receive(old(s.Value()), d, now, no)
  {
    hide Good, Receive;
    var pkt := new byte[|d|](i requires 0 <= i < |d| => d[i]);
    assert pkt[..|d|] == d;
    s.Drain(pkt, |d|, now, no);
  }

  /** One pass of the reader, with the block it hands out. */
  method OnReading(s: Stream, len: nat, now: int, ghost t: int) returns (block: seq<byte>)
    requires s.Ready() && Good(s.Value(), t) && len % 4 == 0
    modifies s, s.ring, s.ring.buf, s.meta, s.slots, s.clock
    ensures |old(s.flow.queue)| % 4 == 0 && s.Ready()
    ensures (s.Value(), block) == Read(old(s.Value()), len, now)
  {
    QueueAligned(s.Value(), t);
    hide Good, Read;
    var buffer := new byte[len](i => 0);
    var wr := s.ReadPass(buffer, len, now);
    block := buffer[..wr];
  }

  /** One event. */
  method Execute(s: Stream, e: Event, ghost t: int, ghost no: nat) returns (block: seq<byte>)
    requires s.Ready() && Good(s.Value(), t) && Welcome(e) && t <= e.at
    modifies s, s.ring, s.ring.buf, s.meta, s.slots, s.clock
    ensures s.Ready() && s.Value() == Happen(old(s.Value()), e, t, no) && Good(s.Value(), e.at)
    ensures |old(s.flow.queue)| % 4 == 0
    ensures block == if e.Reading? then Read(old(s.Value()), e.len, e.at).1 else []
  {
    ghost var was := s.Value();
    QueueAligned(was, t);
    HappenGood(was, e, t, no);
    hide Good, Receive, Read;
    block := [];
    match e
    case Datagram(d, at) => OnDatagram(s, d, at, t, no);
    case Reading(len, at) => block := OnReading(s, len, at, t);
    case Switch(at) => s.FullReset();
  }

  lemma Prefix(events: seq<Event>, t: int, i: nat)
    requires Legal(events, t) && i <= |events|
    ensures Legal(events[..i], t)
    ensures i < |events| ==>
              && events[..i + 1] == events[..i] + [events[i]] && Welcome(events[i])
              && TimeAfter(events[..i], t) <= events[i].at
  {
  }

  /** Any run of events. */
  method ExecuteAll(s: Stream, events: seq<Event>, ghost t: int)
    requires s.Ready() && Good(s.Value(), t) && Legal(events, t)
    modifies s, s.ring, s.ring.buf, s.meta, s.slots, s.clock
    ensures s.Ready() && s.Value() == Run(old(s.Value()), t, events)
  {
    hide Good, Happen, Legal, TimeAfter;
    ghost var was := s.Value();
    RunNothing(was, t);
    assert Legal(events[..0], t) by { Prefix(events, t, 0); }
    for i := 0 to |events|
      invariant s.Ready() && Legal(events[..i], t) && s.Value() == Run(was, t, events[..i])
    {
      Prefix(events, t, i);
      Prefix(events, t, i + 1);
      RunSnoc(was, t, events[..i], events[i]);
      var _ := Execute(s, events[i], TimeAfter(events[..i], t), i);
    }
    assert events[..|events|] == events;
  }

  /** From init and open on: what the reader took and what is in the ring are the bodies
      of the packets written, in the order of their numbers, each one that of a datagram
      of its own. */
  method Serve(rate: u32, jbufMs: nat, at: int, events: seq<Event>) returns (s: Stream)
    requires 0 < rate && rate * 5 < 0x8000_0000 && at >= 0 && Legal(events, at)
    ensures s.Ready() && s.flow.taken + s.ring.Contents() == Spoken(s.flow.out)
    ensures forall c :: c in s.flow.out ==> WellTold(c, s.flow, events)
    ensures forall j, k :: 0 <= j < k < |s.flow.out| ==>
              s.flow.out[j].src.q < s.flow.out[k].src.q && s.flow.out[j].src.pkt.no != s.flow.out[k].src.pkt.no
  {
    s := new Stream(rate, jbufMs, at);
    ghost var was := s.Value();
    OpenedGood(rate, was.flow.cap, was.thres, at);
    assert was.flow.heard == {};
    hide Good, Run, Legal, WellTold, Spoken;
    ExecuteAll(s, events, at);
    EndToEnd(was, at, events);
  }
}
