/** The receiver as the firmware runs it: 16-bit sequence registers, eight slots
    keyed by seq % 8, a byte ring. Its value is a Session; every method is proved
    to do what the Session functions say. */
module RtpStream {
  import opened Arithmetic
  import opened Words
  import opened ByteArrays
  import opened JitterRing
  import opened Reorder
  import opened DriftClock
  import opened RtpSession

  datatype Meta = Meta(seqno: u16, len: nat, at: int, occupied: bool)

  /** The one number of the window [next, next + 8) that belongs to slot i. */
  function SlotNumber(next: int, i: nat): (q: int)
    requires i < SLOTS
    ensures next <= q < next + SLOTS && q % SLOTS == i
  {
    next + (i - next) % SLOTS
  }

  lemma SlotNumberIs(next: int, q: int)
    requires next <= q < next + SLOTS
    ensures SlotNumber(next, q % SLOTS) == q
  {
  }

  /** 16-bit registers compare numbers of one window like the numbers themselves. */
  lemma NearDifference(p: int, q: int)
    requires -0x8000 <= p - q < 0x8000
    ensures ToI16(ToU16(p) - ToU16(q)) == p - q
  {
    Division(p, 0x1_0000);
    Division(q, 0x1_0000);
    Signed16(p - q, q / 0x1_0000 - p / 0x1_0000);
  }

  lemma Signed16(d: int, turns: int)
    requires -0x8000 <= d < 0x8000
    ensures ToI16(d + 0x1_0000 * turns) == d
  {
    if d >= 0 {
      DivisionIs(d + 0x1_0000 * turns, 0x1_0000, turns, d);
    } else {
      DivisionIs(d + 0x1_0000 * turns, 0x1_0000, turns - 1, d + 0x1_0000);
    }
  }

  lemma NearDistance(p: int, q: int)
    requires 0 <= p - q < 0x1_0000
    ensures ToU16(ToU16(p) - ToU16(q)) == p - q
  {
  }

  lemma CountWraps(total: int, more: int)
    ensures ToU32(ToU32(total) + more) == ToU32(total + more)
  {
  }

  lemma RegisterSlot(q: int)
    ensures ToU16(q) % SLOTS == q % SLOTS
  {
  }

  lemma NextRegister(q: int)
    ensures ToU16(ToU16(q) + 1) == ToU16(q + 1)
  {
  }

  lemma SameRegister(p: int, q: int)
    requires -0x1_0000 < p - q < 0x1_0000
    ensures ToU16(p) == ToU16(q) <==> p == q
  {
  }

  // ----- the eight slots as a picture of the lifted window -----

  /** Slot q % 8 holds the packet numbered q. */
  ghost predicate SlotHolds(meta: seq<Meta>, slots: seq<byte>, q: int, h: Held)
    requires |meta| == SLOTS && |slots| == SLOTS * SLOT_SIZE
  {
    var i := q % SLOTS;
    && |h.body| <= SLOT_SIZE
    && meta[i] == Meta(ToU16(q), |h.body|, h.at, true)
    && slots[i * SLOT_SIZE..i * SLOT_SIZE + |h.body|] == h.body
  }

  ghost predicate Mirrors(next: int, held: map<int, Held>, meta: seq<Meta>, slots: seq<byte>) {
    && |meta| == SLOTS && |slots| == SLOTS * SLOT_SIZE
    && (forall q :: q in held ==> next <= q < next + SLOTS && SlotHolds(meta, slots, q, held[q]))
    && (forall i :: 0 <= i < SLOTS && meta[i].occupied ==> SlotNumber(next, i) in held)
  }

  /** The slot of a number of the window tells whether that number is held. */
  lemma SlotTells(next: int, held: map<int, Held>, meta: seq<Meta>, slots: seq<byte>, q: int)
    requires Mirrors(next, held, meta, slots) && next <= q < next + SLOTS
    ensures ToU16(q) % SLOTS == q % SLOTS
    ensures q in held <==> meta[q % SLOTS].occupied && meta[q % SLOTS].seqno == ToU16(q)
  {
    RegisterSlot(q);
    hide ToU16, SlotNumber;
    SlotNumberIs(next, q);
    if q in held {
      assert SlotHolds(meta, slots, q, held[q]);
    }
  }

  lemma MirrorsAdvance(next: int, held: map<int, Held>, meta: seq<Meta>, slots: seq<byte>, to: int)
    requires Mirrors(next, held, meta, slots) && next <= to
    requires forall q :: q in held ==> to <= q
    ensures Mirrors(to, held, meta, slots)
  {
    forall i | 0 <= i < SLOTS && meta[i].occupied
      ensures SlotNumber(to, i) in held
    {
      var q := SlotNumber(next, i);
      SlotNumberIs(to, q);
    }
  }

  /** The slot of the expected number, if that is held. */
  lemma BodyInSlot(next: int, held: map<int, Held>, meta: seq<Meta>, slots: seq<byte>)
    requires Mirrors(next, held, meta, slots) && next in held
    ensures var i, h := next % SLOTS, held[next];
            && meta[i].len == |h.body| <= SLOT_SIZE
            && slots[i * SLOT_SIZE..i * SLOT_SIZE + |h.body|] == h.body
  {
    assert SlotHolds(meta, slots, next, held[next]);
  }

  lemma AllAhead(next: int, held: map<int, Held>, meta: seq<Meta>, slots: seq<byte>)
    requires Mirrors(next, held, meta, slots) && next !in held
    ensures forall q :: q in held ==> next + 1 <= q
  {
  }

  lemma MirrorsDrop(next: int, held: map<int, Held>, meta: seq<Meta>, slots: seq<byte>, m: Meta)
    requires Mirrors(next, held, meta, slots) && next in held && !m.occupied
    ensures Mirrors(next + 1, held - {next}, meta[next % SLOTS := m], slots)
  {
    var held', meta' := held - {next}, meta[next % SLOTS := m];
    forall q | q in held'
      ensures next <= q < next + SLOTS && SlotHolds(meta', slots, q, held'[q])
    {
      SlotStays(next, meta, slots, m, q, held[q]);
    }
    forall i | 0 <= i < SLOTS && meta'[i].occupied
      ensures SlotNumber(next, i) in held'
    {
      hide SlotHolds;
      SlotNumberIs(next, next);
    }
    hide SlotHolds, SlotNumber;
    MirrorsAdvance(next, held', meta', slots, next + 1);
  }

  /** Changing the slot of the expected number leaves those of the others. */
  lemma SlotStays(next: int, meta: seq<Meta>, slots: seq<byte>, m: Meta, q: int, h: Held)
    requires |meta| == SLOTS && |slots| == SLOTS * SLOT_SIZE
    requires next < q < next + SLOTS && SlotHolds(meta, slots, q, h)
    ensures SlotHolds(meta[next % SLOTS := m], slots, q, h)
  {
    DistinctSlots(next, q);
  }

  lemma MirrorsHold(next: int, held: map<int, Held>, meta: seq<Meta>, slots: seq<byte>, q: int, h: Held, slots': seq<byte>)
    requires Mirrors(next, held, meta, slots) && next < q < next + SLOTS
    requires |h.body| <= SLOT_SIZE && |slots'| == |slots|
    requires var base := q % SLOTS * SLOT_SIZE;
             && slots'[base..base + |h.body|] == h.body
             && (forall k :: 0 <= k < |slots| && !(base <= k < base + SLOT_SIZE) ==> slots'[k] == slots[k])
    ensures Mirrors(next, held[q := h], meta[q % SLOTS := Meta(ToU16(q), |h.body|, h.at, true)], slots')
  {
    var held', meta' := held[q := h], meta[q % SLOTS := Meta(ToU16(q), |h.body|, h.at, true)];
    forall p | p in held'
      ensures SlotHolds(meta', slots', p, held'[p])
    {
      if p != q {
        OtherSlot(meta, slots, p, held[p], q, meta'[q % SLOTS], slots');
      }
    }
    forall i | 0 <= i < SLOTS && meta'[i].occupied
      ensures SlotNumber(next, i) in held'
    {
      SlotNumberIs(next, q);
    }
  }

  /** Cleared slots show an empty window, wherever it begins. */
  lemma MirrorsNothing(next: int, meta: seq<Meta>, slots: seq<byte>)
    requires |meta| == SLOTS && |slots| == SLOTS * SLOT_SIZE
    requires forall i :: 0 <= i < SLOTS ==> !meta[i].occupied
    ensures Mirrors(next, map[], meta, slots)
  {
  }

  lemma DistinctSlots(p: int, q: int)
    requires -SLOTS < p - q < SLOTS && p != q
    ensures p % SLOTS != q % SLOTS
  {
  }

  lemma OtherSlot(meta: seq<Meta>, slots: seq<byte>, p: int, h: Held, q: int, m: Meta, slots': seq<byte>)
    requires |meta| == SLOTS && |slots| == SLOTS * SLOT_SIZE == |slots'|
    requires SlotHolds(meta, slots, p, h) && -SLOTS < p - q < SLOTS && p != q
    requires var base := q % SLOTS * SLOT_SIZE;
             forall k :: 0 <= k < |slots| && !(base <= k < base + SLOT_SIZE) ==> slots'[k] == slots[k]
    ensures SlotHolds(meta[q % SLOTS := m], slots', p, h)
  {
    DistinctSlots(p, q);
    SameElsewhere(slots, slots', p % SLOTS, q % SLOTS, |h.body|);
  }

  lemma SameElsewhere(slots: seq<byte>, slots': seq<byte>, i: int, j: int, n: nat)
    requires |slots| == SLOTS * SLOT_SIZE == |slots'| && n <= SLOT_SIZE
    requires 0 <= i < SLOTS && 0 <= j < SLOTS && i != j
    requires forall k :: 0 <= k < |slots| && !(j * SLOT_SIZE <= k < j * SLOT_SIZE + SLOT_SIZE) ==> slots'[k] == slots[k]
    ensures slots'[i * SLOT_SIZE..i * SLOT_SIZE + n] == slots[i * SLOT_SIZE..i * SLOT_SIZE + n]
  {
  }

  /** An occupied slot shows a held number; a held number shows in its slot. */
  lemma OccupiedIsHeld(next: int, held: map<int, Held>, meta: seq<Meta>, slots: seq<byte>, i: nat)
    requires Mirrors(next, held, meta, slots) && i < SLOTS && meta[i].occupied
    ensures var q := SlotNumber(next, i);
            && next <= q < next + SLOTS && q in held
            && meta[i].seqno == ToU16(q) && meta[i].at == held[q].at
  {
    assert SlotHolds(meta, slots, SlotNumber(next, i), held[SlotNumber(next, i)]);
  }

  lemma HeldIsOccupied(next: int, held: map<int, Held>, meta: seq<Meta>, slots: seq<byte>, q: int)
    requires Mirrors(next, held, meta, slots) && q in held
    ensures next <= q < next + SLOTS && SlotNumber(next, q % SLOTS) == q
    ensures meta[q % SLOTS].occupied && meta[q % SLOTS].at == held[q].at
  {
    assert SlotHolds(meta, slots, q, held[q]);
    SlotNumberIs(next, q);
  }

  /** The arithmetic of skipping a gap on the registers. */
  lemma SkipRegisters(next: int, q: int, lost: int)
    requires next <= q < next + SLOTS
    ensures ToU32(ToU32(lost) + ToU16(ToU16(q) - ToU16(next))) == ToU32(lost + (q - next))
  {
    NearDistance(q, next);
    CountWraps(lost, q - next);
  }

  lemma SamePlay(s: Session, len: nat, now: int)
    requires s.rate > 0 && len % 4 == 0 && |s.flow.queue| % 4 == 0
    ensures Proceeds(s.(play := Playing), len, now) == Proceeds(s, len, now)
  {
    hide ReadLength, Corrected;
  }

  /** What a write to the ring means for the flow. */
  lemma PutTakes(f: Flow, h: Heard, body: seq<byte>)
    ensures var o := Put(f, h, body, false);
            if body == [] || |body| > f.cap - |f.queue| then o == Overflow(f.lost)
            else
              && o.Kept? && o.flow.queue == f.queue + body && o.flow.next == h.q + 1
              && o.flow.held == f.held && o.flow.cap == f.cap && o.flow.ssrc == f.ssrc && o.flow.lost == f.lost
  {
  }

  class Stream {
    const ring: Ring
    const meta: array<Meta>
    const slots: array<byte>
    const clock: Clock
    const rate: u32
    const thres: nat

    var nextSeq: u16
    var totalLost: u32
    var ssrc: u32
    var ssrcAt: int
    var tracking: bool
    var synced: bool
    var syncTs: u32
    var needSeed: bool
    var play: Play
    var lastRecv: int
    ghost var flow: Flow

    /** The shape of the objects, kept even while a packet is half processed. */
    ghost predicate Built()
      reads this, ring
    {
      && ring.Valid() && ring.buf != slots
      && meta.Length == SLOTS && slots.Length == SLOTS * SLOT_SIZE
      && 0 < rate && rate * 5 < 0x8000_0000
      && flow.cap == ring.buf.Length - 1
      && totalLost == ToU32(flow.lost)
    }

    ghost predicate Valid()
      reads this, ring, ring.buf, meta, slots
    {
      && Built() && nextSeq == ToU16(flow.next) && flow.ssrc == ssrc
      && Mirrors(flow.next, flow.held, meta[..], slots[..])
      && flow.queue == ring.Contents()
    }

    ghost function Value(): Session
      reads this, clock
    {
      Session(rate, thres, flow, ssrcAt, tracking, synced, syncTs, needSeed, play, clock.Value(), lastRecv)
    }

    /** rtp_stream_init and _rtp_open for 16-bit stereo. */
    constructor (sampleRate: u32, jbufMs: nat, now: int)
      requires 0 < sampleRate && sampleRate * 5 < 0x8000_0000
      ensures Ready() && fresh(ring) && fresh(ring.buf) && fresh(meta) && fresh(slots) && fresh(clock)
      ensures Value() == Opened(sampleRate, ring.buf.Length - 1, thres, now)
      ensures ring.buf.Length == BufferSize(sampleRate, jbufMs) && thres == ring.buf.Length / 2
    {
      var product := ToI32(sampleRate as int * FRAME * jbufMs);
      var audioBytes := Words4(TruncDiv(product, 1000));
      var jbufBytes := audioBytes * 3;
      if jbufBytes < 1024 {
        jbufBytes := 1024;
      }
      ring := new Ring(jbufBytes);
      meta := new Meta[SLOTS](i => Meta(0, 0, 0, false));
      slots := new byte[SLOTS * SLOT_SIZE](i => 0);
      clock := new Clock();
      rate, thres := sampleRate, jbufBytes / 2;
      nextSeq, totalLost, ssrc, ssrcAt, syncTs := 0, 0, 0, 0, 0;
      tracking, synced, needSeed, play, lastRecv := false, false, true, Idle, now;
      flow := Flow(jbufBytes - 1, 0, 0, map[], [], 0, [], [], 0, 0, {});
    }

    /** jbuf_write of one packet, then the registers move past it. */
    method PutRing(src: array<byte>, off: nat, len: nat, ghost h: Heard) returns (ok: bool)
      requires Valid() && src != ring.buf && off + len <= src.Length
      requires h.q == flow.next && h.q !in flow.held
      modifies this`nextSeq, this`flow, ring, ring.buf
      ensures Built() && flow.lost == old(flow.lost)
      ensures var o := Put(old(flow), h, old(src[off..off + len]), false);
              if ok then Valid() && o == Kept(flow) else o == Overflow(flow.lost)
    {
      hide Mirrors, ToU16, ToU32;
      AllAhead(flow.next, flow.held, meta[..], slots[..]);
      NextRegister(flow.next);
      var n := ring.Write(src, off, len);
      if n == 0 {
        return false;
      }
      MirrorsAdvance(flow.next, flow.held, meta[..], slots[..], flow.next + 1);
      nextSeq := ToU16(nextSeq + 1);
      flow := Put(flow, h, src[off..off + len], false).flow;
      ok := true;
    }

    /** One turn of reorder_flush_pcm, for the slot of the expected number. */
    method FlushOne(slot: nat) returns (ok: bool)
      requires Valid() && flow.next in flow.held && slot == flow.next % SLOTS
      modifies this`nextSeq, this`flow, ring, ring.buf, meta
      ensures Built() && flow.lost == old(flow.lost)
      ensures var o := PutHeld(old(flow));
              if ok then Valid() && o == Kept(flow) else o == Overflow(flow.lost)
    {
      hide Mirrors, SlotHolds, ToU16, ToU32;
      ghost var h := flow.held[flow.next];
      NextRegister(flow.next);
      BodyInSlot(flow.next, flow.held, meta[..], slots[..]);
      var n := ring.Write(slots, slot * SLOT_SIZE, meta[slot].len);
      if n == 0 {
        return false;
      }
      MirrorsDrop(flow.next, flow.held, meta[..], slots[..], meta[slot].(occupied := false));
      ghost var was := meta[..];
      meta[slot] := meta[slot].(occupied := false);
      assert meta[..] == was[slot := meta[slot]];
      nextSeq := ToU16(nextSeq + 1);
      flow := PutHeld(flow).flow;
      ok := true;
    }

    /** reorder_flush_pcm. */
    method FlushPcm() returns (ok: bool)
      requires Valid()
      modifies this`nextSeq, this`flow, ring, ring.buf, meta
      ensures Built() && flow.lost == old(flow.lost)
      ensures var o := Flush(old(flow));
              if ok then Valid() && o == Kept(flow) else o == Overflow(flow.lost)
    {
      while true
        invariant Valid() && flow.lost == old(flow.lost)
        invariant Flush(flow) == Flush(old(flow))
        decreases flow.held.Keys
      {
        SlotTells(flow.next, flow.held, meta[..], slots[..], flow.next);
        var slot := nextSeq % SLOTS;
        var m := meta[slot];
        if !m.occupied || m.seqno != nextSeq {
          return true;
        }
        ok := FlushOne(slot);
        if !ok {
          return;
        }
      }
    }

    /** Between packets the expected number itself is never waiting in a slot. */
    ghost predicate Settled()
      reads this, ring, ring.buf, meta, slots
    {
      Valid() && flow.next !in flow.held
    }

    /** The scan for the smallest buffered number. */
    method MinOccupied(start: u16) returns (found: bool, min: u16)
      requires Valid()
      ensures found <==> flow.held != map[]
      ensures found ==> min == ToU16(FirstHeld(flow.held, flow.next, SLOTS))
    {
      hide Mirrors, SlotNumber, ToI16, ToU16;
      found, min := false, start;
      ghost var q := flow.next;
      for i := 0 to SLOTS
        invariant flow.next <= q < flow.next + SLOTS
        invariant found ==> q in flow.held && min == ToU16(q)
        invariant forall j :: 0 <= j < i && meta[j].occupied ==> found && q <= SlotNumber(flow.next, j)
      {
        if meta[i].occupied {
          OccupiedIsHeld(flow.next, flow.held, meta[..], slots[..], i);
          ghost var p := SlotNumber(flow.next, i);
          NearDifference(p, q);
          if !found || ToI16(meta[i].seqno as int - min as int) < 0 {
            min := meta[i].seqno;
            found := true;
            q := p;
          }
        }
      }
      forall p | p in flow.held
        ensures found && q <= p
      {
        HeldIsOccupied(flow.next, flow.held, meta[..], slots[..], p);
      }
    }

    /** Counting the numbers before min as lost and moving on to min. */
    method SkipTo(min: u16)
      requires Valid() && flow.held != map[] && min == ToU16(FirstHeld(flow.held, flow.next, SLOTS))
      modifies this`nextSeq, this`totalLost, this`flow
      ensures Valid() && flow == Skip(old(flow)) && flow.next in flow.held
    {
      hide Mirrors, ToU16, ToU32;
      ghost var q := FirstHeld(flow.held, flow.next, SLOTS);
      ghost var p :| p in flow.held;
      forall p | p in flow.held
        ensures q <= p < flow.next + SLOTS
      {
        HeldIsOccupied(flow.next, flow.held, meta[..], slots[..], p);
      }
      assert q in flow.held;
      SkipRegisters(flow.next, q, flow.lost);
      MirrorsAdvance(flow.next, flow.held, meta[..], slots[..], q);
      var skipped := ToU16(min as int - nextSeq as int);
      totalLost := ToU32(totalLost as int + skipped as int);
      nextSeq := min;
      flow := Skip(flow);
    }

    /** reorder_timeout_pcm. */
    method TimeoutPcm(now: int) returns (ok: bool)
      requires Settled()
      modifies this`nextSeq, this`totalLost, this`flow, ring, ring.buf, meta
      ensures Built()
      ensures var o := Expire(old(flow), now);
              if ok then Settled() && o == Kept(flow) else o == Overflow(flow.lost)
    {
      var hasOld := HasOld(now);
      if !hasOld {
        return true;
      }
      var found, min := MinOccupied(nextSeq);
      SameRegister(FirstHeld(flow.held, flow.next, SLOTS), flow.next);
      if found && min != nextSeq {
        SkipTo(min);
      }
      FlushWindow(flow, flow.next + SLOTS);
      ok := FlushPcm();
    }

    method HasOld(now: int) returns (found: bool)
      requires Valid()
      ensures found <==> Stale(flow, now)
    {
      hide Mirrors, SlotNumber;
      for i := 0 to SLOTS
        invariant forall j :: 0 <= j < i && meta[j].occupied ==> now - meta[j].at <= MAX_WAIT_US
      {
        if meta[i].occupied && now - meta[i].at > MAX_WAIT_US {
          OccupiedIsHeld(flow.next, flow.held, meta[..], slots[..], i);
          return true;
        }
      }
      found := false;
      forall p | p in flow.held
        ensures now - flow.held[p].at <= MAX_WAIT_US
      {
        HeldIsOccupied(flow.next, flow.held, meta[..], slots[..], p);
      }
    }

    /** Copying a packet that came early into its slot. */
    method HoldPacket(src: array<byte>, off: nat, len: nat, seqno: u16, now: int, ghost q: int, ghost pkt: Packet)
      requires Valid() && src != slots && off + len <= src.Length
      requires flow.next < q < flow.next + SLOTS && ToU16(q) == seqno
      requires pkt.payload == src[off..off + len]
      modifies this`flow, meta, slots
      ensures Valid() && flow == Hold(old(flow), q, pkt, now)
    {
      hide Mirrors, SlotHolds, ToU16;
      RegisterSlot(q);
      var slot := seqno % SLOTS;
      var n := if len > SLOT_SIZE then SLOT_SIZE else len;
      ghost var before, was := slots[..], meta[..];
      ghost var h := Held(pkt, Clip(pkt.payload), now);
      assert src[off..off + n] == h.body;
      CopyInto(slots, slot * SLOT_SIZE, src, off, n);
      assert meta[..] == was;
      MirrorsHold(flow.next, flow.held, was, before, q, h, slots[..]);
      meta[slot] := Meta(seqno, n, now, true);
      assert meta[..] == was[slot := Meta(seqno, n, now, true)];
      flow := Hold(flow, q, pkt, now);
    }

    /** The expected packet: into the ring, then whatever was waiting for it. */
    method TakeNext(src: array<byte>, off: nat, len: nat, ghost pkt: Packet) returns (ok: bool)
      requires Settled() && src != ring.buf && off + len <= src.Length
      requires pkt.payload == src[off..off + len]
      modifies this`nextSeq, this`flow, ring, ring.buf, meta
      ensures Built()
      ensures var o := Deliver(old(flow), old(flow.next), pkt);
              if ok then Settled() && o == Kept(flow) else o == Overflow(flow.lost)
    {
      ok := PutRing(src, off, len, Heard(flow.next, pkt));
      if ok {
        FlushWindow(flow, flow.next + SLOTS);
        ok := FlushPcm();
      }
    }

    /** reorder_reset. */
    method ClearSlots()
      requires meta.Length == SLOTS
      modifies meta
      ensures forall i :: 0 <= i < SLOTS ==> !meta[i].occupied
    {
      for i := 0 to SLOTS
        invariant forall j :: 0 <= j < i ==> !meta[j].occupied
      {
        meta[i] := meta[i].(occupied := false);
      }
    }

    /** The first half of the far branch: give up on the first gap, flush. */
    method SkipAhead(seqno: u16) returns (ok: bool)
      requires Settled()
      modifies this`nextSeq, this`totalLost, this`flow, ring, ring.buf, meta
      ensures Built()
      ensures var f := old(flow);
              var o := if f.held == map[] then Kept(f) else Flush(Skip(f));
              if ok then Settled() && o == Kept(flow) && f.next <= flow.next <= f.next + SLOTS
                         && flow.held.Keys <= f.held.Keys && flow.heard == f.heard
              else o == Overflow(flow.lost)
    {
      ghost var hi := flow.next + SLOTS;
      var found, min := MinOccupied(seqno);
      ok := true;
      if found {
        forall p | p in flow.held
          ensures p < hi
        {
          HeldIsOccupied(flow.next, flow.held, meta[..], slots[..], p);
        }
        SkipTo(min);
        FlushWindow(flow, hi);
        FlushHears(flow);
        ok := FlushPcm();
      }
    }

    /** Counting all numbers before q as lost, and emptying the slots. */
    method GiveUp(seqno: u16, ghost q: int)
      requires Settled() && flow.next <= q < flow.next + 0x8000 && ToU16(q) == seqno
      modifies this`totalLost, this`flow, meta
      ensures Built() && flow.queue == ring.Contents() && flow.ssrc == ssrc
      ensures forall i :: 0 <= i < SLOTS ==> !meta[i].occupied
      ensures flow == old(flow).(lost := old(flow).lost + (q - old(flow).next), held := map[])
    {
      hide Mirrors, ToU32, ToI16;
      NearDistance(q, flow.next);
      CountWraps(flow.lost, q - flow.next);
      totalLost := ToU32(totalLost as int + ToU16(seqno as int - nextSeq as int) as int);
      ClearSlots();
      flow := flow.(lost := flow.lost + (q - flow.next), held := map[]);
    }

    /** The hard reset of the far branch: everything up to the packet is lost. */
    method StartOver(src: array<byte>, off: nat, len: nat, seqno: u16, ghost q: int, ghost pkt: Packet)
        returns (ok: bool)
      requires Settled() && src != ring.buf && off + len <= src.Length
      requires flow.next <= q < flow.next + 0x8000 && ToU16(q) == seqno
      requires pkt.payload == src[off..off + len]
      modifies this`nextSeq, this`totalLost, this`flow, ring, ring.buf, meta
      ensures Built()
      ensures var f := old(flow);
              var o := Put(f.(lost := f.lost + (q - f.next), held := map[]), Heard(q, pkt), pkt.payload, false);
              if ok then Settled() && o == Kept(flow) else o == Overflow(flow.lost)
    {
      hide Mirrors, SlotHolds, SlotNumber, ToU16, ToU32, ToI16, Clip, Lift, FirstHeld, Flush, PutHeld;
      GiveUp(seqno, q);
      MirrorsNothing(q + 1, meta[..], slots[..]);
      NextRegister(q);
      PutTakes(flow, Heard(q, pkt), pkt.payload);
      hide Put;
      var n := ring.Write(src, off, len);
      if n == 0 {
        return false;
      }
      nextSeq := ToU16(seqno as int + 1);
      flow := Put(flow, Heard(q, pkt), pkt.payload, false).flow;
      ok := true;
    }

    /** A packet eight or more ahead. */
    method TakeFar(src: array<byte>, off: nat, len: nat, seqno: u16, now: int, ghost q: int, ghost pkt: Packet)
        returns (ok: bool)
      requires Settled() && src != ring.buf && src != slots && off + len <= src.Length
      requires flow.next + SLOTS <= q < flow.next + 0x8000 && ToU16(q) == seqno
      requires pkt.payload == src[off..off + len]
      modifies this`nextSeq, this`totalLost, this`flow, ring, ring.buf, meta, slots
      ensures Built()
      ensures var o := Far(old(flow), q, pkt, now);
              if ok then Settled() && o == Kept(flow) else o == Overflow(flow.lost)
    {
      hide Mirrors, Deliver, ToU32;
      ok := SkipAhead(seqno);
      if !ok {
        return;
      }
      NearDifference(q, flow.next);
      var diff := ToI16(seqno as int - nextSeq as int);
      if diff == 0 {
        ok := TakeNext(src, off, len, pkt);
      } else if 0 < diff < SLOTS {
        HoldPacket(src, off, len, seqno, now, q, pkt);
      } else {
        ok := StartOver(src, off, len, seqno, q, pkt);
      }
    }

    /** The reorder stage of the packet task, up to and with the timeout check. */
    method Arrived(src: array<byte>, off: nat, len: nat, seqno: u16, now: int, ghost pkt: Packet) returns (ok: bool)
      requires Settled() && src != ring.buf && src != slots && off + len <= src.Length
      requires pkt.payload == src[off..off + len] && pkt.seqno == seqno
      modifies this`nextSeq, this`totalLost, this`flow, ring, ring.buf, meta, slots
      ensures Built()
      ensures var o := Arrive(old(flow), pkt, now);
              if ok then Settled() && o == Kept(flow) else o == Overflow(flow.lost)
    {
      hide Mirrors, Far, Deliver, Expire, ToU16, ToI16;
      ghost var q := Lift(flow.next, seqno);
      LiftIsCongruent(flow.next, seqno);
      flow := flow.(heard := flow.heard + {Heard(q, pkt)});
      var diff := ToI16(seqno as int - nextSeq as int);
      if diff < 0 {
        return true;
      } else if diff == 0 {
        ok := TakeNext(src, off, len, pkt);
      } else if diff < SLOTS {
        SlotTells(flow.next, flow.held, meta[..], slots[..], q);
        if meta[seqno % SLOTS].occupied && meta[seqno % SLOTS].seqno == seqno {
          return true;
        }
        HoldPacket(src, off, len, seqno, now, q, pkt);
        ok := true;
      } else {
        if q in flow.held {
          HeldIsOccupied(flow.next, flow.held, meta[..], slots[..], q);
        }
        ok := TakeFar(src, off, len, seqno, now, q, pkt);
      }
      if ok {
        ok := TimeoutPcm(now);
      }
    }

    /** What holds between packets and between reads; before the first packet of
        an epoch the sequence register is stale. */
    ghost predicate Ready()
      reads this, ring, ring.buf, meta, slots
    {
      && Built() && flow.ssrc == ssrc && flow.queue == ring.Contents()
      && (!needSeed ==> nextSeq == ToU16(flow.next))
      && Mirrors(flow.next, flow.held, meta[..], slots[..]) && flow.next !in flow.held
    }

    /** _rtp_full_reset, also after a packet that could not be stored. */
    method FullReset()
      requires Built()
      modifies this, ring, meta, clock
      ensures Ready() && Value() == Reset(old(Value()), old(flow.lost))
    {
      ring.Clear();
      play := Idle;
      ClearSlots();
      tracking := false;
      synced := false;
      syncTs := 0;
      needSeed := true;
      ssrc := 0;
      clock.Abandon();
      MirrorsNothing(0, meta[..], slots[..]);
      flow := Cleared(flow, flow.lost).(ssrc := 0);
    }

    /** Noting the arrival; a long gap spoils the drift window. */
    method NoteArrival(now: int)
      requires Ready()
      modifies this`lastRecv, clock
      ensures Ready() && Value() == Received(old(Value()), now)
    {
      if now - lastRecv > GAP_US && tracking && clock.windowValid {
        clock.ResetWindow(now);
      }
      lastRecv := now;
    }

    /** The arbitration between streams; true if the packet is ours. */
    method Arbitrate(from: u32, now: int) returns (mine: bool)
      requires Ready()
      modifies this, ring, meta, clock
      ensures Ready() && mine == !Foreign(old(Value()), from, now)
      ensures Value() == if mine then Adopt(old(Value()), from, now) else old(Value())
    {
      hide Mirrors, ToU16, ToU32;
      if from != ssrc {
        if tracking {
          if now - ssrcAt < SSRC_HOLD_US {
            return false;
          }
          FullReset();
        }
      }
      ssrc := from;
      ssrcAt := now;
      flow := flow.(ssrc := from);
      mine := true;
    }

    method TrackTimestamp(ts: u32, now: int)
      requires Ready()
      modifies this`tracking, this`needSeed, this`syncTs, this`synced, clock
      ensures Ready() && Value() == Track(old(Value()), ts, now)
    {
      if !tracking {
        clock.StartTracking(ts, now);
        tracking := true;
        needSeed := true;
        syncTs := ToU32((ts as int / rate as int + 2) * rate as int);
        synced := false;
      } else {
        var jump := ToI32(ts as int - clock.lastTs as int);
        var maxJump := rate as int * 5;
        if synced && (jump < -maxJump || jump > maxJump) {
          clock.ReAnchor(ts, now);
        }
        clock.lastTs := ts;
      }
    }

    method ReachSync(ts: u32, now: int)
      requires Ready()
      modifies this`synced, this`needSeed, clock
      ensures Ready() && Value() == Sync(old(Value()), ts, now)
    {
      if !synced {
        if ToI32(ts as int - syncTs as int) >= 0 {
          synced := true;
          clock.ReAnchor(ts, now);
          needSeed := true;
        }
      }
    }

    method SequencePacket(src: array<byte>, len: nat, seqno: u16, now: int, ghost pkt: Packet)
      requires Ready() && src != ring.buf && src != slots && 12 + len <= src.Length
      requires pkt.payload == src[12..12 + len] && pkt.seqno == seqno
      modifies this, ring, ring.buf, meta, slots, clock
      ensures Ready() && Value() == Sequence(old(Value()), pkt, now)
    {
      hide Arrive;
      if needSeed {
        nextSeq := seqno;
        needSeed := false;
        ClearSlots();
        flow := Seeded(flow, seqno);
      }
      var ok := Arrived(src, 12, len, seqno, now, pkt);
      if !ok {
        FullReset();
      }
    }

    /** The fields of the fixed header the receiver looks at. */
    method Header(pkt: array<byte>, ret: nat) returns (seqno: u16, ts: u32, from: u32)
      requires 12 <= ret <= pkt.Length
      ensures var d := pkt[..ret];
              seqno == Be16(d, 2) && ts == Be32(d, 4) && from == Be32(d, 8)
    {
      seqno := pkt[2] as int * 0x100 + pkt[3] as int;
      ts := (pkt[4] as int * 0x100 + pkt[5] as int) * 0x1_0000 + (pkt[6] as int * 0x100 + pkt[7] as int);
      from := (pkt[8] as int * 0x100 + pkt[9] as int) * 0x1_0000 + (pkt[10] as int * 0x100 + pkt[11] as int);
    }

    /** The body of the packet task for one datagram of ret bytes. */
    method Drain(pkt: array<byte>, ret: nat, now: int, ghost no: nat)
      requires Ready() && ret <= pkt.Length && pkt != ring.buf && pkt != slots
      modifies this, ring, ring.buf, meta, slots, clock, pkt
      ensures Ready() && Value() == Receive(old(Value()), old(pkt[..ret]), now, no)
    {
      hide Sequence, Track, Sync, Adopt, Received, Foreign, Swapped, Mirrors, Be16, Be32, ToU16, ToU32;
      if ret < 12 || ret % 4 != 0 {
        return;
      }
      ghost var d := pkt[..ret];
      assert d[12..] == pkt[12..ret];
      var seqno, ts, from := Header(pkt, ret);
      NoteArrival(now);
      var mine := Arbitrate(from, now);
      if !mine {
        return;
      }
      TrackTimestamp(ts, now);
      SwapPairs(pkt, 12, ret);
      ReachSync(ts, now);
      if !synced {
        return;
      }
      SequencePacket(pkt, ret - 12, seqno, now, Parse(d, no));
    }

    /** One look at the waiting rules; true when the reader may go on. */
    method MayRead(now: int) returns (go: bool)
      requires Ready()
      modifies this`play, clock
      ensures Ready()
      ensures var s := old(Value());
              && go == !MustWait(s)
              && Value() == if go then s.(play := Playing)
                            else s.(play := Wait(s).0,
                                    drift := if Wait(s).1 then Gap(s.drift, now) else s.drift)
    {
      if !synced {
        return false;
      }
      var avail := ring.Count();
      if play == Idle {
        play := Filling;
      }
      if play == Filling {
        if avail < thres {
          return false;
        }
        play := Playing;
      } else if avail < 8 {
        if clock.windowValid {
          clock.ResetWindow(now);
        }
        return false;
      }
      go := true;
    }

    /** jbuf_read of the length the reader computed. */
    method TakeBytes(buffer: array<byte>, len: nat) returns (wr: nat)
      requires Ready() && len <= buffer.Length && buffer != ring.buf && buffer != slots
      modifies this`flow, ring, buffer
      ensures Ready() && wr == ReadLength(|old(flow.queue)|, len)
      ensures buffer[..wr] == old(flow.queue)[..wr] && flow == Take(old(flow), wr)
    {
      hide Mirrors, ToU16, ToU32;
      var available := ring.Count();
      var readlen := if available > 4 then if available > len then len else (available / 4 - 1) * 4 else 0;
      wr := ring.Read(buffer, readlen);
      ghost var f := flow;
      flow := Take(f, wr);
      assert f.queue[..wr] == buffer[..wr] && f.queue[wr..] == ring.Contents();
    }

    /** The drift stage of a read that took `got` bytes. */
    method Correct(buffer: array<byte>, got: nat, len: nat, now: int) returns (wr: nat)
      requires Ready() && got <= len <= buffer.Length && got % 4 == 0 && buffer != ring.buf && buffer != slots
      modifies clock, buffer
      ensures Ready() && wr <= len
      ensures (Value(), buffer[..wr]) == Corrected(old(Value()), old(buffer[..got]), len, now)
    {
      hide Mirrors, OnRead, Decide, Edited, RawDrift, ToU16, ToU32;
      wr := got;
      if tracking && wr > 0 {
        var fill := ring.Count();
        wr := clock.AfterRead(buffer, wr, len, fill, ring.buf.Length, rate, now);
      }
    }

    /** Taking and correcting, once the reader may go on. */
    method GoOn(buffer: array<byte>, len: nat, now: int) returns (wr: nat)
      requires Ready() && len <= buffer.Length && len % 4 == 0 && |flow.queue| % 4 == 0
      requires buffer != ring.buf && buffer != slots && play == Playing
      modifies this`flow, ring, clock, buffer
      ensures Ready() && wr <= len && (Value(), buffer[..wr]) == Proceeds(old(Value()), len, now)
    {
      hide Mirrors, Corrected, ToU16, ToU32, ReadLength, Take;
      ReadsWords(|flow.queue|, len);
      ghost var s := Value();
      var n := TakeBytes(buffer, len);
      assert Value() == s.(flow := Take(s.flow, n));
      wr := Correct(buffer, n, len, now);
    }

    /** One pass of the reader: wr bytes are handed out, none while it has to wait. */
    method ReadPass(buffer: array<byte>, len: nat, now: int) returns (wr: nat)
      requires Ready() && len <= buffer.Length && len % 4 == 0 && |flow.queue| % 4 == 0
      requires buffer != ring.buf && buffer != slots
      modifies this`play, this`flow, ring, clock, buffer
      ensures Ready() && wr <= len
      ensures var (s', block) := Read(old(Value()), len, now);
              Value() == s' && buffer[..wr] == block
    {
      hide Mirrors, ToU16, ToU32, MustWait, Gap, Proceeds;
      SamePlay(Value(), len, now);
      var go := MayRead(now);
      if !go {
        return 0;
      }
      wr := GoOn(buffer, len, now);
    }
  }
}
