/** What the packet path does with sequence numbers, told on unbounded ("lifted")
    sequence numbers: a window of the seven numbers after the next expected one,
    a queue of bytes for the reader and a ledger of the current epoch, the span
    between two full resets. RtpStream refines this with 16-bit registers and
    eight slots. */
module Reorder {
  import opened Arithmetic
  import opened Words

  const SLOTS := 8
  const SLOT_SIZE := 1500
  const MAX_WAIT_US := 40000

  /** A parsed packet; the payload is already byte-swapped. `no` is history: which
      event of the run brought the packet. */
  datatype Packet = Packet(seqno: u16, ts: u32, ssrc: u32, payload: seq<byte>, no: nat)

  /** A packet together with the sequence number it was understood to have. */
  datatype Heard = Heard(q: int, pkt: Packet)

  datatype Held = Held(pkt: Packet, body: seq<byte>, at: int)

  /** What was written of a packet, and whether it had waited in the window. */
  datatype Chunk = Chunk(src: Heard, body: seq<byte>, waited: bool)

  /** State of one epoch. `queue` is what the ring holds, `taken` what the reader
      took, `out` the packets written to the ring, `lost - lost0` the packets
      counted lost since the epoch began. */
  datatype Flow = Flow(cap: nat, ssrc: u32,
                       next: int, held: map<int, Held>, queue: seq<byte>,
                       seed: int, out: seq<Chunk>, taken: seq<byte>,
                       lost: int, lost0: int, heard: set<Heard>)

  /** A step either goes on or reports that the ring could not take a block. */
  datatype Outcome = Kept(flow: Flow) | Overflow(lost: int) {
    predicate IsFailure() {
      Overflow?
    }
    function PropagateFailure(): Outcome
      requires Overflow?
    {
      this
    }
    function Extract(): Flow
      requires Kept?
    {
      flow
    }
  }

  /** The reading of a 16-bit number nearest to the next expected one. */
  function Lift(next: int, seqno: u16): (q: int)
    ensures next - 0x8000 <= q < next + 0x8000
  {
    next + ToI16(seqno - ToU16(next))
  }

  lemma LiftIsCongruent(next: int, seqno: u16)
    ensures ToU16(Lift(next, seqno)) == seqno
    ensures Lift(next, seqno) % SLOTS == seqno % SLOTS
  {
    Division(next, 0x1_0000);
    var d := seqno as int - ToU16(next) as int;
    Division(d, 0x1_0000);
    var turns := next / 0x1_0000 - d / 0x1_0000 - (if d % 0x1_0000 < 0x8000 then 0 else 1);
    assert Lift(next, seqno) == 0x1_0000 * turns + seqno;
    DivisionIs(Lift(next, seqno), 0x1_0000, turns, seqno);
    Division(seqno, SLOTS);
    DivisionIs(Lift(next, seqno), SLOTS, 0x2000 * turns + seqno as int / SLOTS, seqno as int % SLOTS);
  }

  /** What fits into a slot of the reorder buffer. */
  function Clip(payload: seq<byte>): (body: seq<byte>)
    ensures body <= payload && |body| <= SLOT_SIZE
  {
    if |payload| > SLOT_SIZE then payload[..SLOT_SIZE] else payload
  }

  // ----- the steps -----

  /** Writing a packet to the ring; an empty body counts as "does not fit". */
  function Put(f: Flow, src: Heard, body: seq<byte>, waited: bool): Outcome {
    if body == [] || |body| > f.cap - |f.queue| then Overflow(f.lost)
    else Kept(f.(queue := f.queue + body, out := f.out + [Chunk(src, body, waited)], next := src.q + 1))
  }

  /** The step of the flush: the expected number leaves the window for the ring. */
  function PutHeld(f: Flow): Outcome
    requires f.next in f.held
  {
    Put(f.(held := f.held - {f.next}), Heard(f.next, f.held[f.next].pkt), f.held[f.next].body, true)
  }

  function Flush(f: Flow): Outcome
    decreases f.held.Keys
  {
    if f.next !in f.held then Kept(f)
    else
      var g :- PutHeld(f);
      Flush(g)
  }

  /** The first held number in [from, from + n), or from + n. */
  function FirstHeld(held: map<int, Held>, from: int, n: nat): (q: int)
    ensures from <= q <= from + n
    ensures q < from + n ==> q in held
    ensures forall p :: from <= p < q ==> p !in held
    decreases n
  {
    if n == 0 || from in held then from else FirstHeld(held, from + 1, n - 1)
  }

  /** Giving up on the numbers before the first held one. */
  function Skip(f: Flow): Flow {
    var q := FirstHeld(f.held, f.next, SLOTS);
    f.(lost := f.lost + (q - f.next), next := q)
  }

  function Hold(f: Flow, q: int, pkt: Packet, now: int): Flow {
    f.(held := f.held[q := Held(pkt, Clip(pkt.payload), now)])
  }

  ghost predicate Stale(f: Flow, now: int) {
    exists q :: q in f.held && now - f.held[q].at > MAX_WAIT_US
  }

  /** Skipping the gap once some held packet waited too long. */
  ghost function Expire(f: Flow, now: int): Outcome {
    if Stale(f, now) then Flush(Skip(f)) else Kept(f)
  }

  function Deliver(f: Flow, q: int, pkt: Packet): Outcome {
    var g :- Put(f, Heard(q, pkt), pkt.payload, false);
    Flush(g)
  }

  /** A packet eight or more numbers ahead. */
  function Far(f: Flow, q: int, pkt: Packet, now: int): Outcome {
    var g :- if f.held == map[] then Kept(f) else Flush(Skip(f));
    if q == g.next then Deliver(g, q, pkt)
    else if q < g.next + SLOTS then Kept(Hold(g, q, pkt, now))
    else Put(g.(lost := g.lost + (q - g.next), held := map[]), Heard(q, pkt), pkt.payload, false)
  }

  /** A packet of the tracked stream after its sync point. */
  ghost function Arrive(f0: Flow, pkt: Packet, now: int): Outcome {
    var q := Lift(f0.next, pkt.seqno);
    var f := f0.(heard := f0.heard + {Heard(q, pkt)});
    if q < f.next || q in f.held then Kept(f)
    else
      var g :- if q == f.next then Deliver(f, q, pkt)
               else if q < f.next + SLOTS then Kept(Hold(f, q, pkt, now))
               else Far(f, q, pkt, now);
      Expire(g, now)
  }

  /** Taking n bytes out of the ring. */
  function Take(f: Flow, n: nat): Flow
    requires n <= |f.queue|
  {
    f.(taken := f.taken + f.queue[..n], queue := f.queue[n..])
  }

  /** The epoch that begins when the sync point is reached. */
  function Seeded(f: Flow, seqno: u16): Flow {
    f.(held := map[], next := seqno, seed := seqno)
  }

  /** What a full reset leaves: an empty ring and an empty window. */
  function Cleared(f: Flow, lost: int): Flow {
    f.(next := 0, held := map[], queue := [], seed := 0, out := [], taken := [],
       lost := lost, lost0 := lost, heard := {})
  }

  // ----- what every step keeps -----

  function Spoken(out: seq<Chunk>): seq<byte> {
    if out == [] then [] else Spoken(out[..|out| - 1]) + out[|out| - 1].body
  }

  ghost predicate Genuine(h: Heard, ssrc: u32) {
    h.pkt.ssrc == ssrc && ToU16(h.q) == h.pkt.seqno && |h.pkt.payload| % 4 == 0
  }

  ghost predicate HeldWell(f: Flow, hi: int) {
    forall q :: q in f.held ==>
      && f.next <= q < hi
      && Heard(q, f.held[q].pkt) in f.heard
      && f.held[q].body == Clip(f.held[q].pkt.payload)
  }

  ghost predicate ChunkWell(f: Flow, c: Chunk) {
    && f.seed <= c.src.q < f.next
    && c.src in f.heard
    && c.body == if c.waited then Clip(c.src.pkt.payload) else c.src.pkt.payload
  }

  ghost predicate OutWell(f: Flow) {
    && (forall k :: 0 <= k < |f.out| ==> ChunkWell(f, f.out[k]))
    && (forall j, k :: 0 <= j < k < |f.out| ==> f.out[j].src.q < f.out[k].src.q)
    && (f.out != [] ==> f.out[0].src.q == f.seed)
  }

  ghost predicate Ledger(f: Flow) {
    && f.seed <= f.next && f.lost0 <= f.lost
    && |f.out| + (f.lost - f.lost0) == f.next - f.seed
  }

  ghost predicate BytesWell(f: Flow) {
    && f.taken + f.queue == Spoken(f.out)
    && |f.queue| <= f.cap && |f.queue| % 4 == 0
  }

  /** The invariant with the held numbers confined to [next, hi). */
  ghost predicate Sound(f: Flow, hi: int) {
    && hi <= f.next + SLOTS
    && HeldWell(f, hi) && OutWell(f) && Ledger(f) && BytesWell(f)
    && (forall h :: h in f.heard ==> Genuine(h, f.ssrc))
  }

  /** The invariant between packets. */
  ghost predicate Inv(f: Flow) {
    Sound(f, f.next + SLOTS) && f.next !in f.held && f.out != []
  }

  lemma SpokenAppend(out: seq<Chunk>, c: Chunk)
    ensures Spoken(out + [c]) == Spoken(out) + c.body
  {
    assert (out + [c])[..|out|] == out;
  }

  ghost predicate Fits(f: Flow, src: Heard, body: seq<byte>, waited: bool) {
    && src.q == f.next && src in f.heard
    && body == (if waited then Clip(src.pkt.payload) else src.pkt.payload)
    && (f.out == [] ==> src.q == f.seed)
    && Put(f, src, body, waited).Kept?
  }

  lemma PutOut(f: Flow, src: Heard, body: seq<byte>, waited: bool)
    requires OutWell(f) && Ledger(f) && Fits(f, src, body, waited)
    ensures OutWell(Put(f, src, body, waited).flow) && Ledger(Put(f, src, body, waited).flow)
  {
    var g := Put(f, src, body, waited).flow;
    forall k | 0 <= k < |g.out|
      ensures ChunkWell(g, g.out[k])
    {
      if k < |f.out| {
        assert ChunkWell(f, f.out[k]);
      }
    }
  }

  lemma PutBytes(f: Flow, src: Heard, body: seq<byte>, waited: bool)
    requires BytesWell(f) && Fits(f, src, body, waited) && Genuine(src, f.ssrc)
    ensures BytesWell(Put(f, src, body, waited).flow)
  {
    SpokenAppend(f.out, Chunk(src, body, waited));
    assert f.taken + (f.queue + body) == (f.taken + f.queue) + body;
  }

  lemma PutSound(f: Flow, src: Heard, body: seq<byte>, waited: bool, hi: int)
    requires Sound(f, hi) && Fits(f, src, body, waited) && src.q !in f.held
    ensures Sound(Put(f, src, body, waited).flow, hi)
    ensures Put(f, src, body, waited).flow.out != []
  {
    PutOut(f, src, body, waited);
    PutBytes(f, src, body, waited);
    var g := Put(f, src, body, waited).flow;
    assert HeldWell(g, hi);
  }

  /** Every number held in f is still held in g or behind its expected number. */
  ghost predicate Passed(f: Flow, g: Flow) {
    forall q :: q in f.held ==> q < g.next || q in g.held
  }

  /** As long as nothing was counted lost, whatever was heard is written or held. */
  ghost predicate Complete(f: Flow) {
    f.lost == f.lost0 ==> forall h :: h in f.heard ==> h.q < f.next || h.q in f.held
  }

  lemma DropSound(f: Flow, hi: int)
    requires Sound(f, hi) && f.next in f.held
    ensures Sound(f.(held := f.held - {f.next}), hi)
  {
    var g := f.(held := f.held - {f.next});
    forall k | 0 <= k < |g.out|
      ensures ChunkWell(g, g.out[k])
    {
      assert ChunkWell(f, f.out[k]);
    }
  }

  lemma PutHeldSound(f: Flow, hi: int)
    requires Sound(f, hi) && f.next in f.held && f.out != [] && PutHeld(f).Kept?
    ensures Sound(PutHeld(f).flow, hi)
  {
    var h := f.held[f.next];
    DropSound(f, hi);
    PutSound(f.(held := f.held - {f.next}), Heard(f.next, h.pkt), h.body, true, hi);
  }

  /** What a flush leaves as it was. */
  ghost predicate SameEpoch(f: Flow, g: Flow) {
    && g.seed == f.seed && g.heard == f.heard && g.ssrc == f.ssrc && g.cap == f.cap
    && g.lost == f.lost && g.lost0 == f.lost0
  }

  lemma PutHeldMoves(f: Flow)
    requires f.next in f.held && PutHeld(f).Kept?
    ensures var g := PutHeld(f).flow;
            && g.next == f.next + 1 && f.out <= g.out && |g.out| == |f.out| + 1
            && SameEpoch(f, g) && g.held == f.held - {f.next}
  {
  }

  /** Flushing keeps the invariant, frees the next number, moves next only
      forward and at most to hi, and keeps the numbers it does not write. */
  lemma {:induction false} FlushSound(f: Flow, hi: int)
    requires Sound(f, hi) && f.next <= hi && (f.out != [] || f.held == map[])
    requires Flush(f).Kept?
    ensures var g := Flush(f).flow;
            && Sound(g, hi) && g.next !in g.held && f.next <= g.next <= hi
            && f.out <= g.out && |g.out| - |f.out| == g.next - f.next
            && SameEpoch(f, g) && g.held.Keys <= f.held.Keys
            && (f.next in f.held ==> f.next < g.next) && Passed(f, g)
    decreases f.held.Keys
  {
    if f.next in f.held {
      assert f.next < hi;
      PutHeldSound(f, hi);
      PutHeldMoves(f);
      hide Sound, PutHeld;
      FlushSound(PutHeld(f).flow, hi);
    }
  }

  lemma SkipSound(f: Flow, hi: int)
    requires Sound(f, hi) && f.held != map[]
    ensures var g := Skip(f);
            && Sound(g, hi) && g.next in g.held && f.next <= g.next < hi
            && g.lost == f.lost + (g.next - f.next) && g.lost0 == f.lost0
            && g.held == f.held && g.out == f.out && g.seed == f.seed
            && g.heard == f.heard && g.ssrc == f.ssrc && g.cap == f.cap
  {
    var q :| q in f.held;
    var g := Skip(f);
    assert g.next <= q;
    forall k | 0 <= k < |g.out|
      ensures ChunkWell(g, g.out[k])
    {
      assert ChunkWell(f, f.out[k]);
    }
  }

  lemma HoldSound(f: Flow, q: int, pkt: Packet, now: int)
    requires Inv(f) && f.next < q < f.next + SLOTS && Heard(q, pkt) in f.heard
    ensures Inv(Hold(f, q, pkt, now))
  {
    var g := Hold(f, q, pkt, now);
    forall k | 0 <= k < |g.out|
      ensures ChunkWell(g, g.out[k])
    {
      assert ChunkWell(f, f.out[k]);
    }
  }

  lemma DeliverSound(f: Flow, pkt: Packet, hi: int)
    requires Sound(f, hi) && f.next !in f.held && Heard(f.next, pkt) in f.heard
    requires f.next < hi
    requires f.out != [] || (f.next == f.seed && f.held == map[])
    requires Deliver(f, f.next, pkt).Kept?
    ensures var g := Deliver(f, f.next, pkt).flow;
            && Inv(g) && g.next <= hi && g.heard == f.heard && g.ssrc == f.ssrc && g.cap == f.cap
            && g.seed == f.seed && f.out < g.out
            && f.next < g.next && g.lost == f.lost && g.lost0 == f.lost0 && Passed(f, g)
  {
    PutSound(f, Heard(f.next, pkt), pkt.payload, false, hi);
    FlushSound(Put(f, Heard(f.next, pkt), pkt.payload, false).flow, hi);
  }

  /** What flushing does to any window that ends before hi. */
  lemma {:induction false} FlushWindow(f: Flow, hi: int)
    requires f.next <= hi && forall q :: q in f.held ==> q < hi
    ensures Flush(f).Kept? ==>
              && f.next <= Flush(f).flow.next <= hi
              && Flush(f).flow.next !in Flush(f).flow.held
              && Flush(f).flow.held.Keys <= f.held.Keys
    decreases f.held.Keys
  {
    if f.next in f.held {
      var o := PutHeld(f);
      if o.Kept? {
        FlushWindow(o.flow, hi);
      }
    }
  }

  /** The flush before a far packet cannot run past it, so the second look at the
      difference never sees a late packet. */
  lemma FarFlush(f: Flow, q: int)
    requires Inv(f) && f.next + SLOTS <= q
    ensures var o := if f.held == map[] then Kept(f) else Flush(Skip(f));
            o.Kept? ==> && Inv(o.flow) && f.next <= o.flow.next <= q
                        && o.flow.held.Keys <= f.held.Keys && f.out <= o.flow.out
                        && o.flow.heard == f.heard && o.flow.ssrc == f.ssrc
                        && o.flow.cap == f.cap && o.flow.seed == f.seed && o.flow.lost0 == f.lost0
                        && (if f.held == map[] then o.flow == f else o.flow.lost > f.lost)
  {
    if f.held != map[] {
      SkipSound(f, f.next + SLOTS);
      if Flush(Skip(f)).Kept? {
        FlushSound(Skip(f), f.next + SLOTS);
      }
    }
  }

  /** Everything before q counted lost, nothing held. */
  function GivenUp(f: Flow, q: int): Flow {
    f.(lost := f.lost + (q - f.next), held := map[], next := q)
  }

  lemma GivenUpSound(f: Flow, q: int)
    requires Inv(f) && f.next < q
    ensures Sound(GivenUp(f, q), q + SLOTS)
  {
    hide Clip;
    var g := GivenUp(f, q);
    forall k | 0 <= k < |g.out|
      ensures ChunkWell(g, g.out[k])
    {
      assert ChunkWell(f, f.out[k]);
    }
  }

  lemma PutGivenUp(f: Flow, q: int, pkt: Packet)
    requires f.next < q && f.out != [] && Heard(q, pkt) in f.heard
    ensures var o := Put(GivenUp(f, q), Heard(q, pkt), pkt.payload, false);
            && o == Put(f.(lost := f.lost + (q - f.next), held := map[]), Heard(q, pkt), pkt.payload, false)
            && (o.Kept? ==>
                  && Fits(GivenUp(f, q), Heard(q, pkt), pkt.payload, false) && f.out <= o.flow.out
                  && o.flow.next == q + 1 && o.flow.held == map[]
                  && o.flow.lost > f.lost && o.flow.lost0 == f.lost0)
  {
  }

  lemma HardReset(f: Flow, q: int, pkt: Packet)
    requires Inv(f) && f.next < q && Heard(q, pkt) in f.heard
    ensures var o := Put(f.(lost := f.lost + (q - f.next), held := map[]), Heard(q, pkt), pkt.payload, false);
            o.Kept? ==> Inv(o.flow) && f.out <= o.flow.out
                        && o.flow.lost > f.lost && o.flow.lost0 == f.lost0
  {
    hide Sound, Fits, Put;
    GivenUpSound(f, q);
    PutGivenUp(f, q, pkt);
    var g := GivenUp(f, q);
    assert g.held == map[];
    hide GivenUp;
    var o := Put(g, Heard(q, pkt), pkt.payload, false);
    if o.Kept? {
      PutSound(g, Heard(q, pkt), pkt.payload, false, q + SLOTS);
      SoundWider(o.flow, q + SLOTS);
    }
  }

  lemma SoundWider(f: Flow, hi: int)
    requires Sound(f, hi)
    ensures Sound(f, f.next + SLOTS)
  {
    hide OutWell, Ledger, BytesWell;
  }

  lemma FarSound(f: Flow, q: int, pkt: Packet, now: int)
    requires Inv(f) && f.next + SLOTS <= q && Heard(q, pkt) in f.heard
    requires Far(f, q, pkt, now).Kept?
    ensures Inv(Far(f, q, pkt, now).flow) && f.out <= Far(f, q, pkt, now).flow.out
    ensures Far(f, q, pkt, now).flow.lost > f.lost && Far(f, q, pkt, now).flow.lost0 == f.lost0
  {
    hide Inv, Flush, Skip, Put;
    FarFlush(f, q);
    var g := (if f.held == map[] then Kept(f) else Flush(Skip(f))).flow;
    if q == g.next {
      DeliverSound(g, pkt, g.next + SLOTS);
    } else if q < g.next + SLOTS {
      HoldSound(g, q, pkt, now);
    } else {
      HardReset(g, q, pkt);
    }
  }

  lemma ExpireSound(f: Flow, now: int)
    requires Inv(f) && Expire(f, now).Kept?
    ensures Inv(Expire(f, now).flow) && f.out <= Expire(f, now).flow.out
    ensures Expire(f, now).flow.lost0 == f.lost0
    ensures if Stale(f, now) then Expire(f, now).flow.lost > f.lost else Expire(f, now).flow == f
  {
    if Stale(f, now) {
      SkipSound(f, f.next + SLOTS);
      FlushSound(Skip(f), f.next + SLOTS);
    }
  }

  /** An expired wait always releases a packet, unless the ring is full. */
  lemma ExpireReleases(f: Flow, now: int)
    requires Inv(f) && Stale(f, now)
    ensures Expire(f, now).Kept? ==> f.out < Expire(f, now).flow.out
  {
    SkipSound(f, f.next + SLOTS);
    var g := Skip(f);
    if Flush(g).Kept? {
      FlushSound(g, f.next + SLOTS);
    }
  }

  lemma HearSound(f: Flow, h: Heard)
    requires Inv(f) && Genuine(h, f.ssrc)
    ensures Inv(f.(heard := f.heard + {h}))
  {
    var g := f.(heard := f.heard + {h});
    forall k | 0 <= k < |g.out|
      ensures ChunkWell(g, g.out[k])
    {
      assert ChunkWell(f, f.out[k]);
    }
  }

  /** Every packet keeps the invariant. */
  lemma ArriveSound(f0: Flow, pkt: Packet, now: int)
    requires Inv(f0) && pkt.ssrc == f0.ssrc && |pkt.payload| % 4 == 0
    requires Arrive(f0, pkt, now).Kept?
    ensures Inv(Arrive(f0, pkt, now).flow) && f0.out <= Arrive(f0, pkt, now).flow.out
  {
    var q := Lift(f0.next, pkt.seqno);
    LiftIsCongruent(f0.next, pkt.seqno);
    HearSound(f0, Heard(q, pkt));
    var f := f0.(heard := f0.heard + {Heard(q, pkt)});
    if q < f.next || q in f.held {
    } else {
      var o := if q == f.next then Deliver(f, q, pkt)
               else if q < f.next + SLOTS then Kept(Hold(f, q, pkt, now))
               else Far(f, q, pkt, now);
      if q == f.next {
        DeliverSound(f, pkt, f.next + SLOTS);
      } else if q < f.next + SLOTS {
        HoldSound(f, q, pkt, now);
      } else {
        FarSound(f, q, pkt, now);
      }
      ExpireSound(o.flow, now);
    }
  }

  /** Nothing heard is dropped without being counted. */
  lemma ArriveComplete(f0: Flow, pkt: Packet, now: int)
    requires Inv(f0) && Complete(f0) && pkt.ssrc == f0.ssrc && |pkt.payload| % 4 == 0
    requires Arrive(f0, pkt, now).Kept?
    ensures Complete(Arrive(f0, pkt, now).flow)
  {
    var q := Lift(f0.next, pkt.seqno);
    LiftIsCongruent(f0.next, pkt.seqno);
    HearSound(f0, Heard(q, pkt));
    hide Inv, Lift, Far, Expire, Deliver;
    var f := f0.(heard := f0.heard + {Heard(q, pkt)});
    if q >= f.next && q !in f.held {
      if q == f.next {
        DeliverComplete(f0, pkt);
        ExpireComplete(Deliver(f, q, pkt).flow, now);
      } else if q < f.next + SLOTS {
        HoldSound(f, q, pkt, now);
        ExpireComplete(Hold(f, q, pkt, now), now);
      } else {
        FarSound(f, q, pkt, now);
        ExpireSound(Far(f, q, pkt, now).flow, now);
        Uncounted(f0);
      }
    }
  }

  lemma Uncounted(f: Flow)
    requires Inv(f)
    ensures f.lost0 <= f.lost
  {
  }

  lemma DeliverComplete(f0: Flow, pkt: Packet)
    requires Inv(f0) && Complete(f0)
    requires var f := f0.(heard := f0.heard + {Heard(f0.next, pkt)});
             Inv(f) && Deliver(f, f.next, pkt).Kept?
    ensures var g := Deliver(f0.(heard := f0.heard + {Heard(f0.next, pkt)}), f0.next, pkt).flow;
            Inv(g) && Complete(g)
  {
    var f := f0.(heard := f0.heard + {Heard(f0.next, pkt)});
    DeliverSound(f, pkt, f.next + SLOTS);
    hide Inv, Deliver;
  }

  lemma ExpireComplete(f: Flow, now: int)
    requires Inv(f) && Complete(f) && Expire(f, now).Kept?
    ensures Complete(Expire(f, now).flow)
  {
    ExpireSound(f, now);
    Uncounted(f);
  }

  /** The packet that reaches the sync point seeds the numbering and is the first
      one written, or the ring cannot take it. */
  lemma SeedSound(f0: Flow, pkt: Packet, now: int)
    requires f0.held == map[] && f0.queue == [] && f0.out == [] && f0.taken == []
    requires f0.lost == f0.lost0 && f0.heard == {}
    requires pkt.ssrc == f0.ssrc && |pkt.payload| % 4 == 0
    requires Arrive(Seeded(f0, pkt.seqno), pkt, now).Kept?
    ensures Inv(Arrive(Seeded(f0, pkt.seqno), pkt, now).flow)
    ensures Arrive(Seeded(f0, pkt.seqno), pkt, now).flow.out[0].src.pkt == pkt
    ensures Complete(Arrive(Seeded(f0, pkt.seqno), pkt, now).flow)
  {
    var f := Seeded(f0, pkt.seqno).(heard := {Heard(pkt.seqno, pkt)});
    assert Seeded(f0, pkt.seqno).heard + {Heard(pkt.seqno, pkt)} == {Heard(pkt.seqno, pkt)};
    assert Lift(f.next, pkt.seqno) == f.next;
    FirstSound(f, pkt);
    ExpireSound(Deliver(f, f.next, pkt).flow, now);
    ExpireComplete(Deliver(f, f.next, pkt).flow, now);
  }

  lemma FirstSound(f: Flow, pkt: Packet)
    requires f.held == map[] && f.queue == [] && f.out == [] && f.taken == []
    requires f.lost == f.lost0 && f.next == f.seed == pkt.seqno
    requires f.heard == {Heard(f.next, pkt)} && Genuine(Heard(f.next, pkt), f.ssrc)
    requires Deliver(f, f.next, pkt).Kept?
    ensures Inv(Deliver(f, f.next, pkt).flow) && Deliver(f, f.next, pkt).flow.out[0].src.pkt == pkt
    ensures Complete(Deliver(f, f.next, pkt).flow)
  {
    assert f.taken + f.queue == Spoken(f.out);
    DeliverSound(f, pkt, f.next + SLOTS);
  }

  lemma TakeBytesWell(f: Flow, n: nat)
    requires BytesWell(f) && n <= |f.queue| && n % 4 == 0
    ensures BytesWell(Take(f, n))
  {
    assert f.queue == f.queue[..n] + f.queue[n..];
    assert f.taken + (f.queue[..n] + f.queue[n..]) == (f.taken + f.queue[..n]) + f.queue[n..];
  }

  lemma TakeOutWell(f: Flow, n: nat)
    requires OutWell(f) && n <= |f.queue|
    ensures OutWell(Take(f, n))
  {
    var g := Take(f, n);
    forall k | 0 <= k < |g.out|
      ensures ChunkWell(g, g.out[k])
    {
      assert ChunkWell(f, f.out[k]);
    }
  }

  lemma TakeSound(f: Flow, n: nat)
    requires Inv(f) && n <= |f.queue| && n % 4 == 0
    ensures Inv(Take(f, n)) && (Complete(f) ==> Complete(Take(f, n)))
  {
    hide OutWell, BytesWell;
    TakeBytesWell(f, n);
    TakeOutWell(f, n);
  }

  // ----- what was heard stays in the books, and nothing else comes in -----

  lemma {:induction false} FlushHears(f: Flow)
    ensures Flush(f).Kept? ==> Flush(f).flow.heard == f.heard && Flush(f).flow.ssrc == f.ssrc
    decreases f.held.Keys
  {
    if f.next in f.held {
      var o := PutHeld(f);
      if o.Kept? {
        FlushHears(o.flow);
      }
    }
  }

  lemma DeliverHears(f: Flow, q: int, pkt: Packet)
    ensures Deliver(f, q, pkt).Kept? ==>
              Deliver(f, q, pkt).flow.heard == f.heard && Deliver(f, q, pkt).flow.ssrc == f.ssrc
  {
    var o := Put(f, Heard(q, pkt), pkt.payload, false);
    if o.Kept? {
      FlushHears(o.flow);
    }
  }

  lemma FarHears(f: Flow, q: int, pkt: Packet, now: int)
    ensures Far(f, q, pkt, now).Kept? ==>
              Far(f, q, pkt, now).flow.heard == f.heard && Far(f, q, pkt, now).flow.ssrc == f.ssrc
  {
    FlushHears(Skip(f));
    var o := if f.held == map[] then Kept(f) else Flush(Skip(f));
    if o.Kept? {
      DeliverHears(o.flow, q, pkt);
    }
  }

  lemma ArriveHears(f0: Flow, pkt: Packet, now: int)
    requires Arrive(f0, pkt, now).Kept?
    ensures Arrive(f0, pkt, now).flow.heard == f0.heard + {Heard(Lift(f0.next, pkt.seqno), pkt)}
    ensures Arrive(f0, pkt, now).flow.ssrc == f0.ssrc
  {
    hide Deliver, Far, Flush;
    var q := Lift(f0.next, pkt.seqno);
    var f := f0.(heard := f0.heard + {Heard(q, pkt)});
    if q >= f.next && q !in f.held {
      DeliverHears(f, q, pkt);
      FarHears(f, q, pkt, now);
      var o := if q == f.next then Deliver(f, q, pkt)
               else if q < f.next + SLOTS then Kept(Hold(f, q, pkt, now))
               else Far(f, q, pkt, now);
      FlushHears(Skip(o.flow));
    }
  }

  // ----- a packet that overtakes its predecessor -----

  /** The expected packet, with nothing waiting. */
  lemma TakesExpected(f: Flow, pkt: Packet, now: int)
    requires f.held == map[] && pkt.seqno == ToU16(f.next)
    requires 0 < |pkt.payload| <= f.cap - |f.queue|
    ensures Arrive(f, pkt, now)
         == Kept(f.(heard := f.heard + {Heard(f.next, pkt)}, queue := f.queue + pkt.payload,
                    out := f.out + [Chunk(Heard(f.next, pkt), pkt.payload, false)], next := f.next + 1))
  {
    assert Lift(f.next, pkt.seqno) == f.next;
    hide Lift, Far;
  }

  /** The one after it, with nothing waiting. */
  lemma HoldsSecond(f: Flow, pkt: Packet, now: int)
    requires f.held == map[] && pkt.seqno == ToU16(f.next + 1)
    ensures Arrive(f, pkt, now)
         == Kept(f.(heard := f.heard + {Heard(f.next + 1, pkt)},
                    held := map[f.next + 1 := Held(pkt, Clip(pkt.payload), now)]))
  {
    assert Lift(f.next, pkt.seqno) == f.next + 1;
    var h := Held(pkt, Clip(pkt.payload), now);
    assert f.held[f.next + 1 := h] == map[f.next + 1 := h];
    hide Lift, Far, Deliver, Clip, Flush, Skip;
  }

  /** The expected packet, with the next one waiting: both are written, and the one
      that waited has lost what the window had no room for. */
  lemma WritesBoth(f: Flow, pkt: Packet, late: Packet, now: int)
    requires f.held == map[f.next + 1 := Held(late, Clip(late.payload), now - 1)] && pkt.seqno == ToU16(f.next)
    requires 0 < |pkt.payload| && 0 < |late.payload|
    requires |pkt.payload| + |late.payload| <= f.cap - |f.queue|
    ensures Arrive(f, pkt, now).Kept?
    ensures Arrive(f, pkt, now).flow.out
         == f.out + [Chunk(Heard(f.next, pkt), pkt.payload, false),
                     Chunk(Heard(f.next + 1, late), Clip(late.payload), true)]
  {
    assert Lift(f.next, pkt.seqno) == f.next;
    var f1 := f.(heard := f.heard + {Heard(f.next, pkt)});
    var g := Put(f1, Heard(f.next, pkt), pkt.payload, false).flow;
    var h := PutHeld(g).flow;
    assert h.held == map[];
    assert Flush(h) == Kept(h);
    assert Flush(g) == Kept(h);
    hide Lift, Far, Flush, Put, Clip;
  }

  /** A packet without payload on an empty window overflows exactly if it is the
      expected one or too far ahead to wait; the expected one does so on any window. */
  lemma EmptyOverflows(f: Flow, pkt: Packet, now: int)
    requires pkt.payload == [] && f.next !in f.held
    ensures var q := Lift(f.next, pkt.seqno);
            && (q == f.next ==> Arrive(f, pkt, now).Overflow?)
            && (f.held == map[] ==> (Arrive(f, pkt, now).Overflow? <==> q == f.next || q >= f.next + SLOTS))
  {
    hide Lift, Flush, Skip;
  }
}
