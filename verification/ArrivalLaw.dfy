/** What each packet does to the expected number, the window and the loss count, told by
    the numbers that are held and nothing else of Reorder's steps: which numbers are
    written, which wait, and which are given up. */
module ArrivalLaw {
  import opened Words
  import opened Reorder

  /** The smallest number held. */
  ghost predicate Smallest(held: map<int, Held>, p: int) {
    p in held && forall x :: x in held ==> p <= x
  }

  /** The numbers from a on are held as far as b, and b is not. */
  ghost predicate Streak(held: map<int, Held>, a: int, b: int) {
    a <= b && b !in held && forall x :: a <= x < b ==> x in held
  }

  ghost predicate NoneWait(held: map<int, Held>) {
    forall x :: x !in held
  }

  /** Nothing has waited for more than 40 ms. */
  ghost predicate Punctual(held: map<int, Held>, now: int) {
    forall x :: x in held ==> now - held[x].at <= 40_000
  }

  /** Just those held from b on. */
  ghost predicate HeldFrom(held: map<int, Held>, b: int, rest: map<int, Held>) {
    && (forall x :: x in rest <==> x in held && x >= b)
    && (forall x :: x in rest ==> rest[x] == held[x])
  }

  /** The packets held from a to before b, as they are written. */
  function Released(held: map<int, Held>, a: int, b: int): (chunks: seq<Chunk>)
    requires a <= b && forall x :: a <= x < b ==> x in held
    ensures |chunks| == b - a
    decreases b - a
  {
    if a == b then []
    else [Chunk(Heard(a, held[a].pkt), held[a].body, true)] + Released(held, a + 1, b)
  }

  lemma {:induction false} ReleasedSame(held: map<int, Held>, other: map<int, Held>, a: int, b: int)
    requires a <= b && forall x :: a <= x < b ==> x in held && x in other && held[x] == other[x]
    ensures Released(held, a, b) == Released(other, a, b)
    decreases b - a
  {
    if a < b {
      ReleasedSame(held, other, a + 1, b);
    }
  }

  /** The flow has moved on to b, with the held packets from a to before b written. */
  ghost predicate MovedOn(f: Flow, g: Flow, a: int, b: int)
    requires a <= b && forall x :: a <= x < b ==> x in f.held
  {
    && g.next == b && HeldFrom(f.held, b, g.held)
    && g.out == f.out + Released(f.held, a, b)
  }

  /** The flush writes the whole streak from the expected number on. */
  lemma {:induction false} FlushWrites(f: Flow, r: int)
    requires Streak(f.held, f.next, r) && (forall x :: x in f.held ==> f.next <= x) && Flush(f).Kept?
    ensures var g := Flush(f).flow; MovedOn(f, g, f.next, r) && g.lost == f.lost && g.heard == f.heard
    decreases f.held.Keys
  {
    if f.next in f.held {
      var g := PutHeld(f).flow;
      PutHeldMoves(f);
      assert g.out == f.out + [Chunk(Heard(f.next, f.held[f.next].pkt), f.held[f.next].body, true)];
      hide PutHeld;
      FlushWrites(g, r);
      ReleasedSame(f.held, g.held, f.next + 1, r);
    } else {
      assert r == f.next;
    }
  }

  /** Skipping goes to the smallest number held, and counts those before it. */
  lemma SkipsToSmallest(f: Flow, p: int)
    requires Smallest(f.held, p) && f.next <= p < f.next + SLOTS
    ensures Skip(f) == f.(lost := f.lost + (p - f.next), next := p)
  {
  }

  /** Giving up on the numbers before the smallest one held. */
  lemma SkipAndFlush(f: Flow, p: int, r: int)
    requires Smallest(f.held, p) && f.next <= p < f.next + SLOTS
    requires Streak(f.held, p, r) && Flush(Skip(f)).Kept?
    ensures var g := Flush(Skip(f)).flow;
            MovedOn(f, g, p, r) && g.lost == f.lost + (p - f.next) && g.heard == f.heard
  {
    SkipsToSmallest(f, p);
    FlushWrites(Skip(f), r);
  }

  lemma NotStale(f: Flow, now: int)
    requires Punctual(f.held, now)
    ensures Expire(f, now) == Kept(f)
  {
  }

  // ----- packets that find nothing overdue -----

  /** A late packet, or one that waits already, changes nothing but the record of what
      was heard, and times nothing out. */
  lemma LateIsIgnored(f: Flow, pkt: Packet, now: int)
    requires Lift(f.next, pkt.seqno) < f.next || Lift(f.next, pkt.seqno) in f.held
    ensures Arrive(f, pkt, now) == Kept(f.(heard := f.heard + {Heard(Lift(f.next, pkt.seqno), pkt)}))
  {
    hide Lift;
  }

  /** The expected packet is written, and so is the streak behind it; nothing is counted
      lost. */
  lemma ExpectedReleases(f: Flow, pkt: Packet, now: int, r: int)
    requires Inv(f) && Lift(f.next, pkt.seqno) == f.next
    requires Streak(f.held, f.next + 1, r) && Arrive(f, pkt, now).Kept?
    requires forall x :: x in f.held && x >= r ==> now - f.held[x].at <= 40_000
    ensures var g := Arrive(f, pkt, now).flow;
            && g.next == r && HeldFrom(f.held, r, g.held) && g.lost == f.lost
            && g.out == f.out + [Chunk(Heard(f.next, pkt), pkt.payload, false)] + Released(f.held, f.next + 1, r)
  {
    hide Lift, Flush, Skip;
    var f1 := f.(heard := f.heard + {Heard(f.next, pkt)});
    Delivers(f1, pkt, r);
    NotStale(Deliver(f1, f.next, pkt).flow, now);
  }

  lemma Delivers(f: Flow, pkt: Packet, r: int)
    requires f.next !in f.held && (forall x :: x in f.held ==> f.next <= x)
    requires Streak(f.held, f.next + 1, r) && Deliver(f, f.next, pkt).Kept?
    ensures var g := Deliver(f, f.next, pkt).flow;
            && g.next == r && HeldFrom(f.held, r, g.held) && g.lost == f.lost && g.heard == f.heard
            && g.out == f.out + [Chunk(Heard(f.next, pkt), pkt.payload, false)] + Released(f.held, f.next + 1, r)
  {
    FlushWrites(Put(f, Heard(f.next, pkt), pkt.payload, false).flow, r);
    hide Flush;
  }

  function Waits(f: Flow, q: int, pkt: Packet, now: int): Flow {
    f.(heard := f.heard + {Heard(q, pkt)}, held := f.held[q := Held(pkt, Clip(pkt.payload), now)])
  }

  /** A packet one to seven ahead waits, and nothing else changes. */
  lemma NearIsHeld(f: Flow, pkt: Packet, now: int)
    requires Inv(f) && Punctual(f.held, now)
    requires var q := Lift(f.next, pkt.seqno); f.next < q < f.next + 8 && q !in f.held
    ensures Arrive(f, pkt, now) == Kept(Waits(f, Lift(f.next, pkt.seqno), pkt, now))
  {
    hide Lift, Flush, Skip, Far, Deliver;
    var q := Lift(f.next, pkt.seqno);
    NotStale(Hold(f.(heard := f.heard + {Heard(q, pkt)}), q, pkt, now), now);
  }

  /** A packet eight or more ahead, with nothing waiting: all numbers before it are
      counted lost, and it is written. */
  lemma FarOnEmpty(f: Flow, pkt: Packet, now: int)
    requires Inv(f) && f.held == map[] && Lift(f.next, pkt.seqno) >= f.next + 8
    requires Arrive(f, pkt, now).Kept?
    ensures var q, g := Lift(f.next, pkt.seqno), Arrive(f, pkt, now).flow;
            && g.lost == f.lost + (q - f.next) && g.next == q + 1 && NoneWait(g.held)
            && g.out == f.out + [Chunk(Heard(q, pkt), pkt.payload, false)]
  {
    hide Lift, Flush, Skip, Deliver;
  }

  /** A packet eight or more ahead, with some waiting: the numbers before the smallest
      one held are given up and its streak is written, up to r. A packet that is then
      the expected one is written, one that is one to seven ahead waits; only for one
      still farther away the numbers from r on are given up too, and what waits there. */
  ghost predicate FarDone(f: Flow, g: Flow, q: int, pkt: Packet, now: int, p: int, r: int)
    requires Streak(f.held, p, r)
  {
    var written := f.out + Released(f.held, p, r);
    if q == r then
      && g.next == q + 1 && NoneWait(g.held) && g.lost == f.lost + (p - f.next)
      && g.out == written + [Chunk(Heard(q, pkt), pkt.payload, false)]
    else if r < q < r + 8 then
      && g.next == r && g.lost == f.lost + (p - f.next) && g.out == written
      && q in g.held && g.held[q] == Held(pkt, Clip(pkt.payload), now) && HeldFrom(f.held, r, g.held - {q})
    else
      && q >= r + 8 && g.next == q + 1 && NoneWait(g.held)
      && g.lost == f.lost + (p - f.next) + (q - r)
      && g.out == written + [Chunk(Heard(q, pkt), pkt.payload, false)]
  }

  lemma FarGivesUpFirstGap(f: Flow, pkt: Packet, now: int, p: int, r: int)
    requires Inv(f) && Punctual(f.held, now) && Lift(f.next, pkt.seqno) >= f.next + 8
    requires Smallest(f.held, p) && Streak(f.held, p, r) && Arrive(f, pkt, now).Kept?
    ensures FarDone(f, Arrive(f, pkt, now).flow, Lift(f.next, pkt.seqno), pkt, now, p, r)
  {
    hide Lift, FarDone, Flush, Skip, Far;
    var q := Lift(f.next, pkt.seqno);
    var f1 := f.(heard := f.heard + {Heard(q, pkt)});
    assert q !in f.held;
    FarFlow(f, f1, q, pkt, now, p, r);
    NotStale(Far(f1, q, pkt, now).flow, now);
  }

  lemma StreakEnds(f: Flow, p: int, r: int)
    requires Inv(f) && Smallest(f.held, p) && Streak(f.held, p, r)
    ensures f.next <= p < r <= f.next + 8 && forall x :: x in f.held ==> f.next <= x < f.next + 8
  {
    assert p in f.held && f.next + 8 !in f.held;
  }

  lemma FarFlow(f: Flow, f1: Flow, q: int, pkt: Packet, now: int, p: int, r: int)
    requires Inv(f) && f1 == f.(heard := f.heard + {Heard(q, pkt)}) && Punctual(f.held, now) && q >= f.next + 8
    requires Smallest(f.held, p) && Streak(f.held, p, r) && Far(f1, q, pkt, now).Kept?
    ensures var g := Far(f1, q, pkt, now).flow; FarDone(f, g, q, pkt, now, p, r) && Punctual(g.held, now)
  {
    StreakEnds(f, p, r);
    hide Inv, Flush, Skip, Deliver, Streak, Smallest, HeldFrom, Released, Clip;
    SkipAndFlush(f1, p, r);
    var g := Flush(Skip(f1)).flow;
    if q == r {
      FarIsExpected(f, g, q, pkt);
    } else if q < r + 8 {
      assert Hold(g, q, pkt, now).held - {q} == g.held;
      StillPunctual(f.held, r, g.held, now);
    }
  }

  lemma FarIsExpected(f: Flow, g: Flow, q: int, pkt: Packet)
    requires HeldFrom(f.held, q, g.held) && g.next == q && Deliver(g, q, pkt).Kept?
    requires forall x :: x in f.held ==> x < q
    ensures var d := Deliver(g, q, pkt).flow;
            && d.next == q + 1 && NoneWait(d.held) && d.lost == g.lost
            && d.out == g.out + [Chunk(Heard(q, pkt), pkt.payload, false)]
  {
    hide HeldFrom, Deliver;
    NothingBeyond(f.held, q, g.held);
    NothingWaits(g, q);
    Delivers(g, pkt, q + 1);
    NothingBeyond(g.held, q + 1, Deliver(g, q, pkt).flow.held);
  }

  lemma StillPunctual(held: map<int, Held>, b: int, rest: map<int, Held>, now: int)
    requires HeldFrom(held, b, rest) && Punctual(held, now)
    ensures Punctual(rest, now)
  {
  }

  lemma NothingBeyond(held: map<int, Held>, b: int, rest: map<int, Held>)
    requires HeldFrom(held, b, rest) && forall x :: x in held ==> x < b
    ensures NoneWait(rest)
  {
  }

  lemma NothingWaits(g: Flow, q: int)
    requires NoneWait(g.held)
    ensures Streak(g.held, q + 1, q + 1) && Released(g.held, q + 1, q + 1) == []
  {
  }

  // ----- packets that find something overdue -----

  /** Something has waited for more than 40 ms. */
  ghost predicate Overdue(held: map<int, Held>, now: int) {
    exists x :: x in held && now - held[x].at > 40_000
  }

  lemma OverdueExpires(f: Flow, now: int, p: int, r: int)
    requires Overdue(f.held, now) && Smallest(f.held, p) && f.next <= p < f.next + SLOTS && Streak(f.held, p, r)
    requires Expire(f, now).Kept?
    ensures var g := Expire(f, now).flow;
            MovedOn(f, g, p, r) && g.lost == f.lost + (p - f.next) && g.heard == f.heard
  {
    SkipAndFlush(f, p, r);
  }

  /** A packet that has to wait itself, and finds one that waited too long: the numbers
      before the smallest one held are counted lost, and its streak is written. */
  lemma NearWithOverdue(f: Flow, pkt: Packet, now: int, p: int, r: int)
    requires Inv(f) && Overdue(f.held, now) && Arrive(f, pkt, now).Kept?
    requires var q := Lift(f.next, pkt.seqno); f.next < q < f.next + 8 && q !in f.held
    requires var h := Waits(f, Lift(f.next, pkt.seqno), pkt, now).held; Smallest(h, p) && Streak(h, p, r)
    ensures var h, g := Waits(f, Lift(f.next, pkt.seqno), pkt, now), Arrive(f, pkt, now).flow;
            MovedOn(h, g, p, r) && g.lost == f.lost + (p - f.next)
  {
    hide Lift, Flush, Skip, Far, Deliver, Expire, MovedOn, Streak;
    var h := Waits(f, Lift(f.next, pkt.seqno), pkt, now);
    var x :| x in f.held && now - f.held[x].at > 40_000;
    assert h.held[x] == f.held[x];
    OverdueExpires(h, now, p, r);
  }

  /** The expected packet, with one overdue behind the streak that it frees. */
  lemma ExpectedWithOverdue(f: Flow, pkt: Packet, now: int, r: int, p: int, r': int)
    requires Inv(f) && Lift(f.next, pkt.seqno) == f.next && Arrive(f, pkt, now).Kept?
    requires Streak(f.held, f.next + 1, r) && p in f.held && r < p
    requires forall x :: x in f.held && x >= r ==> p <= x
    requires Streak(f.held, p, r') && exists x :: x in f.held && x >= r && now - f.held[x].at > 40_000
    ensures var g := Arrive(f, pkt, now).flow;
            && g.next == r' && HeldFrom(f.held, r', g.held) && g.lost == f.lost + (p - r)
            && g.out == f.out + [Chunk(Heard(f.next, pkt), pkt.payload, false)]
                        + Released(f.held, f.next + 1, r) + Released(f.held, p, r')
  {
    hide Lift, Flush, Skip, Far, Expire;
    var f1 := f.(heard := f.heard + {Heard(f.next, pkt)});
    Delivers(f1, pkt, r);
    var d := Deliver(f1, f.next, pkt).flow;
    hide Deliver, Inv;
    OverdueExpires(d, now, p, r');
    ReleasedSame(d.held, f.held, p, r');
  }

  // ----- room enough -----

  /** Bodies in the window are not empty, and what it holds has room in the ring,
      beside `more` bytes. */
  ghost predicate Room(f: Flow, more: nat) {
    && (forall x :: x in f.held ==> 0 < |f.held[x].body| <= SLOT_SIZE)
    && |f.queue| + more + SLOT_SIZE * |f.held| <= f.cap
  }

  lemma {:induction false} FlushFits(f: Flow, more: nat)
    requires Room(f, more)
    ensures Flush(f).Kept? && Room(Flush(f).flow, more)
    decreases f.held.Keys
  {
    if f.next in f.held {
      HeldOneLess(f.held, f.next);
      var g := PutHeld(f).flow;
      FlushFits(g, more);
    }
  }

  lemma HeldOneLess(held: map<int, Held>, x: int)
    requires x in held
    ensures |held - {x}| == |held| - 1
  {
    assert (held - {x}).Keys == held.Keys - {x};
  }

  lemma HoldFits(f: Flow, q: int, pkt: Packet, now: int)
    requires Room(f, SLOT_SIZE) && q !in f.held && pkt.payload != []
    ensures Room(Hold(f, q, pkt, now), 0)
  {
    var h := Hold(f, q, pkt, now);
    assert h.held.Keys == f.held.Keys + {q};
  }

  lemma ExpireFits(f: Flow, now: int)
    requires Room(f, 0)
    ensures Expire(f, now).Kept?
  {
    FlushFits(Skip(f), 0);
  }

  lemma DeliverFits(f: Flow, q: int, pkt: Packet)
    requires pkt.payload != [] && Room(f, |pkt.payload| + SLOT_SIZE)
    ensures Deliver(f, q, pkt).Kept? && Room(Deliver(f, q, pkt).flow, 0)
  {
    FlushFits(Put(f, Heard(q, pkt), pkt.payload, false).flow, SLOT_SIZE);
    hide Flush;
  }

  lemma FarFits(f: Flow, q: int, pkt: Packet, now: int)
    requires pkt.payload != [] && Room(f, |pkt.payload| + SLOT_SIZE) && f.next + SLOTS <= q
    requires q !in f.held
    ensures Far(f, q, pkt, now).Kept? && Room(Far(f, q, pkt, now).flow, 0)
  {
    hide Flush, Skip, Deliver;
    SkipHolds(f);
    if f.held != map[] {
      FlushFits(Skip(f), |pkt.payload| + SLOT_SIZE);
      FlushHolds(Skip(f));
    }
    var g := if f.held == map[] then f else Flush(Skip(f)).flow;
    if q == g.next {
      DeliverFits(g, q, pkt);
    } else if q < g.next + SLOTS {
      HoldFits(g, q, pkt, now);
    }
  }

  lemma SkipHolds(f: Flow)
    ensures Skip(f).held == f.held && Skip(f).queue == f.queue && Skip(f).cap == f.cap
  {
  }

  lemma {:induction false} FlushHolds(f: Flow)
    requires Flush(f).Kept?
    ensures Flush(f).flow.held.Keys <= f.held.Keys
    decreases f.held.Keys
  {
    if f.next in f.held {
      FlushHolds(PutHeld(f).flow);
    }
  }

  /** A packet with payload resets the stream only if the ring cannot take it together
      with all that waits. */
  lemma RoomSuffices(f: Flow, pkt: Packet, now: int)
    requires pkt.payload != [] && Room(f, |pkt.payload| + SLOT_SIZE)
    ensures Arrive(f, pkt, now).Kept?
  {
    hide Lift, Clip, Flush, Skip, Expire, Deliver, Far;
    var q := Lift(f.next, pkt.seqno);
    var f1 := f.(heard := f.heard + {Heard(q, pkt)});
    if q >= f.next && q !in f.held {
      if q == f.next {
        DeliverFits(f1, q, pkt);
        ExpireFits(Deliver(f1, q, pkt).flow, now);
      } else if q < f.next + SLOTS {
        HoldFits(f1, q, pkt, now);
        ExpireFits(Hold(f1, q, pkt, now), now);
      } else {
        FarFits(f1, q, pkt, now);
        ExpireFits(Far(f1, q, pkt, now).flow, now);
      }
    }
  }
}
