/** The ring shared by one writer and one reader whose byte steps interleave in
    any order: the writer takes one snapshot of the free space, then stores a
    byte and publishes w_p, byte after byte; the reader loads a byte and then
    releases r_p. No reset happens meanwhile. */
module RingSchedule {
  import opened Words
  import opened Blocks
  import opened JitterRing

  datatype Writer = Idle | Filling(data: seq<byte>, done: nat, stored: bool)
  datatype Reader = Waiting | Draining(left: nat, loaded: bool)

  /** Shared storage and indexes, both program counters, and as history the
      blocks accepted so far and the bytes handed to the reader so far. */
  datatype Shared = Shared(s: seq<byte>, w: nat, r: nat, writer: Writer, reader: Reader,
                           packets: seq<seq<byte>>, handed: seq<byte>)

  datatype Step = Begin(data: seq<byte>) | Store | Publish | Request(size: nat) | Load | Release

  ghost predicate Shaped(m: Shared) {
    && m.w < |m.s| && m.r < |m.s|
    && (m.writer.Filling? ==>
          && m.writer.done < |m.writer.data|
          && |m.writer.data| - m.writer.done <= |m.s| - 1 - Fill(|m.s|, m.r, m.w)
          && (m.writer.stored ==> m.s[m.w] == m.writer.data[m.writer.done]))
    && (m.reader.Draining? ==> m.reader.left > 0 && (m.reader.loaded ==> m.r != m.w))
  }

  function Start(size: nat): Shared
    requires size > 0
  {
    Shared(seq(size, i => 0), 0, 0, Idle, Waiting, [], [])
  }

  /** One step; a step whose owner is elsewhere changes nothing. */
  function Do(m: Shared, step: Step): Shared
    requires m.w < |m.s| && m.r < |m.s|
    requires m.writer.Filling? ==> m.writer.done < |m.writer.data|
    requires m.reader.Draining? ==> m.reader.left > 0
  {
    match step
    case Begin(data) =>
      if m.writer.Filling? || |data| > |m.s| - 1 - Fill(|m.s|, m.r, m.w) || data == [] then m
      else m.(writer := Filling(data, 0, false))
    case Store =>
      if m.writer.Idle? || m.writer.stored then m
      else m.(s := m.s[m.w := m.writer.data[m.writer.done]], writer := m.writer.(stored := true))
    case Publish =>
      if m.writer.Idle? || !m.writer.stored then m
      else
        var m1 := m.(w := Next(|m.s|, m.w));
        if m.writer.done + 1 == |m.writer.data| then
          m1.(writer := Idle, packets := m.packets + [m.writer.data])
        else m1.(writer := Filling(m.writer.data, m.writer.done + 1, false))
    case Request(size) =>
      if m.reader.Draining? || size == 0 then m else m.(reader := Draining(size, false))
    case Load =>
      if m.reader.Waiting? || m.reader.loaded then m
      else if m.r == m.w then m.(reader := Waiting)
      else m.(handed := m.handed + [m.s[m.r]], reader := m.reader.(loaded := true))
    case Release =>
      if m.reader.Waiting? || !m.reader.loaded then m
      else
        var m1 := m.(r := Next(|m.s|, m.r));
        m1.(reader := if m.reader.left == 1 then Waiting else Draining(m.reader.left - 1, false))
  }

  /** Bytes published by the writer: the finished blocks and the part of the
      block under way. */
  function Published(m: Shared): seq<byte>
    requires m.writer.Filling? ==> m.writer.done <= |m.writer.data|
  {
    Flat(m.packets) + if m.writer.Filling? then m.writer.data[..m.writer.done] else []
  }

  /** Bytes published but not handed over yet. */
  function Queued(m: Shared): seq<byte>
    requires m.w < |m.s| && m.r < |m.s|
    requires m.reader.Draining? && m.reader.loaded ==> m.r != m.w
  {
    var all := Span(m.s, m.r, m.w);
    if m.reader.Draining? && m.reader.loaded then all[1..] else all
  }

  /** The queue law: what was published is what was handed over, then what is queued. */
  ghost predicate Fifo(m: Shared) {
    Shaped(m) && Published(m) == m.handed + Queued(m)
  }

  lemma {:induction false} StoreKeeps(m: Shared)
    requires Fifo(m)
    ensures Fifo(Do(m, Store))
  {
    if m.writer.Filling? && !m.writer.stored {
      SpanPush(m.s, m.r, m.w, m.writer.data[m.writer.done]);
    }
  }

  lemma PublishedGrows(m: Shared)
    requires m.w < |m.s| && m.r < |m.s| && (m.reader.Draining? ==> m.reader.left > 0)
    requires m.writer.Filling? && m.writer.stored && m.writer.done < |m.writer.data|
    ensures var m' := Do(m, Publish);
            && (m'.writer.Filling? ==> m'.writer.done < |m'.writer.data|)
            && Published(m') == Published(m) + [m.writer.data[m.writer.done]]
  {
    var data, done := m.writer.data, m.writer.done;
    FlatAppend(m.packets, data);
    assert data[..done + 1] == data[..done] + [data[done]];
    assert Flat(m.packets) + (data[..done] + [data[done]]) == (Flat(m.packets) + data[..done]) + [data[done]];
    hide Flat;
    if done + 1 == |data| {
      assert data[..done + 1] == data;
    }
  }

  lemma QueuedGrows(m: Shared)
    requires Shaped(m) && m.writer.Filling? && m.writer.stored
    ensures Shaped(Do(m, Publish))
    ensures Queued(Do(m, Publish)) == Queued(m) + [m.writer.data[m.writer.done]]
  {
    var x := m.writer.data[m.writer.done];
    assert m.s[m.w := x] == m.s;
    SpanPush(m.s, m.r, m.w, x);
  }

  lemma {:induction false} PublishKeeps(m: Shared)
    requires Fifo(m)
    ensures Fifo(Do(m, Publish))
  {
    if m.writer.Filling? && m.writer.stored {
      PublishedGrows(m);
      QueuedGrows(m);
      assert m.handed + (Queued(m) + [m.writer.data[m.writer.done]])
          == (m.handed + Queued(m)) + [m.writer.data[m.writer.done]];
    }
  }

  /** Loading hands over the first queued byte. */
  lemma LoadKeeps(m: Shared)
    requires Fifo(m)
    ensures Fifo(Do(m, Load))
  {
    if m.reader.Draining? && !m.reader.loaded && m.r != m.w {
      SpanPop(m.s, m.r, m.w);
      var x, rest := m.s[m.r], Span(m.s, Next(|m.s|, m.r), m.w);
      assert m.handed + ([x] + rest) == (m.handed + [x]) + rest;
      assert Queued(m) == [x] + rest && Queued(Do(m, Load)) == rest;
    }
  }

  lemma ReleaseKeeps(m: Shared)
    requires Fifo(m)
    ensures Fifo(Do(m, Release))
  {
    if m.reader.Draining? && m.reader.loaded {
      SpanPop(m.s, m.r, m.w);
    }
  }

  lemma {:induction false} StepKeeps(m: Shared, step: Step)
    requires Fifo(m)
    ensures Fifo(Do(m, step))
  {
    match step
    case Begin(data) =>
    case Store => StoreKeeps(m);
    case Publish => PublishKeeps(m);
    case Request(size) =>
    case Load => LoadKeeps(m);
    case Release => ReleaseKeeps(m);
  }

  ghost function Run(m: Shared, schedule: seq<Step>): (m': Shared)
    requires Fifo(m)
    ensures Fifo(m')
    decreases |schedule|
  {
    if schedule == [] then m
    else
      StepKeeps(m, schedule[0]);
      Run(Do(m, schedule[0]), schedule[1..])
  }

  /** Under every schedule: the reader gets a prefix of the accepted blocks in
      their order, the queue holds the rest, a block is wholly there
      or not at all once the writer is idle, jbuf_count is the queue length, and
      at most size - 1 bytes are ever queued. */
  lemma {:induction false} EverySchedule(size: nat, schedule: seq<Step>)
    requires size > 0
    ensures Fifo(Start(size))
    ensures var m := Run(Start(size), schedule);
            && m.handed <= Published(m)
            && (m.writer.Idle? ==> Flat(m.packets) == m.handed + Queued(m))
            && (!(m.reader.Draining? && m.reader.loaded) ==> |Queued(m)| == Fill(|m.s|, m.r, m.w))
            && |Queued(m)| <= size - 1
  {
    RunSize(Start(size), schedule);
  }

  lemma DoSize(m: Shared, step: Step)
    requires Fifo(m)
    ensures |Do(m, step).s| == |m.s|
  {
  }

  lemma {:induction false} RunSize(m: Shared, schedule: seq<Step>)
    requires Fifo(m)
    ensures |Run(m, schedule).s| == |m.s|
    decreases |schedule|
  {
    if schedule != [] {
      hide Do, Fifo;
      StepKeeps(m, schedule[0]);
      DoSize(m, schedule[0]);
      RunSize(Do(m, schedule[0]), schedule[1..]);
    }
  }
}
