/** The program's side of an update (moveUpdateToTheInternalStorage in
    main/main.c) as it runs, with the failures of its surroundings as inputs. */
module MoveUpdate {
  import opened Words
  import opened Crc32
  import opened BootSelector
  import opened UpdateProtocol

  const CHUNK := 32768

  lemma MoreCopied(d: Device, n: nat)
    requires d.mode.Copying? && d.card.Present? && d.mode.done + n <= |d.card.data|
    requires d.store == Present(d.card.data[..d.mode.done])
    ensures Step(d, CopyChunk(n))
         == d.(store := Present(d.card.data[..d.mode.done + n]), mode := Copying(d.mode.done + n))
  {
    assert d.card.data[..d.mode.done] + d.card.data[d.mode.done..d.mode.done + n] == d.card.data[..d.mode.done + n];
  }

  lemma Begun(d: Device)
    requires d.mode == Working && d.card.Present?
    ensures Run(d, [StartMove]) == d.(store := Present([]), mode := Copying(0))
  {
    RunOne(d, StartMove);
  }

  /** A copy that failed is removed; a complete one replaces the file on the card. */
  lemma Undone(d: Device, events: seq<Event>)
    requires Run(d, events).mode.Copying?
    ensures Run(d, events + [WriteError] + [RemoveCopy]) == Run(d, events).(store := Absent, mode := Leaving)
  {
    RunSnoc(d, events, WriteError);
    RunSnoc(d, events + [WriteError], RemoveCopy);
    hide Run;
  }

  lemma Finished(d: Device, events: seq<Event>)
    requires var c := Run(d, events); c.mode.Copying? && c.card.Present? && c.mode.done == |c.card.data|
    ensures Run(d, events + [CloseCopy] + [RemoveFromCard] + [SetHint])
         == Run(d, events).(card := Absent, hint := HINT, mode := Leaving)
  {
    RunSnoc(d, events, CloseCopy);
    RunSnoc(d, events + [CloseCopy], RemoveFromCard);
    RunSnoc(d, events + [CloseCopy] + [RemoveFromCard], SetHint);
    hide Run;
  }

  class Storage {
    var card: File
    var store: File
    var hint: u32

    constructor (card: File, store: File)
      ensures this.card == card && this.store == store && hint == 0
    {
      this.card, this.store, hint := card, store, 0;
    }

    /** The device of the protocol, as the program sees it. */
    ghost function View(prog: seq<octet>, mode: Mode): Device
      reads this
    {
      Device(card, store, prog, hint, mode)
    }

    /** The copy loop; `room` is what the store can take. */
    method Copy(room: nat, ghost prog: seq<octet>) returns (result: int, ghost events: seq<Event>)
      requires card.Present?
      modifies this`store
      ensures result == if |card.data| <= room then 0 else -1
      ensures result == 0 ==> store == card
      ensures exists done :: View(prog, Copying(done)) == Run(old(View(prog, Working)), events)
                             && (result == 0 ==> done == |card.data|)
    {
      hide Run, Step;
      ghost var start := View(prog, Working);
      store := Present([]);
      Begun(start);
      events := [StartMove];
      result := 0;
      var pos := 0;
      assert card.data[..0] == [];
      while pos < |card.data|
        invariant result == 0 && pos <= |card.data| && pos <= room && store == Present(card.data[..pos])
        invariant Run(start, events) == View(prog, Copying(pos))
      {
        var rd := if |card.data| - pos > CHUNK then CHUNK else |card.data| - pos;
        var wr := if pos + rd <= room then rd else room - pos;
        MoreCopied(View(prog, Copying(pos)), wr);
        RunSnoc(start, events, CopyChunk(wr));
        events := events + [CopyChunk(wr)];
        store := Present(card.data[..pos + wr]);
        if wr != rd {
          assert Run(start, events) == View(prog, Copying(pos + wr));
          result := -1;
          return;
        }
        pos := pos + rd;
      }
      assert card.data[..|card.data|] == card.data;
    }

    /** Result 0 means moved: the store has the file, the card has not, the loader
        is asked for. Otherwise card and hint are untouched, and the store keeps
        its file or has none. Whatever happens is a run of the protocol. */
    method Move(mounted: bool, memory: bool, storeMounts: bool, creatable: bool, room: nat,
                ghost prog: seq<octet>) returns (result: int, ghost events: seq<Event>)
      modifies this
      ensures result == 0 || result == -1
      ensures result == 0 <==> mounted && memory && storeMounts && creatable
                               && old(card).Present? && |old(card).data| <= room
      ensures result == 0 ==> card == Absent && store == old(card) && hint == HINT
      ensures result == -1 ==> card == old(card) && hint == old(hint)
      ensures result == -1 ==>
                store == if mounted && memory && storeMounts && creatable && old(card).Present?
                         then Absent else old(store)
      ensures Run(old(View(prog, Working)), events) == View(prog, if events == [] then Working else Leaving)
    {
      hide Run, Step;
      result, events := -1, [];
      ghost var start := View(prog, Working);
      NoEvents(start);
      if !mounted || card.Absent? || !memory {
        return;
      }
      if storeMounts {
        if creatable {
          result, events := Copy(room, prog);
          if result != 0 {
            Undone(start, events);
            events := events + [WriteError] + [RemoveCopy];
            store := Absent;
          }
        }
      }
      if result == 0 {
        Finished(start, events);
        events := events + [CloseCopy] + [RemoveFromCard] + [SetHint];
        card := Absent;
        hint := HINT;
      }
    }
  }

  lemma NoEvents(d: Device)
    ensures Run(d, []) == d
  {
  }
}
