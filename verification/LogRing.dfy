/** The log of the device (main/mblog.c): a ring of three files on the card. The
    current file is appended to; once it has reached the cap, the next file of the
    ring is erased and becomes the current one. */
module LogRing {
  import opened Words
  import opened Blocks

  const FILES := 3
  const MAX_FILE := 1024 * 1024
  const MIN_FILE := 8 * 1024
  const FLUSH_BYTES := 2048
  const FLUSH_TICKS := 5000

  type Text = seq<byte>
  type Size = x: int | x > 0 witness 1

  /** A missing file is read as an empty one. */
  datatype Ring = Ring(files: seq<Text>, cur: nat, cap: Size)

  ghost predicate Formed(l: Ring) {
    |l.files| == FILES && l.cur < FILES
  }

  function Oldest(l: Ring): Text
    requires Formed(l)
  {
    l.files[(l.cur + 1) % FILES]
  }

  function Middle(l: Ring): Text
    requires Formed(l)
  {
    l.files[(l.cur + 2) % FILES]
  }

  function Newest(l: Ring): Text
    requires Formed(l)
  {
    l.files[l.cur]
  }

  /** The files read in ring order. */
  function Kept(l: Ring): Text
    requires Formed(l)
  {
    Oldest(l) + Middle(l) + Newest(l)
  }

  // ----- which file a restart goes on with -----

  /** The modification time of a file, if it exists. */
  datatype Stamp = Missing | At(time: int)

  /** File i is the newest of those that exist, the last one of equally new ones; -1
      if there is none. */
  ghost predicate Latest(stamps: seq<Stamp>, i: int) {
    if i < 0 then i == -1 && forall j :: 0 <= j < |stamps| ==> stamps[j].Missing?
    else i < |stamps| && stamps[i].At? && forall j :: 0 <= j < |stamps| ==> Outdone(stamps, j, i)
  }

  /** File j does not come before file i. */
  predicate Outdone(stamps: seq<Stamp>, j: int, i: int)
    requires 0 <= j < |stamps| && 0 <= i < |stamps| && stamps[i].At?
  {
    stamps[j].At? ==> stamps[j].time < stamps[i].time || (stamps[j].time == stamps[i].time && j <= i)
  }

  lemma LatestIsOne(stamps: seq<Stamp>, i: int, j: int)
    requires Latest(stamps, i) && Latest(stamps, j)
    ensures i == j
  {
    assert i >= 0 && j >= 0 ==> Outdone(stamps, i, j) && Outdone(stamps, j, i);
  }

  function Newer(stamps: seq<Stamp>, newest: int, i: nat): int
    requires -1 <= newest < |stamps| && i < |stamps| && (newest >= 0 ==> stamps[newest].At?)
  {
    if stamps[i].At? && (newest < 0 || stamps[i].time >= stamps[newest].time) then i else newest
  }

  function Best(stamps: seq<Stamp>): (newest: int)
    ensures Latest(stamps, newest)
  {
    if stamps == [] then -1
    else
      var n := |stamps| - 1;
      var newest := Best(stamps[..n]);
      LatestGrows(stamps, newest);
      Newer(stamps, newest, n)
  }

  lemma LatestGrows(stamps: seq<Stamp>, newest: int)
    requires stamps != [] && Latest(stamps[..|stamps| - 1], newest)
    ensures -1 <= newest < |stamps| && (newest >= 0 ==> stamps[newest].At?)
    ensures Latest(stamps, Newer(stamps, newest, |stamps| - 1))
  {
    var n := |stamps| - 1;
    var r := Newer(stamps, newest, n);
    forall j | 0 <= j < |stamps|
      ensures if r >= 0 then Outdone(stamps, j, r) else stamps[j].Missing?
    {
      if j < n && newest >= 0 {
        assert Outdone(stamps[..n], j, newest);
      } else if j < n {
        assert stamps[..n][j].Missing?;
      }
    }
  }

  /** The loop over the modification times. */
  method FindNewest(stamps: seq<Stamp>) returns (newest: int)
    ensures newest == Best(stamps) && Latest(stamps, newest)
  {
    newest := -1;
    for i := 0 to |stamps|
      invariant newest == Best(stamps[..i])
    {
      assert stamps[..i + 1][..i] == stamps[..i];
      if stamps[i].At? && (newest < 0 || stamps[i].time >= stamps[newest].time) {
        newest := i;
      }
    }
    assert stamps[..|stamps|] == stamps;
  }

  function Chosen(stamps: seq<Stamp>): (slot: nat)
    ensures |stamps| > 0 ==> slot < |stamps|
  {
    if Best(stamps) >= 0 then Best(stamps) else 0
  }

  // ----- the steps of a run -----

  /** One message: append, and move on when the cap is reached. */
  function Append(l: Ring, line: Text): (l': Ring)
    requires Formed(l)
    ensures Formed(l')
  {
    var file := l.files[l.cur] + line;
    var next := (l.cur + 1) % FILES;
    if |file| >= l.cap
    then l.(files := l.files[l.cur := file][next := []], cur := next)
    else l.(files := l.files[l.cur := file])
  }

  /** A restart without cleaning goes on with the newest file by modification time, or
      with the first if there is none. The cap is worked out anew. */
  function Resume(l: Ring, stamps: seq<Stamp>, cap: Size): (l': Ring)
    requires Formed(l) && |stamps| == FILES
    ensures Formed(l')
  {
    l.(cur := Chosen(stamps), cap := cap)
  }

  datatype Event =
    | Line(line: Text)
    | Restart(stamps: seq<Stamp>, cap: Size)

  /** Files with text exist; of the files left, only those with text exist. */
  ghost predicate Exist(l: Ring, stamps: seq<Stamp>)
    requires Formed(l)
  {
    && |stamps| == FILES
    && (forall i :: 0 <= i < FILES && l.files[i] != [] ==> stamps[i].At?)
    && (forall i :: 0 <= i < FILES && i != l.cur && l.files[i] == [] ==> stamps[i].Missing?)
  }

  /** What is known of an event in state l: lines end in a newline, caps lie between
      lo and hi. */
  ghost predicate May(l: Ring, e: Event, lo: Size, hi: nat, longest: nat)
    requires Formed(l)
  {
    match e
    case Line(line) => 0 < |line| <= longest
    case Restart(stamps, cap) => lo <= cap <= hi && Exist(l, stamps)
  }

  function Do(l: Ring, e: Event): (l': Ring)
    requires Formed(l)
    ensures Formed(l')
  {
    match e
    case Line(line) => Append(l, line)
    case Restart(stamps, cap) => if |stamps| == FILES then Resume(l, stamps, cap) else l
  }

  // ----- times that tell -----

  /** Where the ring goes on: the current file, or the one before it if the current one
      was erased and not yet begun. */
  function RightSlot(l: Ring, stamps: seq<Stamp>): (r: nat)
    requires Formed(l) && |stamps| == FILES
    ensures r < FILES
  {
    if stamps[l.cur].At? then l.cur else (l.cur + 2) % FILES
  }

  /** That file is newer than every other one, or as new with the higher number. */
  ghost predicate Telling(l: Ring, stamps: seq<Stamp>)
    requires Formed(l) && |stamps| == FILES
  {
    var r := RightSlot(l, stamps);
    Kept(l) == [] || (stamps[r].At? && forall j :: 0 <= j < FILES ==> Outdone(stamps, j, r))
  }

  /** The set-up goes on where the ring stood exactly if the modification times tell. */
  lemma SetupResumes(l: Ring, stamps: seq<Stamp>)
    requires Formed(l) && Exist(l, stamps)
    ensures Kept(l) == [] || Chosen(stamps) == RightSlot(l, stamps) <==> Telling(l, stamps)
  {
    if Kept(l) != [] {
      var r := RightSlot(l, stamps);
      SomeFileExists(l, stamps);
      if Latest(stamps, r) {
        LatestIsOne(stamps, r, Best(stamps));
      }
    }
  }

  lemma SomeFileExists(l: Ring, stamps: seq<Stamp>)
    requires Formed(l) && Exist(l, stamps) && Kept(l) != []
    ensures Best(stamps) >= 0
  {
    var i :| 0 <= i < FILES && l.files[i] != [];
    assert stamps[i].At?;
  }

  /** Times that rise from file to file in ring order tell. */
  lemma RisingTimesTell(l: Ring, stamps: seq<Stamp>)
    requires Formed(l) && Exist(l, stamps)
    requires stamps[l.cur].Missing? && Kept(l) != [] ==> stamps[(l.cur + 2) % FILES].At?
    requires var o, m, n := stamps[(l.cur + 1) % FILES], stamps[(l.cur + 2) % FILES], stamps[l.cur];
             (o.At? && m.At? ==> o.time < m.time) && (m.At? && n.At? ==> m.time < n.time)
             && (o.At? && n.At? ==> o.time < n.time)
    ensures Telling(l, stamps)
  {
    var r := RightSlot(l, stamps);
    if Kept(l) != [] {
      forall j | 0 <= j < FILES
        ensures Outdone(stamps, j, r)
      {
        assert j == l.cur || j == (l.cur + 1) % FILES || j == (l.cur + 2) % FILES;
      }
    }
  }

  // ----- runs -----

  function CleanStart(cap: Size): (l: Ring)
    ensures Formed(l)
  {
    Ring([[], [], []], 0, cap)
  }

  /** The ring after these events. */
  function After(cap: Size, events: seq<Event>): (l: Ring)
    ensures Formed(l)
  {
    if events == [] then CleanStart(cap)
    else Do(After(cap, events[..|events| - 1]), events[|events| - 1])
  }

  ghost predicate Possible(cap: Size, events: seq<Event>, lo: Size, hi: nat, longest: nat) {
    if events == [] then lo <= cap <= hi
    else
      && Possible(cap, events[..|events| - 1], lo, hi, longest)
      && May(After(cap, events[..|events| - 1]), events[|events| - 1], lo, hi, longest)
  }

  function Lines(events: seq<Event>): seq<Text> {
    if events == [] then []
    else Lines(events[..|events| - 1]) +
         match events[|events| - 1]
         case Line(line) => [line]
         case Restart(_, _) => []
  }

  /** At every restart of the run the modification times tell. */
  ghost predicate AllTelling(cap: Size, events: seq<Event>) {
    events != [] ==>
      var before, e := events[..|events| - 1], events[|events| - 1];
      && AllTelling(cap, before)
      && (e.Restart? ==> |e.stamps| == FILES && Telling(After(cap, before), e.stamps))
  }

  function Restarts(events: seq<Event>): nat {
    if events == [] then 0
    else Restarts(events[..|events| - 1]) + if events[|events| - 1].Restart? then 1 else 0
  }

  // ----- what every run keeps -----

  /** Lines a to b are in the oldest file, b to c in the middle one, the rest in the
      newest. */
  ghost predicate Spread(l: Ring, lines: seq<Text>, a: nat, b: nat, c: nat) {
    && Formed(l) && a <= b <= c <= |lines|
    && Oldest(l) == Flat(lines[a..b]) && Middle(l) == Flat(lines[b..c]) && Newest(l) == Flat(lines[c..])
  }

  /** Files that were left were full. */
  ghost predicate Filled(l: Ring, lo: Size, a: nat, b: nat)
    requires Formed(l)
  {
    && (b > 0 ==> |Middle(l)| >= lo)
    && (a > 0 ==> |Oldest(l)| >= lo || (Oldest(l) == [] && |Newest(l)| >= lo))
  }

  /** How far files may outgrow the cap. */
  ghost predicate Within(l: Ring, hi: nat, longest: nat, slack: nat)
    requires Formed(l)
  {
    && |Newest(l)| < hi + slack
    && |Middle(l)| < hi + slack + longest
    && |Oldest(l)| < hi + slack + longest
  }

  ghost predicate Proper(lines: seq<Text>) {
    forall k :: 0 <= k < |lines| ==> lines[k] != []
  }

  ghost predicate RingInv(l: Ring, lines: seq<Text>, lo: Size, a: nat, b: nat, c: nat) {
    Spread(l, lines, a, b, c) && Filled(l, lo, a, b) && Proper(lines) && l.cap >= lo
  }

  lemma FlatOf(lines: seq<Text>, a: nat, line: Text)
    requires a <= |lines|
    ensures Flat((lines + [line])[a..]) == Flat(lines[a..]) + line
  {
    assert (lines + [line])[a..] == lines[a..] + [line];
    FlatAppend(lines[a..], line);
  }

  lemma FlatNone(lines: seq<Text>)
    requires Proper(lines) && Flat(lines) == []
    ensures lines == []
  {
  }

  lemma {:induction false} FlatSplit(lines: seq<Text>, b: nat)
    requires b <= |lines|
    ensures Flat(lines) == Flat(lines[..b]) + Flat(lines[b..])
    decreases |lines|
  {
    if b == |lines| {
      assert lines[..b] == lines && lines[b..] == [];
    } else {
      var n := |lines| - 1;
      FlatSplit(lines[..n], b);
      assert lines[..n][..b] == lines[..b] && lines[..n][b..] == lines[b..][..n - b];
    }
  }

  lemma ThreeParts(lines: seq<Text>, a: nat, b: nat, c: nat)
    requires a <= b <= c <= |lines|
    ensures Flat(lines[a..]) == Flat(lines[a..b]) + Flat(lines[b..c]) + Flat(lines[c..])
  {
    hide Flat;
    FlatSplit(lines[a..], c - a);
    FlatSplit(lines[a..c], b - a);
    assert lines[a..][..c - a] == lines[a..c] && lines[a..][c - a..] == lines[c..];
    assert lines[a..c][..b - a] == lines[a..b] && lines[a..c][b - a..] == lines[b..c];
  }

  /** A file that is full becomes the middle one, and the oldest is given up. */
  lemma Rotated(l: Ring, line: Text)
    requires Formed(l) && |Newest(l) + line| >= l.cap
    ensures Oldest(Append(l, line)) == Middle(l) && Middle(Append(l, line)) == Newest(l) + line
    ensures Newest(Append(l, line)) == [] && Append(l, line).cap == l.cap
  {
  }

  lemma NotRotated(l: Ring, line: Text)
    requires Formed(l) && |Newest(l) + line| < l.cap
    ensures Oldest(Append(l, line)) == Oldest(l) && Middle(Append(l, line)) == Middle(l)
    ensures Newest(Append(l, line)) == Newest(l) + line && Append(l, line).cap == l.cap
  {
  }

  lemma AppendKeeps(l: Ring, lines: seq<Text>, line: Text, lo: Size, a: nat, b: nat, c: nat)
      returns (a': nat, b': nat, c': nat)
    requires line != [] && RingInv(l, lines, lo, a, b, c)
    ensures RingInv(Append(l, line), lines + [line], lo, a', b', c')
  {
    hide Flat, Append, Oldest, Middle, Newest;
    var after := lines + [line];
    FlatOf(lines, c, line);
    assert after[a..b] == lines[a..b] && after[b..c] == lines[b..c];
    if |Newest(l) + line| >= l.cap {
      Rotated(l, line);
      a', b', c' := b, c, |after|;
      assert after[c..|after|] == after[c..] && after[|after|..] == [];
      NoText();
    } else {
      NotRotated(l, line);
      a', b', c' := a, b, c;
    }
  }

  /** Going one file back turns the ring: the erased file is then the oldest. */
  lemma TurnedBack(l: Ring, slot: nat, cap: Size)
    requires Formed(l) && Newest(l) == [] && slot == (l.cur + 2) % FILES
    ensures var t := l.(cur := slot, cap := cap);
            && Formed(t) && Oldest(t) == [] && Middle(t) == Oldest(l) && Newest(t) == Middle(l)
            && Kept(t) == Kept(l)
  {
  }

  lemma NoText()
    ensures Flat([]) == []
  {
  }

  lemma NoLines(lines: seq<Text>, b: nat, c: nat)
    requires b <= c <= |lines| && Proper(lines) && Flat(lines[c..]) == []
    ensures lines[b..] == lines[b..c]
  {
    FlatNone(lines[c..]);
  }

  /** An empty ring is empty from every side. */
  lemma EmptyRing(l: Ring, lines: seq<Text>, lo: Size, a: nat, b: nat, c: nat, slot: nat, cap: Size)
    requires RingInv(l, lines, lo, a, b, c) && Kept(l) == [] && slot < FILES && cap >= lo
    ensures lines == [] && RingInv(l.(cur := slot, cap := cap), lines, lo, 0, 0, 0)
    ensures Kept(l.(cur := slot, cap := cap)) == []
  {
    ThreeParts(lines, a, b, c);
    FlatNone(lines[a..]);
    assert a == 0;
    NoText();
  }

  lemma ResumeKeeps(l: Ring, lines: seq<Text>, stamps: seq<Stamp>, cap: Size, lo: Size, a: nat, b: nat, c: nat)
      returns (a': nat, b': nat, c': nat)
    requires cap >= lo && RingInv(l, lines, lo, a, b, c) && Exist(l, stamps) && Telling(l, stamps)
    ensures RingInv(Resume(l, stamps, cap), lines, lo, a', b', c')
    ensures Kept(Resume(l, stamps, cap)) == Kept(l)
  {
    SetupResumes(l, stamps);
    if Kept(l) == [] {
      hide Chosen, RingInv, Telling;
      EmptyRing(l, lines, lo, a, b, c, Chosen(stamps), cap);
      a', b', c' := 0, 0, 0;
    } else if stamps[l.cur].At? {
      hide Chosen;
      a', b', c' := a, b, c;
      assert Resume(l, stamps, cap) == l.(cap := cap);
    } else {
      assert Newest(l) == [];
      hide Flat, Oldest, Middle, Newest, Kept, Formed, Proper, Chosen, Telling, Exist;
      a', b', c' := a, a, b;
      TurnedBack(l, Chosen(stamps), cap);
      NoLines(lines, b, c);
      assert lines[a..a] == [];
      NoText();
    }
  }

  lemma {:induction false} RunKeeps(cap: Size, events: seq<Event>, lo: Size, hi: nat, longest: nat)
      returns (a: nat, b: nat, c: nat)
    requires Possible(cap, events, lo, hi, longest) && AllTelling(cap, events)
    ensures RingInv(After(cap, events), Lines(events), lo, a, b, c)
    decreases |events|
  {
    if events == [] {
      a, b, c := 0, 0, 0;
    } else {
      hide RingInv, Telling, Append, Resume, Exist;
      var prior, e := events[..|events| - 1], events[|events| - 1];
      var before := After(cap, prior);
      a, b, c := RunKeeps(cap, prior, lo, hi, longest);
      match e
      case Line(line) =>
        a, b, c := AppendKeeps(before, Lines(prior), line, lo, a, b, c);
      case Restart(stamps, cap') =>
        a, b, c := ResumeKeeps(before, Lines(prior), stamps, cap', lo, a, b, c);
        assert Lines(events) == Lines(prior);
    }
  }

  /** The log is a suffix of the messages, no message cut, and once one was given up
      at least two full files are kept. */
  ghost predicate RecentLines(kept: Text, lines: seq<Text>, lo: Size) {
    exists from: nat :: from <= |lines| && kept == Flat(lines[from..]) && (from > 0 ==> |kept| >= 2 * lo)
  }

  /** For every run of messages and restarts from a clean start, if at every restart
      the modification times tell the newest file. */
  lemma {:induction false} KeepsRecentLines(cap: Size, events: seq<Event>, lo: Size, hi: nat, longest: nat)
    requires Possible(cap, events, lo, hi, longest) && AllTelling(cap, events)
    ensures RecentLines(Kept(After(cap, events)), Lines(events), lo)
  {
    hide Flat, After, Lines, Possible, AllTelling;
    var a, b, c := RunKeeps(cap, events, lo, hi, longest);
    ThreeParts(Lines(events), a, b, c);
  }

  // ----- a run whose times do not tell -----

  /** The longest line: the buffer a line is formatted in. */
  const LINE_BUFFER := 2048

  function Messages(lines: seq<Text>): seq<Event> {
    if lines == [] then [] else Messages(lines[..|lines| - 1]) + [Line(lines[|lines| - 1])]
  }

  ghost predicate Writable(line: Text) {
    0 < |line| <= LINE_BUFFER
  }

  /** Lines that fill a file: the cap is reached by the last one. */
  ghost predicate Fills(lines: seq<Text>, cap: Size) {
    && lines != [] && (forall k :: 0 <= k < |lines| ==> Writable(lines[k]))
    && |Flat(lines[..|lines| - 1])| < cap <= |Flat(lines)|
  }

  lemma AfterSnoc(cap: Size, events: seq<Event>, e: Event)
    ensures After(cap, events + [e]) == Do(After(cap, events), e)
    ensures Lines(events + [e]) == Lines(events) + if e.Line? then [e.line] else []
    ensures forall lo: Size, hi, longest ::
              Possible(cap, events + [e], lo, hi, longest)
              <==> Possible(cap, events, lo, hi, longest) && May(After(cap, events), e, lo, hi, longest)
  {
    assert (events + [e])[..|events|] == events;
    hide Do, May;
  }

  /** Two runs are possible under the same bounds. */
  ghost predicate AsPossible(cap: Size, events: seq<Event>, after: seq<Event>) {
    Possible(cap, events, cap, cap, LINE_BUFFER) ==> Possible(cap, after, cap, cap, LINE_BUFFER)
  }

  /** One more line on top of what the file got already. */
  lemma OneMore(cap: Size, events: seq<Event>, line: Text)
    requires Writable(line)
    ensures After(cap, events + [Line(line)]) == Append(After(cap, events), line)
    ensures Lines(events + [Line(line)]) == Lines(events) + [line]
    ensures AsPossible(cap, events, events + [Line(line)])
  {
    hide After, Lines, Possible, Append;
    AfterSnoc(cap, events, Line(line));
  }

  /** The ring with this text in its current file. */
  function Piled(l: Ring, text: Text): (l': Ring)
    requires Formed(l)
    ensures Formed(l')
  {
    l.(files := l.files[l.cur := text])
  }

  /** The ring moved on to its next file. */
  function Moved(l: Ring): (l': Ring)
    requires Formed(l)
    ensures Formed(l')
  {
    var next := (l.cur + 1) % FILES;
    l.(files := l.files[next := []], cur := next)
  }

  lemma AppendPiled(l: Ring, text: Text, line: Text)
    requires Formed(l)
    ensures Append(Piled(l, text), line)
         == if |text + line| >= l.cap then Moved(Piled(l, text + line)) else Piled(l, text + line)
  {
    assert l.files[l.cur := text][l.cur := text + line] == l.files[l.cur := text + line];
  }

  lemma PiledNothing(l: Ring)
    requires Formed(l) && Newest(l) == []
    ensures Piled(l, Flat([])) == l
  {
    assert l.files[l.cur := []] == l.files;
  }

  lemma FlatLast(lines: seq<Text>)
    requires lines != []
    ensures Flat(lines) == Flat(lines[..|lines| - 1]) + lines[|lines| - 1]
    ensures |Flat(lines[..|lines| - 1])| <= |Flat(lines)|
  {
  }

  lemma MessagesLast(events: seq<Event>, lines: seq<Text>)
    requires lines != []
    ensures var n := |lines| - 1;
            events + Messages(lines) == (events + Messages(lines[..n])) + [Line(lines[n])]
  {
    var before, e := Messages(lines[..|lines| - 1]), Line(lines[|lines| - 1]);
    assert Messages(lines) == before + [e];
    hide Messages;
    assert events + (before + [e]) == (events + before) + [e];
  }

  /** Lines below the cap gather in the current file. */
  lemma {:induction false} Gathers(cap: Size, events: seq<Event>, lines: seq<Text>)
    requires forall k :: 0 <= k < |lines| ==> Writable(lines[k])
    requires Newest(After(cap, events)) == [] && After(cap, events).cap == cap && |Flat(lines)| < cap
    ensures After(cap, events + Messages(lines)) == Piled(After(cap, events), Flat(lines))
    ensures Lines(events + Messages(lines)) == Lines(events) + lines
    ensures AsPossible(cap, events, events + Messages(lines))
    decreases |lines|
  {
    if lines == [] {
      PiledNothing(After(cap, events));
      assert events + Messages(lines) == events && Lines(events) + lines == Lines(events);
    } else {
      hide After, Lines, Possible, Flat, Append, Piled, Messages, Writable, Newest;
      FlatLast(lines);
      Gathers(cap, events, lines[..|lines| - 1]);
      Tops(cap, events, lines);
    }
  }

  /** The last line on top of the others. */
  lemma Tops(cap: Size, events: seq<Event>, lines: seq<Text>)
    requires lines != [] && Writable(lines[|lines| - 1]) && After(cap, events).cap == cap
    requires var others := lines[..|lines| - 1];
             && After(cap, events + Messages(others)) == Piled(After(cap, events), Flat(others))
             && Lines(events + Messages(others)) == Lines(events) + others
             && AsPossible(cap, events, events + Messages(others))
    ensures var l := Piled(After(cap, events), Flat(lines));
            After(cap, events + Messages(lines)) == if |Flat(lines)| >= cap then Moved(l) else l
    ensures Lines(events + Messages(lines)) == Lines(events) + lines
    ensures AsPossible(cap, events, events + Messages(lines))
  {
    hide After, Lines, Possible, Flat, Append, Piled, Moved, Messages, Writable;
    var n := |lines| - 1;
    FlatLast(lines);
    MessagesLast(events, lines);
    OneMore(cap, events + Messages(lines[..n]), lines[n]);
    AppendPiled(After(cap, events), Flat(lines[..n]), lines[n]);
    assert (Lines(events) + lines[..n]) + [lines[n]] == Lines(events) + lines;
  }

  /** Lines that fill the file move the ring on to the next one. */
  lemma Full(cap: Size, events: seq<Event>, lines: seq<Text>)
    requires Fills(lines, cap) && Newest(After(cap, events)) == [] && After(cap, events).cap == cap
    ensures After(cap, events + Messages(lines)) == Moved(Piled(After(cap, events), Flat(lines)))
    ensures Lines(events + Messages(lines)) == Lines(events) + lines
    ensures AsPossible(cap, events, events + Messages(lines))
  {
    hide After, Lines, Possible, Flat, Append, Piled, Messages, Writable, Newest;
    Gathers(cap, events, lines[..|lines| - 1]);
    Tops(cap, events, lines);
  }

  lemma Nothing(cap: Size)
    ensures After(cap, []) == CleanStart(cap) && Lines([]) == []
    ensures Possible(cap, [], cap, cap, LINE_BUFFER)
  {
  }

  /** Three files filled, and a short line d in the first one again. */
  function Filled3(xs: seq<Text>, ys: seq<Text>, zs: seq<Text>, d: Text): seq<Event> {
    Messages(xs) + Messages(ys) + Messages(zs) + [Line(d)]
  }

  lemma FilledRing(cap: Size, xs: seq<Text>, ys: seq<Text>, zs: seq<Text>, d: Text)
    requires Fills(xs, cap) && Fills(ys, cap) && Fills(zs, cap) && Writable(d) && |d| < cap
    ensures After(cap, Filled3(xs, ys, zs, d)) == Ring([d, Flat(ys), Flat(zs)], 0, cap)
    ensures Lines(Filled3(xs, ys, zs, d)) == xs + ys + zs + [d]
    ensures Possible(cap, Filled3(xs, ys, zs, d), cap, cap, LINE_BUFFER)
  {
    hide After, Lines, Possible, Fills, Messages, Flat;
    var none: seq<Event> := [];
    Nothing(cap);
    Full(cap, none, xs);
    assert none + Messages(xs) == Messages(xs);
    assert Lines(none) + xs == xs;
    assert After(cap, Messages(xs)) == Ring([Flat(xs), [], []], 1, cap);
    Full(cap, Messages(xs), ys);
    assert After(cap, Messages(xs) + Messages(ys)) == Ring([Flat(xs), Flat(ys), []], 2, cap);
    Full(cap, Messages(xs) + Messages(ys), zs);
    assert After(cap, Messages(xs) + Messages(ys) + Messages(zs)) == Ring([[], Flat(ys), Flat(zs)], 0, cap);
    var text: Text := [];
    assert text + d == d;
    OneMore(cap, Messages(xs) + Messages(ys) + Messages(zs), d);
  }

  /** Then a restart that finds the third file and the first one written in the same
      tick of the clock, and one more line. */
  function Tied(cap: Size, xs: seq<Text>, ys: seq<Text>, zs: seq<Text>, d: Text, e: Text): seq<Event> {
    Filled3(xs, ys, zs, d) + [Restart([At(6), At(2), At(6)], cap)] + [Line(e)]
  }

  lemma TieChooses(stamps: seq<Stamp>)
    requires stamps == [At(6), At(2), At(6)]
    ensures Chosen(stamps) == 2
  {
    assert Outdone(stamps, 0, 2) && Outdone(stamps, 1, 2) && Outdone(stamps, 2, 2);
    LatestIsOne(stamps, 2, Best(stamps));
  }

  lemma TieResumes(d: Text, y: Text, z: Text, e: Text, stamps: seq<Stamp>, cap: Size)
    requires stamps == [At(6), At(2), At(6)] && d != [] && y != [] && |z| >= cap
    ensures var l := Ring([d, y, z], 0, cap);
            && Exist(l, stamps)
            && Resume(l, stamps, cap) == Ring([d, y, z], 2, cap)
            && Append(Ring([d, y, z], 2, cap), e) == Ring([[], y, z + e], 0, cap)
  {
    TieChooses(stamps);
    hide Chosen;
  }

  lemma TiedRing(cap: Size, xs: seq<Text>, ys: seq<Text>, zs: seq<Text>, d: Text, e: Text)
    requires Fills(xs, cap) && Fills(ys, cap) && Fills(zs, cap)
    requires Writable(d) && |d| < cap && Writable(e)
    ensures Possible(cap, Tied(cap, xs, ys, zs, d, e), cap, cap, LINE_BUFFER)
    ensures Lines(Tied(cap, xs, ys, zs, d, e)) == Five(xs, ys, zs, d, e)
    ensures After(cap, Tied(cap, xs, ys, zs, d, e)) == Ring([[], Flat(ys), Flat(zs) + e], 0, cap)
  {
    FilledRing(cap, xs, ys, zs, d);
    assert |Flat(ys)| > 0 && |Flat(zs)| >= cap;
    var events, stamps := Filled3(xs, ys, zs, d), [At(6), At(2), At(6)];
    hide After, Possible, Lines, Filled3, Fills, Flat, Resume, Append, Exist;
    TieResumes(d, Flat(ys), Flat(zs), e, stamps, cap);
    AfterSnoc(cap, events, Restart(stamps, cap));
    OneMore(cap, events + [Restart(stamps, cap)], e);
  }

  /** The lines of such a run. */
  function Five(xs: seq<Text>, ys: seq<Text>, zs: seq<Text>, d: Text, e: Text): seq<Text> {
    xs + ys + zs + [d] + [e]
  }

  lemma FiveLength(xs: seq<Text>, ys: seq<Text>, zs: seq<Text>, d: Text, e: Text)
    ensures |Flat(Five(xs, ys, zs, d, e))| == |Flat(xs)| + |Flat(ys)| + |Flat(zs)| + |d| + |e|
  {
    FlatAppend(xs + ys + zs, d);
    FlatAppend(xs + ys + zs + [d], e);
    FlatSplit(xs + ys + zs, |xs + ys|);
    FlatSplit(xs + ys, |xs|);
    assert (xs + ys + zs)[..|xs + ys|] == xs + ys && (xs + ys + zs)[|xs + ys|..] == zs;
    assert (xs + ys)[..|xs|] == xs && (xs + ys)[|xs|..] == ys;
    hide Flat;
  }

  /** What is cut off at the front: no more than the first file, or that and at least
      one line of the second. */
  lemma FrontLength(xs: seq<Text>, ys: seq<Text>, zs: seq<Text>, d: Text, e: Text, from: nat)
    requires ys != [] && from <= |Five(xs, ys, zs, d, e)|
    ensures var front := Five(xs, ys, zs, d, e)[..from];
            if from <= |xs| then |Flat(front)| <= |Flat(xs)| else |Flat(front)| >= |Flat(xs)| + |ys[0]|
  {
    hide Flat;
    var front := Five(xs, ys, zs, d, e)[..from];
    if from <= |xs| {
      assert front == xs[..from];
      FlatLonger(xs, from);
    } else {
      assert front[..|xs| + 1] == xs + [ys[0]];
      FlatLonger(front, |xs| + 1);
      FlatAppend(xs, ys[0]);
    }
  }

  /** No suffix is as long as the text without the first file and without d. */
  lemma NoSuchSuffix(xs: seq<Text>, ys: seq<Text>, zs: seq<Text>, d: Text, e: Text, from: nat)
    requires ys != [] && 0 < |d| < |ys[0]|
    requires from <= |Five(xs, ys, zs, d, e)|
    ensures |Flat(Five(xs, ys, zs, d, e)[from..])| != |Flat(ys) + Flat(zs) + e|
  {
    hide Flat, Five;
    FiveLength(xs, ys, zs, d, e);
    FrontLength(xs, ys, zs, d, e, from);
    FlatSplit(Five(xs, ys, zs, d, e), from);
  }

  lemma FlatLonger(lines: seq<Text>, n: nat)
    requires n <= |lines|
    ensures |Flat(lines[..n])| <= |Flat(lines)|
  {
    FlatSplit(lines, n);
  }

  lemma KeptFrom(middle: Text, newest: Text, cap: Size)
    ensures Kept(Ring([[], middle, newest], 0, cap)) == middle + newest
  {
  }

  lemma NotRecent(kept: Text, lines: seq<Text>, lo: Size)
    requires forall from: nat | from <= |lines| :: Flat(lines[from..]) != kept
    ensures !RecentLines(kept, lines, lo)
  {
  }

  /** In such a run the line before the restart is lost, while older ones are kept. */
  lemma {:induction false} TieLosesLine(cap: Size, xs: seq<Text>, ys: seq<Text>, zs: seq<Text>, d: Text, e: Text, lo: Size)
    requires Fills(xs, cap) && Fills(ys, cap) && Fills(zs, cap)
    requires Writable(d) && |d| < cap && Writable(e) && |d| < |ys[0]|
    ensures var run := Tied(cap, xs, ys, zs, d, e);
            && Possible(cap, run, cap, cap, LINE_BUFFER)
            && Kept(After(cap, run)) == Flat(ys) + Flat(zs) + e
            && !RecentLines(Kept(After(cap, run)), Lines(run), lo)
  {
    TiedRing(cap, xs, ys, zs, d, e);
    assert ys != [] && 0 < |d|;
    KeptFrom(Flat(ys), Flat(zs) + e, cap);
    assert Flat(ys) + (Flat(zs) + e) == Flat(ys) + Flat(zs) + e;
    hide RecentLines, Kept, Tied, After, Lines, Possible, Flat, Fills, Writable, Five;
    forall from: nat | from <= |Five(xs, ys, zs, d, e)|
      ensures Flat(Five(xs, ys, zs, d, e)[from..]) != Flat(ys) + Flat(zs) + e
    {
      NoSuchSuffix(xs, ys, zs, d, e, from);
    }
    NotRecent(Flat(ys) + Flat(zs) + e, Five(xs, ys, zs, d, e), lo);
  }

  function Copies(line: Text, n: nat): (lines: seq<Text>)
    ensures |lines| == n && forall k :: 0 <= k < n ==> lines[k] == line
  {
    seq(n, i => line)
  }

  lemma {:induction false} CopiesLength(line: Text, n: nat)
    ensures |Flat(Copies(line, n))| == n * |line|
  {
    if n > 0 {
      CopiesLength(line, n - 1);
      assert Copies(line, n) == Copies(line, n - 1) + [line];
      FlatAppend(Copies(line, n - 1), line);
      assert (n - 1) * |line| + |line| == n * |line|;
    }
  }

  /** Lines of 1024 octets fill a file of any cap. */
  lemma LinesFill(cap: Size, line: Text) returns (lines: seq<Text>)
    requires |line| == 1024
    ensures Fills(lines, cap) && lines[0] == line
  {
    var n := (cap + 1023) / 1024;
    lines := Copies(line, n);
    CopiesLength(line, n);
    CopiesLength(line, n - 1);
    assert lines[..n - 1] == Copies(line, n - 1);
    hide Flat;
  }

  /** So there is such a run for every cap. */
  lemma TieExists(cap: Size, line: Text, d: Text, e: Text) returns (lines: seq<Text>)
    requires MIN_FILE <= cap <= MAX_FILE && |line| == 1024 && |d| == 1000 && Writable(e)
    ensures var run := Tied(cap, lines, lines, lines, d, e);
            && Possible(cap, run, cap, cap, LINE_BUFFER)
            && !RecentLines(Kept(After(cap, run)), Lines(run), 1)
  {
    lines := LinesFill(cap, line);
    hide Fills, Tied, After, Lines, Possible, RecentLines;
    TieLosesLine(cap, lines, lines, lines, d, e, 1);
  }

  lemma DoWithin(l: Ring, e: Event, lo: Size, hi: nat, longest: nat, slack: nat)
    requires Formed(l) && May(l, e, lo, hi, longest) && l.cap <= hi && Within(l, hi, longest, slack)
    ensures Do(l, e).cap <= hi
    ensures Within(Do(l, e), hi, longest, if e.Restart? then slack + longest else slack)
  {
  }

  /** Each file stays below the cap plus one line; a restart that goes on with a full
      file lets it grow by a line more. This needs no telling times. */
  lemma {:induction false} FilesWithin(cap: Size, events: seq<Event>, lo: Size, hi: nat, longest: nat)
    requires Possible(cap, events, lo, hi, longest)
    ensures longest * Restarts(events) >= 0
    ensures Within(After(cap, events), hi, longest, longest * Restarts(events))
    ensures After(cap, events).cap <= hi
    decreases |events|
  {
    hide Within, Formed, Do;
    if events == [] {
      StartWithin(cap, hi, longest);
    } else {
      var prior, e := events[..|events| - 1], events[|events| - 1];
      FilesWithin(cap, prior, lo, hi, longest);
      DoWithin(After(cap, prior), e, lo, hi, longest, longest * Restarts(prior));
      assert longest * (Restarts(prior) + 1) == longest * Restarts(prior) + longest;
    }
  }

  lemma StartWithin(cap: Size, hi: nat, longest: nat)
    requires cap <= hi
    ensures Within(CleanStart(cap), hi, longest, 0)
  {
  }

  // ----- setting up -----

  /** The free space of the card, if it could be asked for. */
  datatype Space = Unknown | Free(bytes: nat)

  /** What the first message after a start finds. */
  datatype Boot = Boot(clean: bool, stamps: seq<Stamp>, space: Space)

  function Clamped(share: int): (cap: Size)
    ensures MIN_FILE <= cap <= MAX_FILE
  {
    if share < MIN_FILE then MIN_FILE else if share < MAX_FILE then share else MAX_FILE
  }

  /** The share of a file as the code works it out, in a 32-bit long that wraps; C leaves
      the overflow of the sum undefined. */
  function CapFor(existing: nat, space: Space): Size {
    match space
    case Unknown => MAX_FILE
    case Free(bytes) => Clamped(TruncDiv(ToI32(ToI32(bytes) as int + existing), FILES))
  }

  /** The share as the comment above the code promises it: a third of what is free or
      taken by the log, at most 1 MB and at least 8 KB. */
  function Share(existing: nat, bytes: nat): nat {
    Clamped((bytes + existing) / FILES)
  }

  lemma NarrowSum(a: nat, b: nat)
    ensures ToI32(ToI32(a) as int + b) == ToI32(a + b)
  {
  }

  lemma NarrowIsExact(x: nat)
    ensures x < 0x8000_0000 ==> ToI32(x) == x
  {
  }

  /** Exactly when the narrow sum does no harm. */
  lemma {:induction false} CapAsPromised(existing: nat, bytes: nat)
    ensures CapFor(existing, Free(bytes)) == Share(existing, bytes)
       <==> bytes + existing < 0x8000_0000 || ToI32(bytes + existing) as int >= FILES * MAX_FILE
  {
    hide ToI32;
    NarrowSum(bytes, existing);
    NarrowIsExact(bytes + existing);
  }

  /** A card with 4 GB free gets the smallest cap. */
  lemma CapFallsToFloor()
    ensures CapFor(0, Free(0x1_0000_0000)) == MIN_FILE
    ensures Share(0, 0x1_0000_0000) == MAX_FILE
  {
  }

  function Sizes(files: seq<Text>): nat {
    if files == [] then 0 else Sizes(files[..|files| - 1]) + |files[|files| - 1]|
  }

  /** The ring after set-up. */
  function Prepared(l: Ring, boot: Boot): (l': Ring)
    requires Formed(l) && |boot.stamps| == FILES
    ensures Formed(l')
  {
    if boot.clean then CleanStart(CapFor(0, boot.space))
    else Resume(l, boot.stamps, CapFor(Sizes(l.files), boot.space))
  }

  // ----- the code -----

  class Logger {
    /** The files as a reader of the open stream would see them. */
    const files: array<Text>
    var cur: nat
    var cap: Size
    var ready: bool
    var open: bool
    var sinceFlush: nat
    var lastFlush: u32
    /** What a power loss would leave on the card at the least. */
    ghost var card: seq<Text>

    ghost predicate Valid()
      reads this, files
    {
      && files.Length == FILES && cur < FILES && |card| == FILES
      && (open ==> ready) && (open ==> sinceFlush <= |files[cur]|)
      && (forall i :: 0 <= i < FILES && i != cur ==> card[i] == files[i])
      && card[cur] == if open then files[cur][..|files[cur]| - sinceFlush] else files[cur]
    }

    ghost function View(): (l: Ring)
      reads this, files
      requires Valid()
      ensures Formed(l)
    {
      Ring(files[..], cur, cap)
    }

    constructor (found: seq<Text>)
      requires |found| == FILES
      ensures Valid() && fresh(files) && !ready && !open && files[..] == found
    {
      files := new Text[FILES](i requires 0 <= i < FILES => found[i]);
      cur, cap, ready, open, sinceFlush, lastFlush := 0, MAX_FILE, false, false, 0, 0;
      card := found;
      new;
      assert files[..] == found;
    }

    /** The sum of the file sizes. */
    method Existing() returns (sum: nat)
      requires Valid()
      ensures sum == Sizes(files[..])
    {
      sum := 0;
      for i := 0 to FILES
        invariant sum == Sizes(files[..i])
      {
        assert files[..i + 1][..i] == files[..i];
        sum := sum + |files[i]|;
      }
      assert files[..FILES] == files[..];
    }

    /** Removing all files. */
    method Clean()
      requires Valid() && !open
      modifies this`cur, this`card, files
      ensures Valid() && cur == 0 && files[..] == [[], [], []]
    {
      files[0], files[1], files[2] := [], [], [];
      cur := 0;
      card := files[..];
    }

    /** _logSetup: cleaning leaves three empty files and begins with the first. Otherwise
        no file is touched, and the log goes on with the newest, or with the first if
        there is none. */
    method Setup(boot: Boot)
      requires Valid() && !ready && |boot.stamps| == FILES
      modifies this, files
      ensures Valid() && ready && !open
      ensures boot.clean ==> files[..] == [[], [], []] && cur == 0
      ensures !boot.clean ==>
                && files[..] == old(files[..])
                && (Latest(boot.stamps, cur) || (cur == 0 && forall i :: 0 <= i < FILES ==> boot.stamps[i].Missing?))
      ensures View() == Prepared(old(View()), boot)
    {
      hide Sizes, CapFor, Best;
      if boot.clean {
        Clean();
        NoSizes();
      } else {
        var newest := FindNewest(boot.stamps);
        cur := if newest >= 0 then newest else 0;
      }
      var existing := Existing();
      cap := CapFor(existing, boot.space);
      ready := true;
    }

    /** _logOpenLocked */
    method Open(now: u32)
      requires Valid() && ready && !open
      modifies this`open, this`sinceFlush, this`lastFlush
      ensures Valid() && open && sinceFlush == 0 && lastFlush == now
    {
      open, sinceFlush, lastFlush := true, 0, now;
    }

    /** _logFlushLocked */
    method Flush(now: u32)
      requires Valid()
      modifies this`sinceFlush, this`lastFlush, this`card
      ensures Valid() && card == files[..]
      ensures open ==> sinceFlush == 0 && lastFlush == now
      ensures !open ==> sinceFlush == old(sinceFlush) && lastFlush == old(lastFlush)
    {
      if open {
        sinceFlush, lastFlush := 0, now;
        card := files[..];
      } else {
        assert card == files[..];
      }
    }

    /** _logCloseLocked */
    method Close(now: u32)
      requires Valid()
      modifies this`sinceFlush, this`lastFlush, this`card, this`open
      ensures Valid() && !open && card == files[..]
    {
      if open {
        Flush(now);
        open := false;
      } else {
        assert card == files[..];
      }
    }

    /** The writing half of mblog. */
    method Write(line: Text, error: bool, now: u32)
      requires Valid() && open && line != []
      modifies this`sinceFlush, this`lastFlush, this`card, files
      ensures Valid() && files[..] == old(files[..])[cur := old(files[cur]) + line]
      ensures |card[cur]| + FLUSH_BYTES > |files[cur]|
      ensures error || ToU32(now as int - old(lastFlush) as int) as int >= FLUSH_TICKS ==> card == files[..]
    {
      files[cur] := files[cur] + line;
      sinceFlush := sinceFlush + |line|;
      if error || sinceFlush >= FLUSH_BYTES || ToU32(now as int - lastFlush as int) as int >= FLUSH_TICKS {
        Flush(now);
      }
    }

    /** Moving on to the next file. */
    method Rotate(now: u32)
      requires Valid()
      modifies this`sinceFlush, this`lastFlush, this`card, this`open, this`cur, files
      ensures Valid() && !open && card == files[..]
      ensures cur == (old(cur) + 1) % FILES && files[..] == old(files[..])[cur := []]
    {
      Close(now);
      cur := (cur + 1) % FILES;
      files[cur] := [];
      card := files[..];
    }

    /** The part of mblog that has the file open. */
    method Store(line: Text, error: bool, now: u32)
      requires Valid() && open && line != []
      modifies this`sinceFlush, this`lastFlush, this`card, this`open, this`cur, files
      ensures Valid() && View() == Append(old(View()), line)
      ensures |card[cur]| + FLUSH_BYTES > |files[cur]|
      ensures error || ToU32(now as int - old(lastFlush) as int) as int >= FLUSH_TICKS ==> card == files[..]
    {
      hide ToU32;
      Write(line, error, now);
      if |files[cur]| >= cap {
        Rotate(now);
      }
    }

    /** mblog with a line to write: the ring takes the line, an error and a line after
        a quiet spell are on the card at return, and never are 2048 bytes or more
        still under way. */
    method Log(line: Text, error: bool, now: u32, boot: Boot)
      requires Valid() && line != [] && |boot.stamps| == FILES
      modifies this, files
      ensures Valid() && ready
      ensures old(ready) ==> View() == Append(old(View()), line)
      ensures !old(ready) ==> View() == Append(Prepared(old(View()), boot), line)
      ensures |card[cur]| + FLUSH_BYTES > |files[cur]|
      ensures error ==> card == files[..]
      ensures old(open) && ToU32(now as int - old(lastFlush) as int) as int >= FLUSH_TICKS ==> card == files[..]
    {
      hide Prepared, ToU32, Append;
      if !ready {
        Setup(boot);
      }
      if !open {
        Open(now);
      }
      Store(line, error, now);
    }
  }

  lemma NoSizes()
    ensures Sizes([[], [], []]) == 0
  {
    var files: seq<Text> := [[], [], []];
    assert Sizes(files) == Sizes(files[..2]);
    assert files[..2] == [[], []] && Sizes(files[..2]) == Sizes(files[..2][..1]);
    assert files[..2][..1] == [[]] && Sizes(files[..2][..1]) == Sizes(files[..2][..1][..0]);
  }
}
