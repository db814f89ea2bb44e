/** The log over the life of a device: starts, messages and orderly restarts carried out
    by the code are a run of the ring, so what holds over such runs holds of the files. */
module LogRuns {
  import opened Words
  import opened Blocks
  import opened LogRing

  datatype Message = Message(line: Text, error: bool, now: u32)

  /** One start of the device: what the set-up finds, if there is a message to set the
      log up for, and the messages until the restart. */
  datatype Uptime = Uptime(boot: Boot, messages: seq<Message>)

  ghost predicate Sensible(up: Uptime) {
    |up.boot.stamps| == FILES && forall i :: 0 <= i < |up.messages| ==> up.messages[i].line != []
  }

  function Written(messages: seq<Message>): seq<Text> {
    if messages == [] then []
    else Written(messages[..|messages| - 1]) + [messages[|messages| - 1].line]
  }

  function AllWritten(ups: seq<Uptime>): seq<Text> {
    if ups == [] then [] else AllWritten(ups[..|ups| - 1]) + Written(ups[|ups| - 1].messages)
  }

  /** The lines of these messages as events. */
  function LinesOf(messages: seq<Message>): seq<Event> {
    if messages == [] then []
    else LinesOf(messages[..|messages| - 1]) + [Line(messages[|messages| - 1].line)]
  }

  /** What one uptime is in a run of the ring, found in state l: nothing if there is no
      message; otherwise a restart with the stamps found, and the lines. */
  function EventsOf(l: Ring, up: Uptime): seq<Event> {
    if up.messages == [] then []
    else [Restart(up.boot.stamps, CapFor(Sizes(l.files), up.boot.space))] + LinesOf(up.messages)
  }

  lemma LinesSnoc(messages: seq<Message>, m: Message)
    ensures LinesOf(messages + [m]) == LinesOf(messages) + [Line(m.line)]
    ensures Written(messages + [m]) == Written(messages) + [m.line]
  {
    assert (messages + [m])[..|messages|] == messages;
  }

  lemma OneLine(cap: Size, events: seq<Event>, messages: seq<Message>, m: Message)
    ensures After(cap, events + LinesOf(messages + [m])) == Append(After(cap, events + LinesOf(messages)), m.line)
  {
    hide After, Append, LinesOf;
    LinesSnoc(messages, m);
    assert events + (LinesOf(messages) + [Line(m.line)]) == (events + LinesOf(messages)) + [Line(m.line)];
    AfterSnoc(cap, events + LinesOf(messages), Line(m.line));
  }

  /** A log that is set up, after one message or more of the uptime. */
  method LogRest(log: Logger, messages: seq<Message>, boot: Boot, ghost cap: Size, ghost events: seq<Event>)
    requires log.Valid() && log.ready && messages != [] && |boot.stamps| == FILES
    requires log.View() == After(cap, events + LinesOf(messages[..1]))
    requires forall i :: 0 <= i < |messages| ==> messages[i].line != []
    modifies log, log.files
    ensures log.Valid() && log.ready && log.View() == After(cap, events + LinesOf(messages))
  {
    hide After, Append, LinesOf, Prepared;
    for i := 1 to |messages|
      invariant log.Valid() && log.ready && log.View() == After(cap, events + LinesOf(messages[..i]))
    {
      var m := messages[i];
      assert messages[..i + 1] == messages[..i] + [m];
      OneLine(cap, events, messages[..i], m);
      log.Log(m.line, m.error, m.now, boot);
    }
    assert messages[..|messages|] == messages;
  }

  /** The set-up of a start without cleaning is a restart of the ring, whatever the
      memory of the code held. */
  lemma SetupRestarts(cap: Size, events: seq<Event>, l: Ring, boot: Boot)
    requires Formed(l) && !boot.clean && |boot.stamps| == FILES && l.files == After(cap, events).files
    ensures Prepared(l, boot)
         == After(cap, events + [Restart(boot.stamps, CapFor(Sizes(l.files), boot.space))])
  {
    hide After, CapFor, Sizes, Chosen;
    AfterSnoc(cap, events, Restart(boot.stamps, CapFor(Sizes(l.files), boot.space)));
  }

  lemma FirstLine(cap: Size, events: seq<Event>, messages: seq<Message>)
    requires messages != []
    ensures After(cap, events + LinesOf(messages[..1])) == Append(After(cap, events), messages[0].line)
  {
    hide After, Append;
    assert messages[..1][..0] == [];
    assert LinesOf(messages[..1]) == [Line(messages[0].line)];
    AfterSnoc(cap, events, Line(messages[0].line));
  }

  /** One uptime on a log object just made from the files found, up to the orderly
      restart. */
  method Live(log: Logger, up: Uptime, end: u32, ghost cap: Size, ghost events: seq<Event>)
    requires log.Valid() && !log.ready && !log.open && Sensible(up) && !up.boot.clean
    requires log.files[..] == After(cap, events).files
    modifies log, log.files
    ensures log.Valid() && !log.open && log.card == log.files[..]
    ensures log.files[..] == After(cap, events + EventsOf(After(cap, events), up)).files
    ensures up.messages != [] ==> log.View() == After(cap, events + EventsOf(After(cap, events), up))
  {
    hide After, Append, LinesOf, Prepared, CapFor, Sizes;
    if up.messages != [] {
      ghost var e := Restart(up.boot.stamps, CapFor(Sizes(After(cap, events).files), up.boot.space));
      SetupRestarts(cap, events, log.View(), up.boot);
      FirstLine(cap, events + [e], up.messages);
      var m := up.messages[0];
      log.Log(m.line, m.error, m.now, up.boot);
      LogRest(log, up.messages, up.boot, cap, events + [e]);
      assert (events + [e]) + LinesOf(up.messages) == events + ([e] + LinesOf(up.messages));
    } else {
      assert events + [] == events;
    }
    log.Close(end);
  }

  /** The run of the ring that these uptimes are, after these events. */
  function History(cap: Size, before: seq<Event>, ups: seq<Uptime>): seq<Event> {
    if ups == [] then before
    else
      var prior := History(cap, before, ups[..|ups| - 1]);
      prior + EventsOf(After(cap, prior), ups[|ups| - 1])
  }

  lemma CleanedRing(l: Ring, boot: Boot)
    requires Formed(l) && boot.clean && |boot.stamps| == FILES
    ensures Prepared(l, boot) == After(CapFor(0, boot.space), [])
  {
    hide CapFor;
  }

  lemma Joined<T>(a: seq<T>, b: seq<T>, c: seq<T>)
    ensures (a + b) + c == a + (b + c)
  {
  }

  lemma OneMoreEvent(events: seq<Event>, e: Event)
    ensures Lines(events + [e]) == Lines(events) + if e.Line? then [e.line] else []
  {
    assert (events + [e])[..|events|] == events;
  }

  lemma {:induction false} LinesAdded(before: seq<Event>, messages: seq<Message>)
    ensures Lines(before + LinesOf(messages)) == Lines(before) + Written(messages)
    decreases |messages|
  {
    if messages == [] {
      assert before + [] == before;
    } else {
      hide Lines, LinesOf, Written;
      var n := |messages| - 1;
      LinesAdded(before, messages[..n]);
      assert messages == messages[..n] + [messages[n]];
      LinesSnoc(messages[..n], messages[n]);
      var e, first := Line(messages[n].line), LinesOf(messages[..n]);
      Joined(before, first, [e]);
      OneMoreEvent(before + first, e);
      Joined(Lines(before), Written(messages[..n]), [messages[n].line]);
    }
  }

  lemma UptimeLines(before: seq<Event>, l: Ring, up: Uptime)
    ensures Lines(before + EventsOf(l, up)) == Lines(before) + Written(up.messages)
  {
    hide Lines, LinesOf, CapFor, Sizes;
    if up.messages == [] {
      assert before + [] == before;
    } else {
      var e := Restart(up.boot.stamps, CapFor(Sizes(l.files), up.boot.space));
      assert before + ([e] + LinesOf(up.messages)) == (before + [e]) + LinesOf(up.messages);
      OneMoreEvent(before, e);
      LinesAdded(before + [e], up.messages);
    }
  }

  /** All its lines are those of the messages. */
  lemma {:induction false} HistoryLines(cap: Size, before: seq<Event>, ups: seq<Uptime>)
    ensures Lines(History(cap, before, ups)) == Lines(before) + AllWritten(ups)
    decreases |ups|
  {
    if ups != [] {
      hide Lines, EventsOf, After;
      var n := |ups| - 1;
      HistoryLines(cap, before, ups[..n]);
      UptimeLines(History(cap, before, ups[..n]), After(cap, History(cap, before, ups[..n])), ups[n]);
    }
  }

  /** The first uptime of a run: it cleans the log. */
  method LiveClean(log: Logger, up: Uptime, end: u32)
    requires log.Valid() && !log.ready && !log.open && Sensible(up) && up.boot.clean && up.messages != []
    modifies log, log.files
    ensures log.Valid() && !log.open && log.card == log.files[..]
    ensures log.View() == After(CapFor(0, up.boot.space), LinesOf(up.messages))
  {
    hide After, Append, LinesOf, Prepared, CapFor;
    ghost var cap := CapFor(0, up.boot.space);
    CleanedRing(log.View(), up.boot);
    FirstLine(cap, [], up.messages);
    assert [] + LinesOf(up.messages[..1]) == LinesOf(up.messages[..1]);
    assert [] + LinesOf(up.messages) == LinesOf(up.messages);
    var m := up.messages[0];
    log.Log(m.line, m.error, m.now, up.boot);
    LogRest(log, up.messages, up.boot, cap, []);
    log.Close(end);
  }

  /** The life of a device from a cleaned log on: the files are those of the run that its
      uptimes are. */
  method Life(found: seq<Text>, first: Uptime, ups: seq<Uptime>, end: u32) returns (log: Logger)
    requires |found| == FILES && Sensible(first) && first.boot.clean && first.messages != []
    requires forall i :: 0 <= i < |ups| ==> Sensible(ups[i]) && !ups[i].boot.clean
    ensures log.Valid() && log.card == log.files[..]
    ensures var cap := CapFor(0, first.boot.space);
            && log.files[..] == After(cap, History(cap, LinesOf(first.messages), ups)).files
            && (ups != [] && ups[|ups| - 1].messages != [] ==>
                  log.View() == After(cap, History(cap, LinesOf(first.messages), ups)))
    ensures var cap := CapFor(0, first.boot.space);
            var events := History(cap, LinesOf(first.messages), ups);
            forall longest | Possible(cap, events, MIN_FILE, MAX_FILE, longest) && AllTelling(cap, events) ::
              ups != [] && ups[|ups| - 1].messages != [] ==>
                RecentLines(Kept(log.View()), Everything(first, ups), MIN_FILE)
  {
    hide After, LinesOf, EventsOf, CapFor;
    log := new Logger(found);
    LiveClean(log, first, end);
    ghost var cap, before := CapFor(0, first.boot.space), LinesOf(first.messages);
    assert ups[..0] == [];
    for i := 0 to |ups|
      invariant log.Valid() && log.card == log.files[..]
      invariant log.files[..] == After(cap, History(cap, before, ups[..i])).files
      invariant i > 0 && ups[i - 1].messages != [] ==> log.View() == After(cap, History(cap, before, ups[..i]))
    {
      assert ups[..i + 1][..i] == ups[..i];
      log := new Logger(log.files[..]);
      Live(log, ups[i], end, cap, History(cap, before, ups[..i]));
    }
    assert ups[..|ups|] == ups;
    hide History, Possible, AllTelling, RecentLines;
    KeepsRecent(first, ups);
  }

  /** Everything written since the cleaning. */
  function Everything(first: Uptime, ups: seq<Uptime>): seq<Text> {
    Written(first.messages) + AllWritten(ups)
  }

  lemma {:induction false} KeepsRecent(first: Uptime, ups: seq<Uptime>)
    ensures var cap := CapFor(0, first.boot.space);
            var events := History(cap, LinesOf(first.messages), ups);
            forall longest | Possible(cap, events, MIN_FILE, MAX_FILE, longest) && AllTelling(cap, events) ::
              RecentLines(Kept(After(cap, events)), Everything(first, ups), MIN_FILE)
  {
    hide After, LinesOf, EventsOf, CapFor, Lines, History, Possible, AllTelling, RecentLines, Written, AllWritten;
    var cap := CapFor(0, first.boot.space);
    var events := History(cap, LinesOf(first.messages), ups);
    HistoryLines(cap, LinesOf(first.messages), ups);
    LinesAdded([], first.messages);
    NoEventsNoLines();
    assert [] + LinesOf(first.messages) == LinesOf(first.messages);
    forall longest | Possible(cap, events, MIN_FILE, MAX_FILE, longest) && AllTelling(cap, events)
      ensures RecentLines(Kept(After(cap, events)), Everything(first, ups), MIN_FILE)
    {
      KeepsRecentLines(cap, events, MIN_FILE, MAX_FILE, longest);
    }
  }

  lemma NoEventsNoLines()
    ensures Lines([]) == [] && forall texts: seq<Text> :: [] + texts == texts
  {
  }
}
