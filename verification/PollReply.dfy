/** The Art-Net node (components/artNet/artNet_common.c): the registry of
    universes with their subscribers, and the grouping of universes into poll
    replies. */
module PollReply {
  import opened Words

  const MAX_UNIVERSES := 8
  const PORTS := 4
  const MAX_SUBS := 4

  /** A registry entry; a free subscriber place is -1. */
  datatype Entry = Entry(universe: u16, inUse: bool, subs: seq<int>)

  function Upper(e: Entry): nat {
    e.universe / 16
  }

  // ----- the registry -----

  /** Universes in use are distinct, and no slot is listed twice under one of them. */
  ghost predicate Tidy(reg: seq<Entry>) {
    && (forall i :: 0 <= i < |reg| ==> |reg[i].subs| == MAX_SUBS)
    && (forall i, j :: 0 <= i < j < |reg| && reg[i].inUse && reg[j].inUse ==> reg[i].universe != reg[j].universe)
    && (forall i :: 0 <= i < |reg| ==> OnceEach(reg[i].subs))
  }

  ghost predicate OnceEach(subs: seq<int>) {
    forall s, t :: 0 <= s < t < |subs| && subs[s] >= 0 ==> subs[s] != subs[t]
  }

  const NOBODY: seq<int> := [-1, -1, -1, -1]

  /** A slot cannot subscribe: its universe has four other subscribers, or all entries
      are in use for other universes. */
  ghost predicate NoRoom(reg: seq<Entry>, universe: u16, slot: int) {
    || (forall i :: 0 <= i < |reg| ==> reg[i].inUse && reg[i].universe != universe)
    || (exists i :: 0 <= i < |reg| && Full(reg[i], universe, slot))
  }

  predicate Full(e: Entry, universe: u16, slot: int) {
    e.inUse && e.universe == universe && slot !in e.subs && forall s :: 0 <= s < |e.subs| ==> e.subs[s] >= 0
  }

  class Registry {
    const universes: array<Entry>

    ghost predicate Valid()
      reads universes
    {
      universes.Length == MAX_UNIVERSES && Tidy(universes[..])
    }

    constructor ()
      ensures Valid() && fresh(universes)
      ensures forall i :: 0 <= i < universes.Length ==> !universes[i].inUse
    {
      universes := new Entry[MAX_UNIVERSES](i => Entry(0, false, NOBODY));
      new;
      assert forall i :: 0 <= i < MAX_UNIVERSES ==> universes[..][i] == Entry(0, false, NOBODY);
    }

    method FindUniverse(universe: u16) returns (r: int)
      requires Valid()
      ensures -1 <= r < MAX_UNIVERSES
      ensures r >= 0 ==> universes[r].inUse && universes[r].universe == universe
      ensures r < 0 ==> forall i :: 0 <= i < MAX_UNIVERSES && universes[i].inUse ==> universes[i].universe != universe
    {
      for i := 0 to MAX_UNIVERSES
        invariant forall k :: 0 <= k < i && universes[k].inUse ==> universes[k].universe != universe
      {
        if universes[i].inUse && universes[i].universe == universe {
          return i;
        }
      }
      r := -1;
    }

    /** claimUniverse; `memory` tells whether a lock can be created. */
    method ClaimUniverse(universe: u16, memory: bool) returns (r: int)
      requires Valid()
      modifies universes
      ensures Valid() && -1 <= r < MAX_UNIVERSES
      ensures r >= 0 ==> universes[r].inUse && universes[r].universe == universe
      ensures r >= 0 && old(universes[r].inUse) ==> universes[..] == old(universes[..])
      ensures r >= 0 && !old(universes[r].inUse) ==>
                universes[..] == old(universes[..])[r := Entry(universe, true, NOBODY)]
      ensures r < 0 ==>
                forall i :: 0 <= i < MAX_UNIVERSES ==>
                  universes[i].inUse == old(universes[i].inUse)
                  && (universes[i].inUse ==> universes[i] == old(universes[i]) && universes[i].universe != universe)
                  && (memory ==> universes[i].inUse)
    {
      r := FindUniverse(universe);
      if r >= 0 {
        return;
      }
      ghost var before := universes[..];
      for i := 0 to MAX_UNIVERSES
        invariant universes[..] == before
        invariant forall k :: 0 <= k < i ==> universes[k].inUse
      {
        if !universes[i].inUse {
          universes[i] := Entry(universe, memory, NOBODY);
          assert universes[..] == before[i := Entry(universe, memory, NOBODY)];
          if memory {
            return i;
          }
          return -1;
        }
      }
    }

    /** The scan of the subscriber places: where the slot is, and the first free place. */
    method FindPlace(subs: seq<int>, slot: int) returns (mine: int, free: int)
      requires |subs| == MAX_SUBS && slot >= 0
      ensures -1 <= mine < MAX_SUBS && -1 <= free < MAX_SUBS
      ensures if slot in subs then mine >= 0 && subs[mine] == slot else mine == -1
      ensures if free >= 0 then subs[free] < 0 else forall s :: 0 <= s < MAX_SUBS ==> subs[s] >= 0
    {
      mine, free := -1, -1;
      for s := 0 to MAX_SUBS
        invariant -1 <= mine < s && -1 <= free < s
        invariant mine >= 0 ==> subs[mine] == slot
        invariant mine == -1 ==> slot !in subs[..s]
        invariant if free >= 0 then subs[free] < 0 else forall t :: 0 <= t < s ==> subs[t] >= 0
      {
        if subs[s] == slot {
          mine := s;
        } else if subs[s] < 0 && free < 0 {
          free := s;
        }
      }
      assert subs[..MAX_SUBS] == subs;
    }

    /** artnet_subscribe: the entry, or -1 when the registry or the entry is full. */
    method Subscribe(universe: u16, slot: int, memory: bool) returns (r: int)
      requires Valid() && slot >= 0
      modifies universes
      ensures Valid() && -1 <= r < MAX_UNIVERSES
      ensures r >= 0 ==> universes[r].inUse && universes[r].universe == universe && slot in universes[r].subs
      ensures r >= 0 ==>
                var was := if old(universes[r].inUse) then old(universes[r].subs) else NOBODY;
                && (forall i :: 0 <= i < MAX_UNIVERSES && i != r ==> universes[i] == old(universes[i]))
                && (forall x :: x >= 0 && x != slot ==> (x in universes[r].subs <==> x in was))
      ensures r < 0 ==> forall i :: 0 <= i < MAX_UNIVERSES && universes[i].inUse ==> universes[i] == old(universes[i])
      ensures r < 0 && memory ==> NoRoom(old(universes[..]), universe, slot)
    {
      r := ClaimUniverse(universe, memory);
      if r >= 0 {
        var subs := universes[r].subs;
        var mine, free := FindPlace(subs, slot);
        var idx := if mine >= 0 then mine else free;
        if idx < 0 {
          assert subs[0] >= 0 && NOBODY[0] == -1;
          assert Full(old(universes[..])[r], universe, slot);
          r := -1;
        } else {
          ghost var before := universes[..];
          SubsReplaced(subs, idx, slot);
          universes[r] := universes[r].(subs := subs[idx := slot]);
          assert universes[..] == before[r := before[r].(subs := subs[idx := slot])];
        }
      }
    }

    lemma SubsReplaced(subs: seq<int>, idx: nat, slot: int)
      requires OnceEach(subs) && idx < |subs| && slot >= 0
      requires subs[idx] == slot || (subs[idx] < 0 && slot !in subs)
      ensures OnceEach(subs[idx := slot]) && slot in subs[idx := slot]
      ensures forall x :: x >= 0 && x != slot ==> (x in subs[idx := slot] <==> x in subs)
    {
      var t := subs[idx := slot];
      assert t[idx] == slot;
      forall x | x >= 0 && x != slot
        ensures x in t <==> x in subs
      {
        if x in subs {
          var k :| 0 <= k < |subs| && subs[k] == x;
          assert t[k] == x;
        }
        if x in t {
          var k :| 0 <= k < |t| && t[k] == x;
          assert subs[k] == x;
        }
      }
    }

    /** artnet_unsubscribe: the slot leaves the universe, everybody else stays. */
    method Unsubscribe(universe: u16, slot: int)
      requires Valid() && slot >= 0
      modifies universes
      ensures Valid()
      ensures forall i :: 0 <= i < MAX_UNIVERSES ==>
                if old(universes[i].inUse) && universes[i].universe == universe
                then universes[i] == old(universes[i]).(subs := Without(old(universes[i].subs), slot))
                else universes[i] == old(universes[i])
    {
      var r := FindUniverse(universe);
      if r >= 0 {
        var subs := universes[r].subs;
        ghost var before := universes[..];
        for s := 0 to MAX_SUBS
          invariant |subs| == MAX_SUBS
          invariant forall t :: 0 <= t < MAX_SUBS ==>
                      subs[t] == if t < s && before[r].subs[t] == slot then -1 else before[r].subs[t]
        {
          if subs[s] == slot {
            subs := subs[s := -1];
          }
        }
        assert subs == Without(before[r].subs, slot);
        universes[r] := universes[r].(subs := subs);
        assert universes[..] == before[r := before[r].(subs := subs)];
      }
    }
  }

  function Without(subs: seq<int>, slot: int): (r: seq<int>)
    ensures |r| == |subs|
  {
    seq(|subs|, i requires 0 <= i < |subs| => if subs[i] == slot then -1 else subs[i])
  }

  // ----- the poll reply -----

  /** One reply: its bind index and the registry places it announces. */
  datatype Reply = Reply(bind: nat, group: seq<nat>)

  ghost predicate Increasing(group: seq<nat>) {
    forall a, b :: 0 <= a < b < |group| ==> group[a] < group[b]
  }

  /** A reply announces one to four universes in use, alike in their upper bits. */
  ghost predicate GroupFits(reg: seq<Entry>, group: seq<nat>) {
    && 1 <= |group| <= 4 && Increasing(group)
    && (forall g :: g in group ==> g < |reg| && reg[g].inUse)
    && (forall g, h :: g in group && h in group ==> Upper(reg[g]) == Upper(reg[h]))
  }

  ghost predicate Disjoint(replies: seq<Reply>) {
    forall r, s, g :: 0 <= r < s < |replies| && g in replies[r].group ==> g !in replies[s].group
  }

  /** The upper bits a reply stands for. */
  function Heading(reg: seq<Entry>, group: seq<nat>): int {
    if |group| > 0 && group[0] < |reg| then Upper(reg[group[0]]) else -1
  }

  /** A second reply with the same upper bits comes only after a full one. */
  ghost predicate NoneWasted(reg: seq<Entry>, replies: seq<Reply>) {
    forall r, s :: 0 <= r < s < |replies| && Heading(reg, replies[r].group) == Heading(reg, replies[s].group)
                   ==> |replies[r].group| == 4
  }

  /** Place k could have been announced in this reply. */
  predicate Sharing(reg: seq<Entry>, reply: Reply, k: int) {
    0 <= k < |reg| && reg[k].inUse && Upper(reg[k]) == Heading(reg, reply.group)
  }

  predicate Announced(replies: seq<Reply>, g: nat) {
    exists r :: 0 <= r < |replies| && g in replies[r].group
  }

  /** The inner loop: the first four places from i on that are in use, not done and
      alike in their upper bits. */
  method CollectGroup(reg: seq<Entry>, done: array<bool>, i: nat) returns (group: seq<nat>)
    requires |reg| == done.Length && i < |reg| && reg[i].inUse && !done[i]
    modifies done
    ensures GroupFits(reg, group) && group[0] == i
    ensures forall g :: g in group ==> i <= g < |reg| && !old(done[g])
    ensures forall k :: 0 <= k < |reg| ==> done[k] == (old(done[k]) || k in group)
    ensures |group| < PORTS ==>
              forall k :: i <= k < |reg| && reg[k].inUse && Upper(reg[k]) == Upper(reg[i]) ==> done[k]
  {
    group := [];
    var hi := Upper(reg[i]);
    for j := i to |reg|
      invariant |group| <= PORTS && Increasing(group)
      invariant forall g :: g in group ==> i <= g < j && reg[g].inUse && Upper(reg[g]) == hi && !old(done[g])
      invariant forall k :: 0 <= k < |reg| ==> done[k] == (old(done[k]) || k in group)
      invariant |group| < PORTS ==> forall k :: i <= k < j && reg[k].inUse && Upper(reg[k]) == hi ==> done[k]
      invariant if j == i then group == [] else |group| > 0 && group[0] == i
    {
      if reg[j].inUse && !done[j] && Upper(reg[j]) == hi && |group| < PORTS {
        ghost var before := group;
        assert forall a :: 0 <= a < |before| ==> before[a] in before;
        group := group + [j];
        assert forall k :: k in group <==> k in before || k == j;
        done[j] := true;
      }
    }
  }

  /** What every list of replies built so far keeps. */
  ghost predicate Grouped(reg: seq<Entry>, replies: seq<Reply>) {
    && (forall r :: 0 <= r < |replies| ==> replies[r].bind == r + 1 && GroupFits(reg, replies[r].group))
    && Disjoint(replies) && NoneWasted(reg, replies)
  }

  /** The done marks: what was announced; a reply with room left has taken all it could. */
  ghost predicate Marked(reg: seq<Entry>, replies: seq<Reply>, done: seq<bool>) {
    && |done| == |reg|
    && (forall k :: 0 <= k < |reg| ==> (done[k] <==> Announced(replies, k)))
    && (forall r, k :: 0 <= r < |replies| && |replies[r].group| < PORTS && Sharing(reg, replies[r], k) ==> done[k])
  }

  lemma AnnouncedAfter(replies: seq<Reply>, reply: Reply, g: nat)
    ensures Announced(replies + [reply], g) <==> Announced(replies, g) || g in reply.group
  {
    var after := replies + [reply];
    if Announced(replies, g) {
      var r :| 0 <= r < |replies| && g in replies[r].group;
      assert g in after[r].group;
    }
    if g in reply.group {
      assert g in after[|replies|].group;
    }
  }

  lemma GroupedAfter(reg: seq<Entry>, replies: seq<Reply>, done: seq<bool>, group: seq<nat>)
    requires Grouped(reg, replies) && Marked(reg, replies, done) && GroupFits(reg, group)
    requires forall g :: g in group ==> 0 <= g < |reg| && !done[g]
    ensures Grouped(reg, replies + [Reply(|replies| + 1, group)])
  {
    var head := group[0];
    assert head in group;
    forall r | 0 <= r < |replies| && Heading(reg, replies[r].group) == Heading(reg, group)
      ensures |replies[r].group| == PORTS
    {
      assert Sharing(reg, replies[r], head);
    }
    forall r, g | 0 <= r < |replies| && g in replies[r].group
      ensures g !in group
    {
      assert Announced(replies, g);
    }
  }

  lemma MarkedAfter(reg: seq<Entry>, replies: seq<Reply>, done: seq<bool>, reply: Reply, done': seq<bool>)
    requires Grouped(reg, replies) && Marked(reg, replies, done) && GroupFits(reg, reply.group)
    requires |done'| == |reg| && forall k :: 0 <= k < |reg| ==> done'[k] == (done[k] || k in reply.group)
    requires |reply.group| < PORTS ==> forall k :: Sharing(reg, reply, k) ==> done'[k]
    ensures Marked(reg, replies + [reply], done')
  {
    hide Announced, GroupFits, Disjoint, NoneWasted;
    var after := replies + [reply];
    forall k | 0 <= k < |reg|
      ensures done'[k] <==> Announced(after, k)
    {
      AnnouncedAfter(replies, reply, k);
    }
    forall r, k | 0 <= r < |after| && |after[r].group| < PORTS && Sharing(reg, after[r], k)
      ensures done'[k]
    {
      if r < |replies| {
        assert after[r] == replies[r];
      }
    }
  }

  /** The grouping loop of sendPollReply: every universe in use in exactly one
      reply, bind indexes from 1 on, at least one reply. */
  method SendPollReply(reg: seq<Entry>) returns (replies: seq<Reply>)
    ensures |replies| >= 1
    ensures (forall i :: 0 <= i < |reg| ==> !reg[i].inUse) ==> replies == [Reply(1, [])]
    ensures (exists i :: 0 <= i < |reg| && reg[i].inUse) ==>
              && Grouped(reg, replies)
              && (forall g :: 0 <= g < |reg| && reg[g].inUse ==> Announced(replies, g))
  {
    hide Announced, GroupFits, Disjoint, NoneWasted;
    replies := [];
    var done := new bool[|reg|](i => false);
    Unstarted(reg);
    assert done[..] == seq(|reg|, i => false);
    for i := 0 to |reg|
      invariant Grouped(reg, replies) && Marked(reg, replies, done[..])
      invariant forall k :: 0 <= k < i && reg[k].inUse ==> done[k]
      invariant replies == [] || exists k :: 0 <= k < |reg| && reg[k].inUse
      invariant forall k :: 0 <= k < i && !reg[k].inUse && replies == [] ==> !done[k]
    {
      if reg[i].inUse && !done[i] {
        ghost var was := done[..];
        var group := CollectGroup(reg, done, i);
        var reply := Reply(|replies| + 1, group);
        HeadOf(reg, reply, i);
        assert forall k :: Sharing(reg, reply, k) && k < i ==> done[k];
        GroupedAfter(reg, replies, was, group);
        MarkedAfter(reg, replies, was, reply, done[..]);
        replies := replies + [reply];
      }
    }
    if replies == [] {
      NothingAnnounced();
      replies := [Reply(1, [])];
    }
  }

  lemma HeadOf(reg: seq<Entry>, reply: Reply, i: nat)
    requires GroupFits(reg, reply.group) && reply.group[0] == i < |reg|
    ensures Heading(reg, reply.group) == Upper(reg[i])
  {
  }

  lemma NothingAnnounced()
    ensures forall g :: !Announced([], g)
  {
  }

  lemma Unstarted(reg: seq<Entry>)
    ensures Grouped(reg, []) && Marked(reg, [], seq(|reg|, i => false))
  {
  }

  // ----- the address fields -----

  function NetSwitch(universe: u16): nat {
    universe / 0x100 % 0x80
  }

  function SubSwitch(universe: u16): nat {
    universe / 0x10 % 0x10
  }

  function SwOut(universe: u16): nat {
    universe % 0x10
  }

  /** How a controller puts a port's universe together. */
  function Decoded(net: nat, sub: nat, sw: nat): nat {
    net * 0x100 + sub * 0x10 + sw % 0x10
  }

  /** A port announced in a group headed by another universe with the same upper
      bits decodes to its own universe, exactly when that is a 15-bit address. */
  lemma PortDecodes(head: u16, universe: u16)
    requires head / 16 == universe / 16
    ensures Decoded(NetSwitch(head), SubSwitch(head), SwOut(universe)) == universe <==> universe < 0x8000
  {
    assert head / 0x100 == head / 16 / 16 && universe / 0x100 == universe / 16 / 16;
  }
}
