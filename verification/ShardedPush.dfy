/** The worker front end that splits a push by room and hands each group to that room's own service
    (src/cloudflare_worker.ts), and the proof that this means the same as one push. */
module ShardedPush {
  import opened Arithmetic
  import opened Options
  import opened Sequences
  import opened Ordering
  import opened Json
  import opened JsonFields
  import opened Text
  import opened CacheExchange
  import opened RelayService

  const DEFAULT_ROOM := "main"

  /** The room an entry is routed by. */
  function EntryRoom(v: Value): Option<string> {
    if v.Obj? && "room" in v.fields && v.fields["room"].Str? && ValidRoom(Trim(v.fields["room"].s))
    then Some(Trim(v.fields["room"].s)) else None
  }

  predicate Routable(entries: seq<Value>) {
    forall i :: 0 <= i < |entries| ==> EntryRoom(entries[i]).Some?
  }

  function InRoom(entries: seq<Value>, room: string): seq<Value> {
    if entries == [] then []
    else
      var last := entries[|entries| - 1];
      InRoom(entries[..|entries| - 1], room) + if EntryRoom(last) == Some(room) then [last] else []
  }

  datatype Groups = Groups(rooms: seq<string>, entriesOf: map<string, seq<Value>>)

  /** Each room of the batch once, with its entries in batch order. */
  ghost predicate GroupsOf(g: Groups, entries: seq<Value>) {
    && Distinct(g.rooms)
    && (forall room :: room in g.rooms <==> room in g.entriesOf)
    && (forall room :: room in g.rooms ==> g.entriesOf[room] == InRoom(entries, room) != [])
    && (forall room :: room !in g.rooms ==> InRoom(entries, room) == [])
    && (forall i :: 0 <= i < |entries| ==> EntryRoom(entries[i]).Some? && EntryRoom(entries[i]).value in g.rooms)
  }

  lemma InRoomAppend(entries: seq<Value>, v: Value)
    ensures forall room ::
                  InRoom(entries + [v], room) == InRoom(entries, room) + if EntryRoom(v) == Some(room) then [v] else []
  {
    hide EntryRoom;
    assert (entries + [v])[..|entries|] == entries;
  }

  lemma NoGroups()
    ensures GroupsOf(Groups([], map[]), [])
  {}

  lemma GroupRooms(g: Groups, entries: seq<Value>)
    requires GroupsOf(g, entries)
    ensures Routable(entries) && (forall room :: room in g.rooms <==> room in g.entriesOf)
    ensures g.rooms == [] <==> entries == []
  {
    assert g.rooms != [] ==> g.rooms[0] in g.rooms;
    assert entries != [] ==> EntryRoom(entries[0]).value in g.rooms;
  }

  lemma GroupsGrow(g: Groups, entries: seq<Value>, v: Value, room: string)
    requires GroupsOf(g, entries) && EntryRoom(v) == Some(room)
    ensures room in g.rooms ==>
              GroupsOf(g.(entriesOf := g.entriesOf[room := g.entriesOf[room] + [v]]), entries + [v])
    ensures room !in g.rooms ==>
              GroupsOf(Groups(g.rooms + [room], g.entriesOf[room := [v]]), entries + [v])
  {
    hide EntryRoom, InRoom;
    InRoomAppend(entries, v);
  }

  method ParseCacheExchangeEntriesByRoom(entries: seq<Value>) returns (grouped: Option<Groups>)
    ensures grouped.None? <==> !Routable(entries)
    ensures grouped.Some? ==> GroupsOf(grouped.value, entries)
  {
    hide EntryRoom, GroupsOf;
    assert GroupsOf(Groups([], map[]), entries[..0]) by { NoGroups(); }
    var rooms: seq<string> := [];
    var entriesOf: map<string, seq<Value>> := map[];
    var i := 0;
    while i < |entries|
      invariant 0 <= i <= |entries|
      invariant GroupsOf(Groups(rooms, entriesOf), entries[..i])
    {
      var room := EntryRoom(entries[i]);
      if room.None? {
        return None;
      }
      GroupRooms(Groups(rooms, entriesOf), entries[..i]);
      assert entries[..i + 1] == entries[..i] + [entries[i]];
      GroupsGrow(Groups(rooms, entriesOf), entries[..i], entries[i], room.value);
      if room.value in rooms {
        entriesOf := entriesOf[room.value := entriesOf[room.value] + [entries[i]]];
      } else {
        entriesOf := entriesOf[room.value := [entries[i]]];
        rooms := rooms + [room.value];
      }
      i := i + 1;
    }
    assert entries[..i] == entries;
    GroupRooms(Groups(rooms, entriesOf), entries);
    grouped := Some(Groups(rooms, entriesOf));
  }

  // ------------------------------------------------------- what an entry depends on

  /** Whether an entry ends a push depends on the entry alone. */
  predicate Aborts(c: Config, denied: set<string>, raw: Value) {
    PushEntry(c, denied, EMPTY_NODE, raw).1.Aborted?
  }

  lemma AbortIsStateless(c: Config, denied: set<string>, n: Node, raw: Value)
    ensures PushEntry(c, denied, n, raw).1.Aborted? <==> Aborts(c, denied, raw)
  {
    hide ValidRoom, ValidTopic, ParseIncoming, Classify, Find, Accept;
  }

  lemma {:induction false} FailsIffAborts(c: Config, denied: set<string>, n: Node, raws: seq<Value>)
    ensures PushAll(c, denied, n, raws).failure.Some? <==> exists i :: 0 <= i < |raws| && Aborts(c, denied, raws[i])
  {
    hide Aborts, PushEntry;
    if raws != [] {
      var init := raws[..|raws| - 1];
      FailsIffAborts(c, denied, n, init);
      AbortIsStateless(c, denied, PushAll(c, denied, n, init).node, raws[|raws| - 1]);
      if PushAll(c, denied, n, init).failure.Some? {
        var i :| 0 <= i < |init| && Aborts(c, denied, init[i]);
        assert raws[i] == init[i];
      }
      assert forall i :: 0 <= i < |raws| - 1 ==> init[i] == raws[i];
    }
  }

  /** An entry that does not abort was routed by the room it is stored in. */
  lemma RoutedRoom(c: Config, raw: Value)
    requires EntryRoom(raw).Some? && ParseIncoming(raw, c.maxHops).Parsed?
    ensures ParseIncoming(raw, c.maxHops).entry.envelope.room == EntryRoom(raw).value
  {
    hide ValidRoom, Trim, AsNonNegativeInt;
  }

  /** An entry reads and writes only its own room. */
  lemma EntryIsLocal(c: Config, denied: set<string>, n: Node, m: Node, raw: Value, room: string)
    requires EntryRoom(raw).Some? && Messages(n, room) == Messages(m, room)
    ensures EntryRoom(raw) == Some(room) ==>
              && PushEntry(c, denied, n, raw).1 == PushEntry(c, denied, m, raw).1
              && Messages(PushEntry(c, denied, n, raw).0, room) == Messages(PushEntry(c, denied, m, raw).0, room)
    ensures EntryRoom(raw) != Some(room) ==> Messages(PushEntry(c, denied, n, raw).0, room) == Messages(n, room)
  {
    hide ValidRoom, ValidTopic, ParseIncoming, Classify, Find, Newest, EntryRoom;
    if ParseIncoming(raw, c.maxHops).Parsed? { RoutedRoom(c, raw); }
  }

  // --------------------------------------------------------------------- one room

  /** One service's copy of a room after the whole batch is what the room's own service makes of
      its group. */
  lemma {:induction false} RoomsAgree(c: Config, denied: set<string>, n: Node, m: Node, entries: seq<Value>,
                                      room: string)
    requires Routable(entries) && Messages(n, room) == Messages(m, room)
    requires forall i :: 0 <= i < |entries| ==> !Aborts(c, denied, entries[i])
    ensures Messages(PushAll(c, denied, n, entries).node, room)
         == Messages(PushAll(c, denied, m, InRoom(entries, room)).node, room)
  {
    hide Aborts, PushEntry, EntryRoom, Messages;
    if entries != [] {
      var init, last := entries[..|entries| - 1], entries[|entries| - 1];
      RoomsAgree(c, denied, n, m, init, room);
      NoFailure(c, denied, n, init);
      NoFailureInRoom(c, denied, m, init, room);
      var a, b := PushAll(c, denied, n, init), PushAll(c, denied, m, InRoom(init, room));
      EntryIsLocal(c, denied, a.node, b.node, last, room);
      AppendGroup(c, denied, m, entries, room);
    }
  }

  lemma NoFailure(c: Config, denied: set<string>, n: Node, raws: seq<Value>)
    requires forall i :: 0 <= i < |raws| ==> !Aborts(c, denied, raws[i])
    ensures PushAll(c, denied, n, raws).failure.None?
  {
    FailsIffAborts(c, denied, n, raws);
  }

  lemma {:induction false} InRoomMembers(entries: seq<Value>, room: string)
    ensures forall v :: v in InRoom(entries, room) <==> v in entries && EntryRoom(v) == Some(room)
  {
    hide EntryRoom;
    if entries != [] {
      var init, last := entries[..|entries| - 1], entries[|entries| - 1];
      InRoomMembers(init, room);
      assert forall v :: v in entries <==> v in init || v == last;
    }
  }

  lemma NoFailureInRoom(c: Config, denied: set<string>, n: Node, entries: seq<Value>, room: string)
    requires forall i :: 0 <= i < |entries| ==> !Aborts(c, denied, entries[i])
    ensures PushAll(c, denied, n, InRoom(entries, room)).failure.None?
  {
    hide Aborts, PushAll;
    InRoomMembers(entries, room);
    var group := InRoom(entries, room);
    forall i | 0 <= i < |group| ensures !Aborts(c, denied, group[i]) {
      assert group[i] in entries;
    }
    NoFailure(c, denied, n, group);
  }

  /** How a room's group grows by the batch's last entry. */
  lemma AppendGroup(c: Config, denied: set<string>, m: Node, entries: seq<Value>, room: string)
    requires entries != []
    requires PushAll(c, denied, m, InRoom(entries[..|entries| - 1], room)).failure.None?
    ensures var init, last := entries[..|entries| - 1], entries[|entries| - 1];
            var before := PushAll(c, denied, m, InRoom(init, room));
            var after := PushAll(c, denied, m, InRoom(entries, room));
            if EntryRoom(last) == Some(room) then
              var (next, o) := PushEntry(c, denied, before.node, last);
              after.node == next && after.tally == Count(before.tally, o)
            else after == before
  {
    hide EntryRoom, PushEntry;
    var init, last := entries[..|entries| - 1], entries[|entries| - 1];
    var group := InRoom(entries, room);
    if EntryRoom(last) == Some(room) {
      assert group[..|group| - 1] == InRoom(init, room) && group[|group| - 1] == last;
    } else {
      assert group == InRoom(init, room);
    }
  }

  // -------------------------------------------------------------------- all rooms

  function Shard(shards: map<string, Node>, room: string): Node {
    if room in shards then shards[room] else EMPTY_NODE
  }

  function AddTally(a: Tally, b: Tally): Tally {
    Tally(a.accepted + b.accepted, a.duplicates + b.duplicates, a.conflicts + b.conflicts,
          a.rejected + b.rejected,
          RejectionCounts(a.rejectionCounts.invalidRoom + b.rejectionCounts.invalidRoom,
                          a.rejectionCounts.invalidTopic + b.rejectionCounts.invalidTopic,
                          a.rejectionCounts.loopOrigin + b.rejectionCounts.loopOrigin,
                          a.rejectionCounts.maxHopsReached + b.rejectionCounts.maxHopsReached))
  }

  /** The sum of the rooms' tallies. */
  function SumTally(c: Config, denied: set<string>, shards: map<string, Node>, rooms: seq<string>,
                    entries: seq<Value>): Tally {
    if rooms == [] then ZERO
    else
      var room := rooms[|rooms| - 1];
      AddTally(SumTally(c, denied, shards, rooms[..|rooms| - 1], entries),
               PushAll(c, denied, Shard(shards, room), InRoom(entries, room)).tally)
  }

  lemma CountAdds(a: Tally, b: Tally, o: Outcome)
    ensures AddTally(Count(a, o), b) == Count(AddTally(a, b), o)
    ensures AddTally(a, Count(b, o)) == Count(AddTally(a, b), o)
  {}

  /** The last entry is counted once, by its own room. */
  lemma {:induction false} SumGrows(c: Config, denied: set<string>, n: Node, shards: map<string, Node>,
                                    rooms: seq<string>, entries: seq<Value>)
    requires entries != [] && Routable(entries) && Distinct(rooms)
    requires forall i :: 0 <= i < |entries| ==> !Aborts(c, denied, entries[i])
    requires forall room :: Messages(n, room) == Messages(Shard(shards, room), room)
    ensures var init, last := entries[..|entries| - 1], entries[|entries| - 1];
            var o := PushEntry(c, denied, PushAll(c, denied, n, init).node, last).1;
            var before := SumTally(c, denied, shards, rooms, init);
            SumTally(c, denied, shards, rooms, entries)
            == if EntryRoom(last).value in rooms then Count(before, o) else before
    decreases |rooms|
  {
    hide Aborts, PushEntry, EntryRoom, PushAll, Messages, Shard, Count, AddTally, InRoom;
    if rooms != [] {
      var init, last := entries[..|entries| - 1], entries[|entries| - 1];
      var front, room := rooms[..|rooms| - 1], rooms[|rooms| - 1];
      var m := Shard(shards, room);
      SumGrows(c, denied, n, shards, front, entries);
      NoFailureInRoom(c, denied, m, init, room);
      AppendGroup(c, denied, m, entries, room);
      var a, b := PushAll(c, denied, n, init), PushAll(c, denied, m, InRoom(init, room));
      RoomsAgree(c, denied, n, m, init, room);
      EntryIsLocal(c, denied, a.node, b.node, last, room);
      var o := PushEntry(c, denied, a.node, last).1;
      CountAdds(SumTally(c, denied, shards, front, init), b.tally, o);
      assert forall x :: x in rooms <==> x in front || x == room;
      assert room !in front;
    }
  }

  lemma InRoomNothing(room: string)
    ensures InRoom([], room) == []
  {}

  lemma AddZero(t: Tally)
    ensures AddTally(ZERO, t) == t
  {}

  lemma {:induction false} SumOfNothing(c: Config, denied: set<string>, shards: map<string, Node>, rooms: seq<string>)
    ensures SumTally(c, denied, shards, rooms, []) == ZERO
  {
    hide PushAll, AddTally, InRoom, Shard;
    if rooms != [] {
      SumOfNothing(c, denied, shards, rooms[..|rooms| - 1]);
      NothingPushed(c, denied, Shard(shards, rooms[|rooms| - 1]));
      InRoomNothing(rooms[|rooms| - 1]);
      AddZero(ZERO);
    }
  }

  lemma {:induction false} SumIsWhole(c: Config, denied: set<string>, n: Node, shards: map<string, Node>,
                                      rooms: seq<string>, entries: seq<Value>)
    requires Routable(entries) && Distinct(rooms)
    requires forall i :: 0 <= i < |entries| ==> !Aborts(c, denied, entries[i]) && EntryRoom(entries[i]).value in rooms
    requires forall room :: Messages(n, room) == Messages(Shard(shards, room), room)
    ensures SumTally(c, denied, shards, rooms, entries) == PushAll(c, denied, n, entries).tally
    decreases |entries|
  {
    hide Aborts, PushEntry, EntryRoom, Messages, Shard, SumTally;
    if entries == [] {
      SumOfNothing(c, denied, shards, rooms);
    } else {
      var init := entries[..|entries| - 1];
      SumIsWhole(c, denied, n, shards, rooms, init);
      NoFailure(c, denied, n, init);
      SumGrows(c, denied, n, shards, rooms, entries);
    }
  }

  // ---------------------------------------------------------------------- routing

  datatype Routed = Routed(shards: map<string, Node>, response: PushResponse)

  /** The groups of `rooms` are pushed in turn until one fails; answers are summed. */
  function PushGroups(c: Config, denied: set<string>, shards: map<string, Node>, rooms: seq<string>,
                      entries: seq<Value>): Routed {
    if rooms == [] then Routed(shards, Ok("", ZERO, 0))
    else
      var r := PushGroups(c, denied, shards, rooms[..|rooms| - 1], entries);
      if r.response.Failed? then r
      else
        var room := rooms[|rooms| - 1];
        var p := PushAll(c, denied, Shard(r.shards, room), InRoom(entries, room));
        var response := Respond(c, p);
        Routed(r.shards[room := p.node],
               if response.Failed? then response
               else Ok(response.nodeId, AddTally(r.response.tally, response.tally),
                       Max(r.response.nextCursor, response.nextCursor)))
  }

  lemma {:induction false} GroupsFailIffAborts(c: Config, denied: set<string>, shards: map<string, Node>,
                                               rooms: seq<string>, entries: seq<Value>)
    ensures PushGroups(c, denied, shards, rooms, entries).response.Failed?
            <==> exists v :: v in entries && Aborts(c, denied, v) && EntryRoom(v).Some? && EntryRoom(v).value in rooms
  {
    hide Aborts, EntryRoom, PushAll, InRoom;
    if rooms != [] {
      var front, room := rooms[..|rooms| - 1], rooms[|rooms| - 1];
      GroupsFailIffAborts(c, denied, shards, front, entries);
      assert forall x :: x in rooms <==> x in front || x == room;
      var r := PushGroups(c, denied, shards, front, entries);
      GroupFails(c, denied, Shard(r.shards, room), entries, room);
    }
  }

  lemma GroupFails(c: Config, denied: set<string>, n: Node, entries: seq<Value>, room: string)
    ensures PushAll(c, denied, n, InRoom(entries, room)).failure.Some?
            <==> exists v :: v in entries && Aborts(c, denied, v) && EntryRoom(v) == Some(room)
  {
    hide Aborts, EntryRoom, PushAll;
    var group := InRoom(entries, room);
    InRoomMembers(entries, room);
    FailsIffAborts(c, denied, n, group);
    if PushAll(c, denied, n, group).failure.Some? {
      var i :| 0 <= i < |group| && Aborts(c, denied, group[i]);
      assert group[i] in entries && EntryRoom(group[i]) == Some(room);
    }
  }

  /** While no group fails, each listed shard has taken its own group and nothing else. */
  lemma {:induction false} GroupsTaken(c: Config, denied: set<string>, shards: map<string, Node>,
                                       rooms: seq<string>, entries: seq<Value>)
    requires Distinct(rooms) && PushGroups(c, denied, shards, rooms, entries).response.Ok?
    ensures var r := PushGroups(c, denied, shards, rooms, entries);
            && r.response.tally == SumTally(c, denied, shards, rooms, entries)
            && forall room :: Shard(r.shards, room) ==
                 if room in rooms then PushAll(c, denied, Shard(shards, room), InRoom(entries, room)).node
                 else Shard(shards, room)
  {
    hide PushAll, InRoom, AddTally;
    if rooms != [] {
      var front, room := rooms[..|rooms| - 1], rooms[|rooms| - 1];
      GroupsTaken(c, denied, shards, front, entries);
      assert forall x :: x in rooms <==> x in front || x == room;
      assert room !in front;
    }
  }

  /** Sharding preserves meaning: for every batch whose entries name valid rooms, the sharded push
      and one service's push succeed together, and then count the same and leave every room with
      the same messages. */
  lemma ShardingPreservesMeaning(c: Config, denied: set<string>, n: Node, shards: map<string, Node>, g: Groups,
                                 entries: seq<Value>)
    requires GroupsOf(g, entries)
    requires forall room :: Messages(n, room) == Messages(Shard(shards, room), room)
    ensures var whole, routed := PushAll(c, denied, n, entries), PushGroups(c, denied, shards, g.rooms, entries);
            && (routed.response.Ok? <==> whole.failure.None?)
            && (routed.response.Ok? ==>
                  && routed.response.tally == whole.tally
                  && forall room :: Messages(whole.node, room) == Messages(Shard(routed.shards, room), room))
  {
    hide Aborts, EntryRoom, PushAll, PushGroups, SumTally, Messages, Shard, InRoom;
    FailsIffAborts(c, denied, n, entries);
    GroupsFailIffAborts(c, denied, shards, g.rooms, entries);
    var routed := PushGroups(c, denied, shards, g.rooms, entries);
    assert forall v :: v in entries ==> EntryRoom(v).Some? && EntryRoom(v).value in g.rooms;
    if routed.response.Ok? {
      assert forall i :: 0 <= i < |entries| ==> entries[i] in entries;
      SumIsWhole(c, denied, n, shards, g.rooms, entries);
      GroupsTaken(c, denied, shards, g.rooms, entries);
      forall room
        ensures Messages(PushAll(c, denied, n, entries).node, room) == Messages(Shard(routed.shards, room), room) {
        RoomsAgree(c, denied, n, Shard(shards, room), entries, room);
        NothingPushed(c, denied, Shard(shards, room));
      }
    } else {
      var v :| v in entries && Aborts(c, denied, v);
      var i :| 0 <= i < |entries| && entries[i] == v;
    }
  }

  /** The room an entry is routed by is the one it names, if that is valid. */
  lemma EntryRoomIs(v: Value, room: string)
    ensures EntryRoom(v) == Some(room) <==> Gives(v, "room", room) && ValidRoom(room)
  {
    hide Trim;
  }

  /** The answer of a sharded push that goes through: the relay's name, and the cursor of the shard that is
      furthest on. */
  lemma {:induction false} GroupsAnswer(c: Config, denied: set<string>, shards: map<string, Node>, rooms: seq<string>,
                                        entries: seq<Value>)
    requires Distinct(rooms) && PushGroups(c, denied, shards, rooms, entries).response.Ok? && rooms != []
    ensures var r := PushGroups(c, denied, shards, rooms, entries);
      && r.response.nodeId == c.nodeId
      && (forall room :: room in rooms ==> Shard(r.shards, room).cursor <= r.response.nextCursor)
      && (exists room :: room in rooms && Shard(r.shards, room).cursor == r.response.nextCursor)
  {
    hide PushAll, InRoom, AddTally;
    var front, room := rooms[..|rooms| - 1], rooms[|rooms| - 1];
    assert forall x :: x in rooms <==> x in front || x == room;
    if front == [] {
      assert PushGroups(c, denied, shards, front, entries).response.nextCursor == 0;
    } else {
      GroupsAnswer(c, denied, shards, front, entries);
    }
    assert room !in front;
  }

  /** A sharded push stops at the first group that fails and answers with its failure: the groups before it have been
      taken, the rooms after it are as they were. */
  lemma {:induction false} FailsAtOneGroup(c: Config, denied: set<string>, shards: map<string, Node>,
                                           rooms: seq<string>, entries: seq<Value>)
    requires Distinct(rooms) && PushGroups(c, denied, shards, rooms, entries).response.Failed?
    ensures exists k: nat :: StopsAt(c, denied, shards, rooms, entries, k)
  {
    hide PushAll, InRoom, AddTally;
    var front, room := rooms[..|rooms| - 1], rooms[|rooms| - 1];
    assert rooms != [] ==> forall x :: x in rooms <==> x in front || x == room;
    if PushGroups(c, denied, shards, front, entries).response.Failed? {
      FailsAtOneGroup(c, denied, shards, front, entries);
      var k: nat :| StopsAt(c, denied, shards, front, entries, k);
      assert rooms[..k] == front[..k];
      assert StopsAt(c, denied, shards, rooms, entries, k);
    } else {
      GroupsTaken(c, denied, shards, front, entries);
      var r := PushGroups(c, denied, shards, front, entries);
      assert room !in front;
      assert Shard(r.shards, room) == Shard(shards, room);
      assert StopsAt(c, denied, shards, rooms, entries, |rooms| - 1);
    }
  }

  ghost predicate StopsAt(c: Config, denied: set<string>, shards: map<string, Node>, rooms: seq<string>,
                          entries: seq<Value>, k: nat) {
    var r := PushGroups(c, denied, shards, rooms, entries);
    && k < |rooms|
    && PushGroups(c, denied, shards, rooms[..k], entries).response.Ok?
    && PushAll(c, denied, Shard(shards, rooms[k]), InRoom(entries, rooms[k])).failure
       == (if r.response.Failed? then Some(r.response.failure) else None)
    && (forall room :: room !in rooms[..k + 1] ==> Shard(r.shards, room) == Shard(shards, room))
  }

  lemma NothingPushed(c: Config, denied: set<string>, n: Node)
    ensures PushAll(c, denied, n, []) == PushState(n, ZERO, None)
  {}

  class Router {
    const config: Config
    var shards: map<string, Node>

    constructor (config: Config)
      ensures this.config == config && shards == map[]
    {
      this.config := config;
      shards := map[];
    }

    /** The request another durable object answers. */
    method Forward(denied: set<string>, room: string, entries: seq<Value>) returns (response: PushResponse)
      modifies this
      ensures var p := PushAll(config, denied, Shard(old(shards), room), entries);
              shards == old(shards)[room := p.node] && response == Respond(config, p)
    {
      var p := PushAll(config, denied, Shard(shards, room), entries);
      shards := shards[room := p.node];
      response := Respond(config, p);
    }

    /** A batch with an unroutable entry, or none at all, goes to the default room's service. */
    method RouteCacheExchangePushByEntryRoom(denied: set<string>, entries: seq<Value>) returns (response: PushResponse)
      modifies this
      ensures !Routable(entries) || entries == [] ==>
                var p := PushAll(config, denied, Shard(old(shards), DEFAULT_ROOM), entries);
                shards == old(shards)[DEFAULT_ROOM := p.node] && response == Respond(config, p)
      ensures Routable(entries) && entries != [] ==>
                exists g :: GroupsOf(g, entries)
                  && Routed(shards, response) == PushGroups(config, denied, old(shards), g.rooms, entries)
    {
      hide PushAll, InRoom, GroupsOf, Routable;
      var grouped := ParseCacheExchangeEntriesByRoom(entries);
      if grouped.Some? { GroupRooms(grouped.value, entries); }
      if grouped.None? || |grouped.value.rooms| == 0 {
        response := Forward(denied, DEFAULT_ROOM, entries);
        return;
      }
      var g := grouped.value;
      if |g.rooms| == 1 {
        SingleRouted(config, denied, shards, g, entries);
        response := Forward(denied, g.rooms[0], entries);
      } else {
        response := ForwardGroups(denied, g, entries);
      }
    }

    /** The loop over the groups, summing their answers. */
    method ForwardGroups(denied: set<string>, g: Groups, entries: seq<Value>) returns (response: PushResponse)
      requires GroupsOf(g, entries)
      modifies this
      ensures Routed(shards, response) == PushGroups(config, denied, old(shards), g.rooms, entries)
    {
      hide PushAll, InRoom;
      var total, nodeId := ZERO, "";
      var nextCursor: nat := 0;
      var i := 0;
      assert g.rooms[..0] == [];
      while i < |g.rooms|
        invariant 0 <= i <= |g.rooms|
        invariant Routed(shards, Ok(nodeId, total, nextCursor))
               == PushGroups(config, denied, old(shards), g.rooms[..i], entries)
      {
        var room := g.rooms[i];
        assert g.rooms[..i + 1][..i] == g.rooms[..i];
        var answer := Forward(denied, room, g.entriesOf[room]);
        i := i + 1;
        if answer.Failed? {
          GroupsStop(config, denied, old(shards), g.rooms, entries, i);
          return answer;
        }
        nodeId := answer.nodeId;
        nextCursor := Max(nextCursor, answer.nextCursor);
        total := AddTally(total, answer.tally);
      }
      assert g.rooms[..i] == g.rooms;
      response := Ok(nodeId, total, nextCursor);
    }
  }

  lemma {:induction false} GroupsStop(c: Config, denied: set<string>, shards: map<string, Node>,
                                      rooms: seq<string>, entries: seq<Value>, k: nat)
    requires k <= |rooms| && PushGroups(c, denied, shards, rooms[..k], entries).response.Failed?
    ensures PushGroups(c, denied, shards, rooms, entries) == PushGroups(c, denied, shards, rooms[..k], entries)
    decreases |rooms|
  {
    if k == |rooms| {
      assert rooms[..k] == rooms;
    } else {
      assert rooms[..|rooms| - 1][..k] == rooms[..k];
      GroupsStop(c, denied, shards, rooms[..|rooms| - 1], entries, k);
    }
  }

  /** A batch for one room is its own group. */
  lemma SingleGroup(g: Groups, entries: seq<Value>)
    requires GroupsOf(g, entries) && |g.rooms| == 1
    ensures InRoom(entries, g.rooms[0]) == entries
  {
    hide InRoom, EntryRoom;
    forall i | 0 <= i < |entries| ensures EntryRoom(entries[i]) == Some(g.rooms[0]) {
      assert EntryRoom(entries[i]).value in g.rooms;
    }
    AllInRoom(entries, g.rooms[0]);
  }

  lemma {:induction false} AllInRoom(entries: seq<Value>, room: string)
    requires forall i :: 0 <= i < |entries| ==> EntryRoom(entries[i]) == Some(room)
    ensures InRoom(entries, room) == entries
  {
    if entries != [] {
      AllInRoom(entries[..|entries| - 1], room);
      assert entries == entries[..|entries| - 1] + [entries[|entries| - 1]];
    }
  }

  lemma SingleRouted(c: Config, denied: set<string>, shards: map<string, Node>, g: Groups, entries: seq<Value>)
    requires GroupsOf(g, entries) && |g.rooms| == 1
    ensures var p := PushAll(c, denied, Shard(shards, g.rooms[0]), entries);
            PushGroups(c, denied, shards, g.rooms, entries) == Routed(shards[g.rooms[0] := p.node], Respond(c, p))
  {
    hide PushAll;
    SingleGroup(g, entries);
    assert g.rooms[..0] == [];
    assert PushGroups(c, denied, shards, [], entries) == Routed(shards, Ok("", ZERO, 0));
    var p := PushAll(c, denied, Shard(shards, g.rooms[0]), entries);
    AddZero(p.tally);
  }
}
