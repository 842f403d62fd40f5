/** The issue index kept over the cache store (src/relay_cache_adapter.ts): an event log, one snapshot
    per issue and a room cursor, written by a task that may fail at any of its writes and is tried
    again (src/cache_persistence_queue.ts). */
module IssueIndex {
  import opened Arithmetic
  import opened Options
  import opened Text
  import opened CacheExchange
  import opened IssueProjection

  // -------------------------------------------------------------------- data

  datatype Event = Event(
    room: string, cursor: nat, issueId: string, action: string, envelope: Envelope, time: Option<nat>, updatedAt: nat)

  datatype Snapshot = Snapshot(
    room: string, issueId: string, lastCursor: nat, envelope: Envelope, time: Option<nat>, updatedAt: nat)

  datatype Item =
    | PlainItem(envelope: Envelope)
    | EventItem(event: Event)
    | SnapshotItem(snapshot: Snapshot)
    | CursorItem(room: string, cursor: nat, updatedAt: nat)

  /** The store's objects of kind "issue" and of kind "object", and the cursors held in memory. */
  datatype Index = Index(issues: map<string, Envelope>, objects: map<string, Item>, cursors: map<string, nat>)

  datatype Policy = LastWrite | Prefer(source: Source)

  /** `dateMs` is `Date.parse`. */
  datatype Settings = Settings(policy: Policy, dateMs: string -> Option<int>)

  // ------------------------------------------------------------------ policy

  predicate OlderByTimestamp(incoming: Option<nat>, existing: Option<nat>) {
    incoming.Some? && existing.Some? && incoming.value < existing.value
  }

  predicate ShouldUpdate(p: Policy, incomingSource: Source, existingSource: Source, incoming: Option<nat>,
                         existing: Option<nat>) {
    if OlderByTimestamp(incoming, existing) then false
    else if p.LastWrite? then true
    else if existingSource == p.source && incomingSource != p.source then false
    else true
  }

  /** Whether an envelope with the given source time replaces the snapshot. */
  predicate Accepts(p: Policy, existing: Option<Snapshot>, e: Envelope, time: Option<nat>) {
    existing.None?
    || ShouldUpdate(p, SourceOf(e.payload), SourceOf(existing.value.envelope.payload), time, existing.value.time)
  }

  function SnapshotOf(e: Event): Snapshot {
    Snapshot(e.room, e.issueId, e.cursor, e.envelope, e.time, e.updatedAt)
  }

  // --------------------------------------------------------------- the fold

  function Step(p: Policy, existing: Option<Snapshot>, e: Event): Option<Snapshot> {
    if Accepts(p, existing, e.envelope, e.time) then Some(SnapshotOf(e)) else existing
  }

  ghost predicate IsLast(e: Event, events: set<Event>) {
    e in events && forall f :: f in events && f != e ==> f.cursor < e.cursor
  }

  ghost predicate OneEventPerCursor(events: set<Event>) {
    forall e, f :: e in events && f in events && e.cursor == f.cursor ==> e == f
  }

  lemma {:induction false} LastExists(events: set<Event>)
    requires events != {} && OneEventPerCursor(events)
    ensures exists last :: IsLast(last, events)
    decreases events
  {
    var e :| e in events;
    if events == {e} {
      assert IsLast(e, events);
    } else {
      LastExists(events - {e});
      var other :| IsLast(other, events - {e});
      assert IsLast(if other.cursor < e.cursor then e else other, events);
    }
  }

  /** The left fold of the policy over the events, in cursor order. */
  ghost function Fold(p: Policy, events: set<Event>): Option<Snapshot>
    requires OneEventPerCursor(events)
    decreases events
  {
    if events == {} then None
    else
      LastExists(events);
      var last :| IsLast(last, events);
      Step(p, Fold(p, events - {last}), last)
  }

  lemma FoldAppend(p: Policy, events: set<Event>, e: Event)
    requires OneEventPerCursor(events) && forall f :: f in events ==> f.cursor < e.cursor
    ensures OneEventPerCursor(events + {e})
    ensures Fold(p, events + {e}) == Step(p, Fold(p, events), e)
  {
    var all := events + {e};
    assert IsLast(e, all);
    assert forall f :: IsLast(f, all) ==> f == e;
    assert all - {e} == events;
  }

  // --------------------------------------------------------------- one attempt

  /** Where an attempt fails; a failing write may have taken effect or not. */
  datatype Fault =
    | NoFault
    | AtPlain(written: bool)
    | AtEvent(written: bool)
    | AtSnapshot(written: bool)
    | AtCursor(written: bool)

  datatype Try = Try(now: nat, fault: Fault)

  datatype Outcome = Outcome(index: Index, ok: bool)

  function PersistedCursor(x: Index, room: string): nat {
    var k := CursorKey(room);
    if k in x.objects && x.objects[k].CursorItem? && x.objects[k].room == room then x.objects[k].cursor else 0
  }

  function CurrentCursor(x: Index, room: string): nat {
    Max(if room in x.cursors then x.cursors[room] else 0, PersistedCursor(x, room))
  }

  function NextCursor(x: Index, room: string, hint: Option<int>): nat {
    Max(CurrentCursor(x, room), if hint.Some? && hint.value > 0 then hint.value - 1 else 0) + 1
  }

  function SnapshotAt(x: Index, room: string, issueId: string): Option<Snapshot> {
    var k := SnapshotKey(room, issueId);
    if k in x.objects && x.objects[k].SnapshotItem? then Some(x.objects[k].snapshot) else None
  }

  function PutPlain(x: Index, e: Envelope): Index {
    if IssueTopic(e.topic) then x.(issues := x.issues[PlainKey(e.room, e.id) := e])
    else x.(objects := x.objects[PlainKey(e.room, e.id) := PlainItem(e)])
  }

  function SetCursor(x: Index, room: string, cursor: nat): Index {
    x.(cursors := x.cursors[room := cursor])
  }

  function PutEvent(x: Index, e: Event): Index {
    x.(objects := x.objects[EventKey(e.room, e.cursor, e.envelope.id) := EventItem(e)])
  }

  function PutSnapshot(x: Index, s: Snapshot): Index {
    x.(objects := x.objects[SnapshotKey(s.room, s.issueId) := SnapshotItem(s)])
  }

  function PutCursor(x: Index, room: string, cursor: nat, now: nat): Index {
    x.(objects := x.objects[CursorKey(room) := CursorItem(room, cursor, now)])
  }

  function NewEvent(x: Index, s: Settings, e: Envelope, hint: Option<int>, now: nat): Event
    requires WellFormed(e)
  {
    Event(e.room, NextCursor(x, e.room, hint), IssueId(e), Action(e), e, SourceTime(e.payload, s.dateMs), now)
  }

  /** Logs the event, shows it in the snapshot if the policy says so, and records the cursor. */
  function Project(x: Index, s: Settings, e: Envelope, hint: Option<int>, t: Try): Outcome
    requires WellFormed(e)
  {
    var event := NewEvent(x, s, e, hint, t.now);
    var counted := SetCursor(x, e.room, event.cursor);
    var logged := PutEvent(counted, event);
    if t.fault.AtEvent? then Outcome(if t.fault.written then logged else counted, false)
    else
      var accepted := Accepts(s.policy, SnapshotAt(logged, e.room, event.issueId), e, event.time);
      var shown := if accepted then PutSnapshot(logged, SnapshotOf(event)) else logged;
      if accepted && t.fault.AtSnapshot? then Outcome(if t.fault.written then shown else logged, false)
      else
        var recorded := PutCursor(shown, e.room, event.cursor, t.now);
        if t.fault.AtCursor? then Outcome(if t.fault.written then recorded else shown, false)
        else Outcome(recorded, true)
  }

  function Attempt(x: Index, s: Settings, e: Envelope, hint: Option<int>, t: Try): Outcome
    requires WellFormed(e)
  {
    if t.fault.AtPlain? then Outcome(if t.fault.written then PutPlain(x, e) else x, false)
    else if !IssueTopic(e.topic) then Outcome(PutPlain(x, e), true)
    else Project(PutPlain(x, e), s, e, hint, t)
  }

  // --------------------------------------------------------------- invariants

  /** The stored events of an issue. */
  ghost function Logged(x: Index, room: string, issueId: string): set<Event> {
    set k | k in x.objects && x.objects[k].EventItem? && x.objects[k].event.room == room
            && x.objects[k].event.issueId == issueId :: x.objects[k].event
  }

  /** Index items are stored under their own keys, below the room's cursor. */
  predicate Placed(x: Index, k: string, item: Item) {
    match item
    case PlainItem(_) => true
    case EventItem(e) =>
      && ValidRoom(e.room) && Name(e.envelope.id) && 0 < e.cursor <= CurrentCursor(x, e.room)
      && k == EventKey(e.room, e.cursor, e.envelope.id)
    case SnapshotItem(s) =>
      && ValidRoom(s.room) && Name(s.issueId) && s.lastCursor <= CurrentCursor(x, s.room)
      && k == SnapshotKey(s.room, s.issueId)
    case CursorItem(room, cursor, _) => ValidRoom(room) && 0 < cursor && k == CursorKey(room)
  }

  /** No two events of a room have the same cursor. */
  ghost predicate CursorsUnique(x: Index) {
    forall k, l :: HoldsEvent(x, k) && HoldsEvent(x, l) && SameCursor(x.objects[k].event, x.objects[l].event) ==> k == l
  }

  predicate HoldsEvent(x: Index, k: string) { k in x.objects && x.objects[k].EventItem? }

  predicate SameCursor(e: Event, f: Event) { e.room == f.room && e.cursor == f.cursor }

  /** The event comes after every stored event of its room. */
  ghost predicate Latest(x: Index, e: Event) {
    forall k :: HoldsEvent(x, k) && x.objects[k].event.room == e.room ==> x.objects[k].event.cursor < e.cursor
  }

  ghost predicate IndexOk(x: Index) {
    (forall k :: k in x.objects ==> Placed(x, k, x.objects[k])) && CursorsUnique(x)
  }

  lemma LoggedUnique(x: Index, room: string, issueId: string)
    requires IndexOk(x)
    ensures OneEventPerCursor(Logged(x, room, issueId))
    ensures forall e :: e in Logged(x, room, issueId) ==> e.cursor <= CurrentCursor(x, room)
  {
    hide CurrentCursor, EventKey;
  }

  /** The snapshot of an issue is the fold of its log. */
  ghost predicate AgreesAt(x: Index, p: Policy, room: string, issueId: string)
    requires IndexOk(x)
  {
    LoggedUnique(x, room, issueId);
    SnapshotAt(x, room, issueId) == Fold(p, Logged(x, room, issueId))
  }

  ghost predicate Agrees(x: Index, p: Policy)
    requires IndexOk(x)
  {
    forall room, issueId :: ValidRoom(room) ==> AgreesAt(x, p, room, issueId)
  }

  /** Nothing the snapshots and logs are read from differs. */
  ghost predicate SameIndex(x: Index, y: Index) {
    && (forall room, issueId :: ValidRoom(room) ==> Logged(x, room, issueId) == Logged(y, room, issueId))
    && (forall room, issueId :: ValidRoom(room) ==> SnapshotAt(x, room, issueId) == SnapshotAt(y, room, issueId))
  }

  // ------------------------------------------------------------- single writes

  /** The envelope's own key holds part of the index. */
  predicate Shadows(x: Index, e: Envelope) {
    var k := PlainKey(e.room, e.id);
    !IssueTopic(e.topic) && k in x.objects && !x.objects[k].PlainItem?
  }

  function Write(x: Index, k: string, item: Item): Index { x.(objects := x.objects[k := item]) }

  /** What a write replaces: an envelope, or an item of the same kind other than an event. */
  predicate Replaceable(x: Index, k: string, item: Item) {
    k in x.objects ==>
      || x.objects[k].PlainItem?
      || (x.objects[k].SnapshotItem? && item.SnapshotItem?)
      || (x.objects[k].CursorItem? && item.CursorItem?)
  }

  function EventsIn(item: Item, room: string, issueId: string): set<Event> {
    if item.EventItem? && item.event.room == room && item.event.issueId == issueId then {item.event} else {}
  }

  lemma WriteLogged(x: Index, k: string, item: Item, room: string, issueId: string)
    requires Replaceable(x, k, item)
    ensures Logged(Write(x, k, item), room, issueId) == Logged(x, room, issueId) + EventsIn(item, room, issueId)
  {
    var y := Write(x, k, item);
    forall e | e in Logged(x, room, issueId) ensures e in Logged(y, room, issueId) {
      var l :| l in x.objects && x.objects[l].EventItem? && x.objects[l].event == e;
      assert y.objects[l] == x.objects[l];
    }
    forall e | e in Logged(y, room, issueId) ensures e in Logged(x, room, issueId) + EventsIn(item, room, issueId) {
      var l :| l in y.objects && y.objects[l].EventItem? && y.objects[l].event == e;
      assert l != k ==> y.objects[l] == x.objects[l];
    }
    assert y.objects[k] == item;
  }

  /** A write that replaces nothing of another kind moves no cursor but its own. */
  lemma WriteCursor(x: Index, k: string, item: Item, room: string)
    requires Replaceable(x, k, item) && (item.CursorItem? ==> k == CursorKey(item.room) && item.room != room)
    ensures CurrentCursor(Write(x, k, item), room) == CurrentCursor(x, room)
  {
    if item.CursorItem? && k == CursorKey(room) { CursorKeyInjective(item.room, room); }
  }

  lemma WriteSnapshot(x: Index, k: string, item: Item, room: string, issueId: string)
    requires Replaceable(x, k, item) && ValidRoom(room)
    requires item.SnapshotItem? ==>
               ValidRoom(item.snapshot.room) && k == SnapshotKey(item.snapshot.room, item.snapshot.issueId)
    ensures SnapshotAt(Write(x, k, item), room, issueId)
         == if item.SnapshotItem? && item.snapshot.room == room && item.snapshot.issueId == issueId
            then Some(item.snapshot)
            else SnapshotAt(x, room, issueId)
  {
    if item.SnapshotItem? && k == SnapshotKey(room, issueId) {
      SnapshotKeyInjective(item.snapshot.room, item.snapshot.issueId, room, issueId);
    }
  }

  /** A write keeps the index well formed if the new item is in its place and no cursor goes back. */
  lemma WriteOk(x: Index, k: string, item: Item)
    requires IndexOk(x) && Placed(Write(x, k, item), k, item)
    requires forall room :: CurrentCursor(Write(x, k, item), room) >= CurrentCursor(x, room)
    requires item.EventItem? ==> Latest(x, item.event)
    ensures IndexOk(Write(x, k, item))
  {
    hide CurrentCursor, EventKey, SnapshotKey, CursorKey, ValidRoom;
    var y := Write(x, k, item);
    forall l | l in y.objects ensures Placed(y, l, y.objects[l]) {
      if l != k { assert y.objects[l] == x.objects[l] && Placed(x, l, x.objects[l]); }
    }
  }

  lemma PutPlainKeeps(x: Index, e: Envelope)
    requires IndexOk(x) && !Shadows(x, e)
    ensures IndexOk(PutPlain(x, e)) && SameIndex(x, PutPlain(x, e)) && !Shadows(PutPlain(x, e), e)
    ensures forall room :: CurrentCursor(PutPlain(x, e), room) == CurrentCursor(x, room)
  {
    var y := PutPlain(x, e);
    if IssueTopic(e.topic) {
      assert y.objects == x.objects && y.cursors == x.cursors;
      SameObjects(x, y);
    } else {
      hide CurrentCursor, Logged, SnapshotAt, Placed;
      var k, item := PlainKey(e.room, e.id), PlainItem(e);
      assert y == Write(x, k, item);
      forall room ensures CurrentCursor(y, room) == CurrentCursor(x, room) { WriteCursor(x, k, item, room); }
      PlainPlaced(y, k, e);
      WriteOk(x, k, item);
      forall room, issueId | ValidRoom(room)
        ensures Logged(y, room, issueId) == Logged(x, room, issueId)
        ensures SnapshotAt(y, room, issueId) == SnapshotAt(x, room, issueId) {
        WriteLogged(x, k, item, room, issueId);
        WriteSnapshot(x, k, item, room, issueId);
      }
    }
  }

  lemma NeverShadows(x: Index, e: Envelope)
    requires IssueTopic(e.topic)
    ensures !Shadows(x, e)
  {}

  lemma PlainPlaced(x: Index, k: string, e: Envelope)
    ensures Placed(x, k, PlainItem(e))
  {}

  /** Only the objects and the cursors held in memory matter. */
  lemma SameObjects(x: Index, y: Index)
    requires IndexOk(x) && x.objects == y.objects && forall room :: CurrentCursor(y, room) >= CurrentCursor(x, room)
    ensures IndexOk(y) && SameIndex(x, y)
  {
    hide CurrentCursor, EventKey, SnapshotKey, CursorKey, ValidRoom;
    forall k | k in y.objects ensures Placed(y, k, y.objects[k]) { assert Placed(x, k, x.objects[k]); }
  }

  lemma SetCursorKeeps(x: Index, room: string, cursor: nat)
    requires IndexOk(x) && cursor >= CurrentCursor(x, room)
    ensures var y := SetCursor(x, room, cursor);
            IndexOk(y) && SameIndex(x, y) && CurrentCursor(y, room) == cursor
  {
    SameObjects(x, SetCursor(x, room, cursor));
  }

  lemma PutEventAdds(x: Index, e: Event)
    requires IndexOk(x) && ValidRoom(e.room) && Name(e.envelope.id) && 0 < e.cursor <= CurrentCursor(x, e.room)
    requires Latest(x, e)
    ensures var y := PutEvent(x, e);
      && IndexOk(y) && (forall room :: CurrentCursor(y, room) == CurrentCursor(x, room))
      && (forall room, issueId :: ValidRoom(room) ==>
           && Logged(y, room, issueId) == Logged(x, room, issueId) + EventsIn(EventItem(e), room, issueId)
           && SnapshotAt(y, room, issueId) == SnapshotAt(x, room, issueId))
  {
    hide CurrentCursor, Logged, SnapshotAt, EventKey, SnapshotKey, CursorKey, ValidRoom;
    var k, item := EventKey(e.room, e.cursor, e.envelope.id), EventItem(e);
    var y := PutEvent(x, e);
    assert y == Write(x, k, item);
    EventSlot(x, e);
    forall room ensures CurrentCursor(y, room) == CurrentCursor(x, room) { WriteCursor(x, k, item, room); }
    WriteOk(x, k, item);
    forall room, issueId | ValidRoom(room)
      ensures Logged(y, room, issueId) == Logged(x, room, issueId) + EventsIn(item, room, issueId)
      ensures SnapshotAt(y, room, issueId) == SnapshotAt(x, room, issueId) {
      WriteLogged(x, k, item, room, issueId);
      WriteSnapshot(x, k, item, room, issueId);
    }
  }

  lemma EventSlot(x: Index, e: Event)
    requires IndexOk(x) && ValidRoom(e.room) && 0 < e.cursor
    requires Latest(x, e)
    ensures Replaceable(x, EventKey(e.room, e.cursor, e.envelope.id), EventItem(e))
  {
    hide CurrentCursor, EventKey, SnapshotKey, CursorKey, ValidRoom;
    var k := EventKey(e.room, e.cursor, e.envelope.id);
    if k in x.objects {
      assert Placed(x, k, x.objects[k]);
      match x.objects[k]
      case PlainItem(_) =>
      case EventItem(f) => EventKeyInjective(e.room, e.cursor, e.envelope.id, f.room, f.cursor, f.envelope.id);
      case SnapshotItem(s) => KindsOfKeyDiffer(e.room, e.cursor, e.envelope.id, s.room, s.issueId, "");
      case CursorItem(room, _, _) => KindsOfKeyDiffer(e.room, e.cursor, e.envelope.id, "", "", room);
    }
  }

  lemma PutSnapshotShows(x: Index, s: Snapshot)
    requires IndexOk(x) && ValidRoom(s.room) && Name(s.issueId) && s.lastCursor <= CurrentCursor(x, s.room)
    ensures var y := PutSnapshot(x, s);
      && IndexOk(y) && (forall room :: CurrentCursor(y, room) == CurrentCursor(x, room))
      && (forall room, issueId :: ValidRoom(room) ==>
           && Logged(y, room, issueId) == Logged(x, room, issueId)
           && SnapshotAt(y, room, issueId)
              == if s.room == room && s.issueId == issueId then Some(s) else SnapshotAt(x, room, issueId))
  {
    hide CurrentCursor, Logged, SnapshotAt, EventKey, SnapshotKey, CursorKey, ValidRoom;
    var k, item := SnapshotKey(s.room, s.issueId), SnapshotItem(s);
    var y := PutSnapshot(x, s);
    assert y == Write(x, k, item);
    SnapshotSlot(x, s);
    forall room ensures CurrentCursor(y, room) == CurrentCursor(x, room) { WriteCursor(x, k, item, room); }
    WriteOk(x, k, item);
    forall room, issueId | ValidRoom(room)
      ensures Logged(y, room, issueId) == Logged(x, room, issueId)
      ensures SnapshotAt(y, room, issueId)
           == if s.room == room && s.issueId == issueId then Some(s) else SnapshotAt(x, room, issueId) {
      WriteLogged(x, k, item, room, issueId);
      WriteSnapshot(x, k, item, room, issueId);
    }
  }

  lemma SnapshotSlot(x: Index, s: Snapshot)
    requires IndexOk(x)
    ensures Replaceable(x, SnapshotKey(s.room, s.issueId), SnapshotItem(s))
  {
    hide CurrentCursor, EventKey, SnapshotKey, CursorKey, ValidRoom;
    var k := SnapshotKey(s.room, s.issueId);
    if k in x.objects {
      assert Placed(x, k, x.objects[k]);
      match x.objects[k]
      case EventItem(f) => KindsOfKeyDiffer(f.room, f.cursor, f.envelope.id, s.room, s.issueId, "");
      case CursorItem(room, _, _) => KindsOfKeyDiffer("", 0, "", s.room, s.issueId, room);
      case _ =>
    }
  }

  lemma PutCursorKeeps(x: Index, room: string, cursor: nat, now: nat)
    requires IndexOk(x) && ValidRoom(room) && 0 < cursor == CurrentCursor(x, room)
    requires room in x.cursors && x.cursors[room] == cursor
    ensures IndexOk(PutCursor(x, room, cursor, now)) && SameIndex(x, PutCursor(x, room, cursor, now))
  {
    var k, item := CursorKey(room), CursorItem(room, cursor, now);
    var y := PutCursor(x, room, cursor, now);
    assert y == Write(x, k, item);
    assert CurrentCursor(y, room) == cursor;
    hide CurrentCursor, Logged, SnapshotAt, EventKey, SnapshotKey, CursorKey, ValidRoom;
    CursorSlot(x, room, cursor, now);
    forall q ensures CurrentCursor(y, q) >= CurrentCursor(x, q) {
      if q != room { WriteCursor(x, k, item, q); }
    }
    WriteOk(x, k, item);
    forall q, issueId | ValidRoom(q)
      ensures Logged(y, q, issueId) == Logged(x, q, issueId)
      ensures SnapshotAt(y, q, issueId) == SnapshotAt(x, q, issueId) {
      WriteLogged(x, k, item, q, issueId);
      WriteSnapshot(x, k, item, q, issueId);
    }
  }

  lemma CursorSlot(x: Index, room: string, cursor: nat, now: nat)
    requires IndexOk(x)
    ensures Replaceable(x, CursorKey(room), CursorItem(room, cursor, now))
  {
    hide CurrentCursor, EventKey, SnapshotKey, CursorKey, ValidRoom;
    var k := CursorKey(room);
    if k in x.objects {
      assert Placed(x, k, x.objects[k]);
      match x.objects[k]
      case EventItem(f) => KindsOfKeyDiffer(f.room, f.cursor, f.envelope.id, "", "", room);
      case SnapshotItem(s) => KindsOfKeyDiffer("", 0, "", s.room, s.issueId, room);
      case _ =>
    }
  }

  // ------------------------------------------------------- what an attempt does

  predicate Logs(f: Fault) { !f.AtPlain? && f != AtEvent(false) }

  /** A logged event the policy accepts is also shown. */
  predicate Shows(f: Fault) { Logs(f) && !f.AtEvent? && f != AtSnapshot(false) }

  /** An attempt succeeds if no write it makes fails. */
  predicate Completes(f: Fault, accepted: bool) { f.NoFault? || (f.AtSnapshot? && !accepted) }

  /** Over an issue envelope, what an attempt changes: an event is logged above all others of the
      room, and shown in the snapshot if the policy accepts it. */
  ghost predicate Changes(x: Index, y: Index, p: Policy, e: Envelope, time: Option<nat>, t: Try)
    requires WellFormed(e)
  {
    if !Logs(t.fault) then SameIndex(x, y)
    else exists event: Event :: Records(x, y, p, e, time, t, event)
  }

  ghost predicate Records(x: Index, y: Index, p: Policy, e: Envelope, time: Option<nat>, t: Try, event: Event)
    requires WellFormed(e)
  {
    && event.room == e.room && event.issueId == IssueId(e) && event.action == Action(e)
    && event.envelope == e && event.time == time && event.updatedAt == t.now
    && event.cursor > CurrentCursor(x, e.room)
    && (forall room, issueId :: ValidRoom(room) ==>
         && Logged(y, room, issueId) == Logged(x, room, issueId) + EventsIn(EventItem(event), room, issueId)
         && SnapshotAt(y, room, issueId)
            == if room == e.room && issueId == IssueId(e) && Shows(t.fault)
                  && Accepts(p, SnapshotAt(x, room, issueId), e, time)
               then Some(SnapshotOf(event)) else SnapshotAt(x, room, issueId))
  }

  lemma BelowCurrent(x: Index, e: Event)
    requires IndexOk(x) && e.cursor > CurrentCursor(x, e.room)
    ensures Latest(x, e)
  {
    hide CurrentCursor, EventKey;
    forall k | HoldsEvent(x, k) && x.objects[k].event.room == e.room ensures x.objects[k].event.cursor < e.cursor {
      assert Placed(x, k, x.objects[k]);
    }
  }

  lemma NextIsHigher(x: Index, room: string, hint: Option<int>)
    ensures NextCursor(x, room, hint) > CurrentCursor(x, room)
  {}

  lemma RoomIsValid(e: Envelope)
    requires WellFormed(e)
    ensures ValidRoom(e.room) && Name(e.id)
  {}

  lemma CursorsInMemory(x: Index, e: Event)
    ensures var y := SetCursor(x, e.room, e.cursor);
      && e.room in y.cursors && y.cursors[e.room] == e.cursor
      && PutEvent(y, e).cursors == y.cursors && PutSnapshot(PutEvent(y, e), SnapshotOf(e)).cursors == y.cursors
  {}

  lemma CountedLatest(x: Index, room: string, e: Event)
    requires Latest(x, e)
    ensures Latest(SetCursor(x, room, e.cursor), e)
  {}

  /** The policy accepts the envelope over what is shown for its issue. */
  predicate Accepted(x: Index, s: Settings, e: Envelope)
    requires WellFormed(e)
  {
    Accepts(s.policy, SnapshotAt(x, e.room, IssueId(e)), e, SourceTime(e.payload, s.dateMs))
  }

  lemma ProjectChanges(x: Index, s: Settings, e: Envelope, hint: Option<int>, t: Try)
    requires IndexOk(x) && WellFormed(e) && !t.fault.AtPlain?
    ensures var out := Project(x, s, e, hint, t);
      && IndexOk(out.index)
      && Changes(x, out.index, s.policy, e, SourceTime(e.payload, s.dateMs), t)
      && (out.ok <==> Completes(t.fault, Accepted(x, s, e)))
  {
    hide CurrentCursor, Logged, SnapshotAt, IndexOk, Accepts, SourceTime, IssueId, Action, WellFormed, Latest,
      SetCursor, PutEvent, PutSnapshot, PutCursor;
    var event := NewEvent(x, s, e, hint, t.now);
    NextIsHigher(x, e.room, hint);
    RoomIsValid(e);
    var counted := SetCursor(x, e.room, event.cursor);
    SetCursorKeeps(x, e.room, event.cursor);
    BelowCurrent(x, event);
    CountedLatest(x, e.room, event);
    PutEventAdds(counted, event);
    var logged := PutEvent(counted, event);
    PutSnapshotShows(logged, SnapshotOf(event));
    var accepted := Accepts(s.policy, SnapshotAt(logged, e.room, event.issueId), e, event.time);
    var shown := if accepted then PutSnapshot(logged, SnapshotOf(event)) else logged;
    CursorsInMemory(x, event);
    PutCursorKeeps(shown, e.room, event.cursor, t.now);
    var y := Project(x, s, e, hint, t).index;
    if Logs(t.fault) {
      assert Records(x, y, s.policy, e, event.time, t, event);
    }
  }

  // -------------------------------------------------------------------- tasks

  /** Attempts in order until one succeeds; `tries` holds the fate of every attempt allowed. */
  function Task(x: Index, s: Settings, e: Envelope, hint: Option<int>, tries: seq<Try>): Outcome
    requires WellFormed(e) && tries != []
    decreases |tries|
  {
    var first := Attempt(x, s, e, hint, tries[0]);
    if first.ok || |tries| == 1 then first else Task(first.index, s, e, hint, tries[1..])
  }

  // ------------------------------------------------------------------- restart

  /** A restart forgets the cursors held in memory. */
  function Restart(x: Index): Index { x.(cursors := map[]) }

  lemma RestartKeeps(x: Index)
    requires IndexOk(x) && forall room :: CurrentCursor(x, room) == PersistedCursor(x, room)
    ensures IndexOk(Restart(x)) && SameIndex(x, Restart(x))
  {
    SameObjects(x, Restart(x));
  }

  /** A task that succeeds leaves the room's cursor on record, so a restart then is harmless. */
  lemma {:induction false} TaskRecordsCursor(x: Index, s: Settings, e: Envelope, hint: Option<int>, tries: seq<Try>)
    requires WellFormed(e) && IssueTopic(e.topic) && tries != []
    ensures var out := Task(x, s, e, hint, tries);
            out.ok ==> CurrentCursor(out.index, e.room) == PersistedCursor(out.index, e.room)
    decreases |tries|
  {
    hide WellFormed, IssueTopic, Project, CurrentCursor, PersistedCursor, PutPlain;
    ProjectRecordsCursor(PutPlain(x, e), s, e, hint, tries[0]);
    var first := Attempt(x, s, e, hint, tries[0]);
    if !first.ok && |tries| > 1 {
      TaskRecordsCursor(first.index, s, e, hint, tries[1..]);
    }
  }

  lemma ProjectRecordsCursor(x: Index, s: Settings, e: Envelope, hint: Option<int>, t: Try)
    requires WellFormed(e)
    ensures var out := Project(x, s, e, hint, t);
            out.ok ==> CurrentCursor(out.index, e.room) == PersistedCursor(out.index, e.room)
  {
    hide WellFormed, SnapshotKey, EventKey, CursorKey, NextCursor, Accepts, SnapshotAt;
  }
}
