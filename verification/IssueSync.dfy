/** Reading the issue log in pages (src/relay_cache_adapter.ts, `loadIssueEventsFromCache` and
    `syncIssues`). The store lists keys in order, as the cache stores do. */
module IssueSync {
  import opened Options
  import opened Ordering
  import opened Text
  import opened CacheExchange
  import opened IssueProjection
  import opened IssueIndex
  import CacheStore

  type Objects = map<string, Item>

  /** The room an object is stored for. */
  function RoomOf(item: Item): string {
    match item
    case PlainItem(e) => e.room
    case EventItem(e) => e.room
    case SnapshotItem(s) => s.room
    case CursorItem(room, _, _) => room
  }

  function KeysUnder(os: Objects, prefix: string, room: string): set<string> {
    set k | k in os && prefix <= k && RoomOf(os[k]) == room
  }

  /** The room's keys under a prefix, in order. */
  ghost function Listing(os: Objects, prefix: string, room: string): (keys: seq<string>)
    ensures Ascending(Before, keys)
    ensures forall k :: k in keys <==> k in KeysUnder(os, prefix, room)
  {
    BeforeIsOrder();
    var keys := CacheStore.Enumerate(KeysUnder(os, prefix, room));
    SortAscending(Before, keys);
    SortKeepsElements(Before, keys);
    Sort(Before, keys)
  }

  /** The room's log keys. */
  ghost function LogKeys(os: Objects, room: string): seq<string> { Listing(os, EventPrefix(room), room) }

  /** The event a listed key yields, if it comes after the given cursor. */
  function EventUnder(os: Objects, room: string, after: nat, k: string): Option<Event> {
    var c := ParseEventCursor(room, k);
    if c.Some? && c.value > after && k in os && os[k].EventItem?
       && os[k].event.room == room && os[k].event.cursor > after
    then Some(os[k].event) else None
  }

  /** The first `limit` eligible events, in the order of the keys. */
  function ReadEvents(os: Objects, room: string, after: nat, keys: seq<string>, limit: nat): (events: seq<Event>)
    ensures |events| <= limit
    ensures forall e :: e in events ==> e.cursor > after
  {
    if keys == [] || limit == 0 then []
    else
      var e := EventUnder(os, room, after, keys[0]);
      if e.Some? then [e.value] + ReadEvents(os, room, after, keys[1..], limit - 1)
      else ReadEvents(os, room, after, keys[1..], limit)
  }

  function InsertByCursor(e: Event, events: seq<Event>): (r: seq<Event>)
    ensures |r| == |events| + 1
    ensures forall f :: f in r <==> f == e || f in events
  {
    if events == [] || e.cursor <= events[0].cursor then [e] + events
    else
      assert events == [events[0]] + events[1..];
      [events[0]] + InsertByCursor(e, events[1..])
  }

  /** A stable sort. */
  function SortByCursor(events: seq<Event>): (r: seq<Event>)
    ensures |r| == |events|
    ensures forall f :: f in r <==> f in events
  {
    if events == [] then [] else InsertByCursor(events[0], SortByCursor(events[1..]))
  }

  datatype Loaded = Loaded(events: seq<Event>, nextCursor: nat)

  ghost function Load(os: Objects, room: string, after: nat, limit: nat): Loaded {
    var events := SortByCursor(ReadEvents(os, room, after, LogKeys(os, room), limit));
    Loaded(events, if events == [] then after else events[|events| - 1].cursor)
  }

  // ----------------------------------------------------------------- draining

  /** All eligible events. */
  ghost function Pending(os: Objects, room: string, after: nat): seq<Event> {
    var keys := LogKeys(os, room);
    ReadEvents(os, room, after, keys, |keys|)
  }

  /** With a later cursor fewer events are pending. */
  lemma {:induction false} ScanShrinks(os: Objects, room: string, after: nat, next: nat, keys: seq<string>, e: Event)
    requires after < next
    ensures var before, later := ReadEvents(os, room, after, keys, |keys|), ReadEvents(os, room, next, keys, |keys|);
            |later| <= |before| && (e in before && e.cursor <= next ==> |later| < |before|)
  {
    if keys != [] {
      ScanShrinks(os, room, after, next, keys[1..], e);
      ScanMore(os, room, after, keys[1..], |keys|);
      ScanMore(os, room, next, keys[1..], |keys|);
    }
  }

  lemma {:induction false} ScanMore(os: Objects, room: string, after: nat, keys: seq<string>, limit: nat)
    requires limit >= |keys|
    ensures ReadEvents(os, room, after, keys, limit) == ReadEvents(os, room, after, keys, |keys|)
  {
    if keys != [] && limit > |keys| {
      ScanMore(os, room, after, keys[1..], limit);
      ScanMore(os, room, after, keys[1..], limit - 1);
      ScanMore(os, room, after, keys[1..], |keys|);
    }
  }

  lemma {:induction false} ScanTakes(os: Objects, room: string, after: nat, keys: seq<string>, limit: nat)
    requires limit <= |keys|
    ensures var all := ReadEvents(os, room, after, keys, |keys|);
            ReadEvents(os, room, after, keys, limit) == if limit <= |all| then all[..limit] else all
  {
    hide EventUnder;
    if keys != [] && limit > 0 {
      ScanMore(os, room, after, keys[1..], |keys|);
      ScanTakes(os, room, after, keys[1..], limit - 1);
      if limit < |keys| {
        ScanTakes(os, room, after, keys[1..], limit);
      } else {
        ScanMore(os, room, after, keys[1..], limit);
      }
    }
  }

  /** A page that holds an event leaves fewer pending. */
  lemma LoadAdvances(os: Objects, room: string, after: nat, limit: nat)
    ensures var page := Load(os, room, after, limit);
      page.events != [] ==> page.nextCursor > after && |Pending(os, room, page.nextCursor)| < |Pending(os, room, after)|
  {
    hide EventUnder;
    var keys := LogKeys(os, room);
    var page := Load(os, room, after, limit);
    if page.events != [] {
      var e := page.events[|page.events| - 1];
      assert e in page.events && e in ReadEvents(os, room, after, keys, limit);
      if limit <= |keys| { ScanTakes(os, room, after, keys, limit); } else { ScanMore(os, room, after, keys, limit); }
      assert e in Pending(os, room, after);
      ScanShrinks(os, room, after, e.cursor, keys, e);
    }
  }

  /** All events a reader gets by asking again from each page's last cursor until a page is empty. */
  ghost function Drain(os: Objects, room: string, after: nat, limit: nat): seq<Event>
    requires limit > 0
    decreases |Pending(os, room, after)|
  {
    hide Load, Pending;
    LoadAdvances(os, room, after, limit);
    var page := Load(os, room, after, limit);
    if page.events == [] then [] else page.events + Drain(os, room, page.nextCursor, limit)
  }

  // -------------------------------------------------------------- completeness

  predicate ByCursor(events: seq<Event>) {
    forall i, j :: 0 <= i < j < |events| ==> events[i].cursor < events[j].cursor
  }

  ghost predicate StoredIn(x: Index, room: string, e: Event) {
    exists k :: HoldsEvent(x, k) && x.objects[k].event == e && e.room == room
  }

  /** The room's cursors sort as text: of any two, the smaller comes first in the listing. */
  ghost predicate KeysSorted(x: Index, room: string) {
    forall e, f :: StoredIn(x, room, e) && StoredIn(x, room, f) && e.cursor < f.cursor ==> InOrder(e.cursor, f.cursor)
  }

  /** In a reachable index a key yields the event stored under it. */
  lemma EligibleIsStored(x: Index, room: string, after: nat, k: string)
    requires IndexOk(x)
    ensures EventUnder(x.objects, room, after, k)
         == if HoldsEvent(x, k) && x.objects[k].event.room == room && x.objects[k].event.cursor > after
            then Some(x.objects[k].event) else None
  {
    hide EventKey, ParseEventCursor, CurrentCursor;
    if HoldsEvent(x, k) && x.objects[k].event.room == room {
      var e := x.objects[k].event;
      assert Placed(x, k, x.objects[k]);
      EventKeyRoundTrip(room, e.cursor, e.envelope.id);
    }
  }

  lemma {:induction false} ScanHolds(x: Index, room: string, after: nat, keys: seq<string>, e: Event)
    requires IndexOk(x)
    ensures e in ReadEvents(x.objects, room, after, keys, |keys|)
       <==> exists k :: k in keys && HoldsEvent(x, k) && x.objects[k].event == e && e.room == room && e.cursor > after
  {
    hide EventUnder, IndexOk;
    if keys != [] {
      var k := keys[0];
      EligibleIsStored(x, room, after, k);
      ScanHolds(x, room, after, keys[1..], e);
      ScanMore(x.objects, room, after, keys[1..], |keys|);
      assert forall l :: l in keys <==> l == k || l in keys[1..];
    }
  }

  /** The events pending are exactly those stored with a later cursor. */
  lemma PendingHolds(x: Index, room: string, after: nat, e: Event)
    requires IndexOk(x)
    ensures e in Pending(x.objects, room, after) <==> StoredIn(x, room, e) && e.cursor > after
  {
    hide ReadEvents, EventKey, CurrentCursor;
    ScanHolds(x, room, after, LogKeys(x.objects, room), e);
    forall k | HoldsEvent(x, k) && x.objects[k].event == e && e.room == room
      ensures k in KeysUnder(x.objects, EventPrefix(room), room) {
      assert Placed(x, k, x.objects[k]);
      EventKeyPrefix(room, e.cursor, e.envelope.id);
    }
  }

  lemma EventKeyPrefix(room: string, cursor: int, id: string)
    ensures EventPrefix(room) <= EventKey(room, cursor, id)
  {
    hide Decimal;
  }

  lemma HeldInRoom(x: Index, room: string, k: string)
    requires IndexOk(x) && HoldsEvent(x, k) && x.objects[k].event.room == room
    ensures var e := x.objects[k].event;
            StoredIn(x, room, e) && e.cursor > 0 && ValidRoom(room) && k == EventKey(room, e.cursor, e.envelope.id)
  {
    hide EventKey, CurrentCursor, ValidRoom;
    assert Placed(x, k, x.objects[k]);
  }

  /** Keys in order hold events in cursor order. */
  lemma KeysOrderCursors(x: Index, room: string, k: string, l: string)
    requires IndexOk(x) && KeysSorted(x, room) && Before(k, l)
    requires HoldsEvent(x, k) && HoldsEvent(x, l) && x.objects[k].event.room == room && x.objects[l].event.room == room
    ensures x.objects[k].event.cursor < x.objects[l].event.cursor
  {
    hide EventKey, CurrentCursor, Pow10, InOrder, Placed, StoredIn;
    var e, f := x.objects[k].event, x.objects[l].event;
    HeldInRoom(x, room, k);
    HeldInRoom(x, room, l);
    BeforeIrreflexive(k);
    assert SameCursor(e, f) <==> e.cursor == f.cursor;
    if f.cursor < e.cursor {
      EventKeyOrder(room, f.cursor, e.cursor, f.envelope.id, e.envelope.id);
    }
  }

  lemma {:induction false} ScanOrdered(x: Index, room: string, after: nat, keys: seq<string>)
    requires IndexOk(x) && KeysSorted(x, room) && Ascending(Before, keys)
    ensures ByCursor(ReadEvents(x.objects, room, after, keys, |keys|))
  {
    hide EventUnder, IndexOk, KeysSorted, Before;
    if keys != [] {
      var k, rest := keys[0], keys[1..];
      EligibleIsStored(x, room, after, k);
      ScanOrdered(x, room, after, rest);
      ScanMore(x.objects, room, after, rest, |keys|);
      var events := ReadEvents(x.objects, room, after, rest, |rest|);
      if EventUnder(x.objects, room, after, k).Some? {
        forall i | 0 <= i < |events| ensures x.objects[k].event.cursor < events[i].cursor {
          ScanHolds(x, room, after, rest, events[i]);
          assert events[i] in events;
          var l :| l in rest && HoldsEvent(x, l) && x.objects[l].event == events[i];
          KeysOrderCursors(x, room, k, l);
        }
      }
    }
  }

  lemma {:induction false} OrderedUnique(a: seq<Event>, b: seq<Event>)
    requires ByCursor(a) && ByCursor(b) && forall e :: e in a <==> e in b
    ensures a == b
  {
    if b != [] { assert b[0] in b; }
    if a != [] {
      assert a[0] in a;
      assert a[0] in b && b[0] in a;
      assert a[0] == b[0];
      forall e ensures e in a[1..] <==> e in b[1..] {
        assert e in a <==> e == a[0] || e in a[1..];
        assert e in b <==> e == b[0] || e in b[1..];
        assert a[0] !in a[1..] && b[0] !in b[1..];
      }
      OrderedUnique(a[1..], b[1..]);
      assert a == [a[0]] + a[1..] && b == [b[0]] + b[1..];
    }
  }

  lemma InsertFirst(e: Event, events: seq<Event>)
    requires events != [] ==> e.cursor <= events[0].cursor
    ensures InsertByCursor(e, events) == [e] + events
  {}

  lemma {:induction false} SortedAlready(events: seq<Event>)
    requires ByCursor(events)
    ensures SortByCursor(events) == events
  {
    if events != [] {
      hide InsertByCursor;
      var first, rest := events[0], events[1..];
      SortedAlready(rest);
      assert rest != [] ==> first.cursor < rest[0].cursor;
      InsertFirst(first, rest);
      assert events == [first] + rest;
    }
  }

  lemma ScanIsPrefix(os: Objects, room: string, after: nat, keys: seq<string>, limit: nat)
    ensures var all := ReadEvents(os, room, after, keys, |keys|);
            ReadEvents(os, room, after, keys, limit) == if limit <= |all| then all[..limit] else all
  {
    if limit <= |keys| { ScanTakes(os, room, after, keys, limit); } else { ScanMore(os, room, after, keys, limit); }
  }

  lemma PageIs(os: Objects, room: string, after: nat, limit: nat)
    requires ByCursor(Pending(os, room, after))
    ensures var all := Pending(os, room, after);
            Load(os, room, after, limit).events == if limit <= |all| then all[..limit] else all
  {
    hide ReadEvents, SortByCursor;
    var all := Pending(os, room, after);
    ScanIsPrefix(os, room, after, LogKeys(os, room), limit);
    SortedAlready(if limit <= |all| then all[..limit] else all);
  }

  /** A page is the first part of what is pending, and the rest is pending after it. */
  lemma LoadIsPrefix(x: Index, room: string, after: nat, limit: nat)
    requires IndexOk(x) && KeysSorted(x, room) && limit > 0
    ensures var page, all := Load(x.objects, room, after, limit), Pending(x.objects, room, after);
      && (page.events == [] <==> all == [])
      && page.events + Pending(x.objects, room, page.nextCursor) == all
  {
    hide IndexOk, KeysSorted, ReadEvents, SortByCursor, Pending, ByCursor;
    var all := Pending(x.objects, room, after);
    PendingOrdered(x, room, after);
    PageIs(x.objects, room, after, limit);
    var n := if limit <= |all| then limit else |all|;
    if n > 0 {
      RestIsPending(x, room, after, all, n);
    }
  }

  lemma RestIsPending(x: Index, room: string, after: nat, all: seq<Event>, n: nat)
    requires IndexOk(x) && KeysSorted(x, room)
    requires all == Pending(x.objects, room, after) && ByCursor(all) && 0 < n <= |all|
    ensures all[n..] == Pending(x.objects, room, all[n - 1].cursor)
  {
    hide IndexOk, KeysSorted, Pending, StoredIn;
    var last := all[n - 1];
    var rest := Pending(x.objects, room, last.cursor);
    assert ByCursor(rest) by { PendingOrdered(x, room, last.cursor); }
    PendingHolds(x, room, after, last);
    assert last in all;
    forall e ensures e in all[n..] <==> e in rest {
      PendingHolds(x, room, after, e);
      PendingHolds(x, room, last.cursor, e);
      if e in all {
        var i :| 0 <= i < |all| && all[i] == e;
        assert i >= n ==> all[n..][i - n] == e;
        assert e.cursor > last.cursor <==> i >= n;
      }
    }
    OrderedUnique(all[n..], rest);
  }

  lemma PendingOrdered(x: Index, room: string, after: nat)
    requires IndexOk(x) && KeysSorted(x, room)
    ensures ByCursor(Pending(x.objects, room, after))
  {
    hide ReadEvents, IndexOk, KeysSorted;
    ScanOrdered(x, room, after, LogKeys(x.objects, room));
  }

  /** Reading on from each page's last cursor yields what is pending. */
  lemma {:induction false} DrainIsPending(x: Index, room: string, after: nat, limit: nat)
    requires IndexOk(x) && KeysSorted(x, room) && limit > 0
    ensures Drain(x.objects, room, after, limit) == Pending(x.objects, room, after)
    decreases |Pending(x.objects, room, after)|
  {
    hide IndexOk, KeysSorted, Load, Pending;
    LoadIsPrefix(x, room, after, limit);
    LoadAdvances(x.objects, room, after, limit);
    var page := Load(x.objects, room, after, limit);
    if page.events != [] {
      DrainIsPending(x, room, page.nextCursor, limit);
    }
  }

  /** Issue sync loses nothing: whatever the page size, reading on until a page is empty yields every
      event stored with a later cursor, once each, in increasing cursor order. */
  lemma SyncComplete(x: Index, room: string, after: nat, limit: nat)
    requires IndexOk(x) && KeysSorted(x, room) && limit > 0
    ensures var events := Drain(x.objects, room, after, limit);
      ByCursor(events) && forall e :: e in events <==> StoredIn(x, room, e) && e.cursor > after
  {
    hide IndexOk, KeysSorted, Drain, Pending, StoredIn;
    DrainIsPending(x, room, after, limit);
    PendingOrdered(x, room, after);
    forall e ensures e in Pending(x.objects, room, after) <==> StoredIn(x, room, e) && e.cursor > after {
      PendingHolds(x, room, after, e);
    }
  }

  // ------------------------------------------------------------------ what is lost

  lemma {:induction false} DrainedLater(os: Objects, room: string, after: nat, limit: nat)
    requires limit > 0
    ensures forall e :: e in Drain(os, room, after, limit) ==> e.cursor > after
    decreases |Pending(os, room, after)|
  {
    hide Pending, Listing;
    LoadAdvances(os, room, after, limit);
    var page := Load(os, room, after, limit);
    if page.events != [] {
      assert forall e :: e in page.events ==> e.cursor > after;
      DrainedLater(os, room, page.nextCursor, limit);
    }
  }

  /** A page of one event holds one listed no later than any eligible event. */
  lemma {:induction false} FirstRead(x: Index, room: string, after: nat, keys: seq<string>, k: string, l: string)
    requires IndexOk(x) && Ascending(Before, keys) && k in keys && Before(k, l)
    requires HoldsEvent(x, k) && x.objects[k].event.room == room && x.objects[k].event.cursor > after
    requires HoldsEvent(x, l)
    ensures var events := ReadEvents(x.objects, room, after, keys, 1);
            |events| == 1 && events[0] != x.objects[l].event
  {
    hide EventUnder, IndexOk, Before;
    var first := keys[0];
    EligibleIsStored(x, room, after, first);
    if EventUnder(x.objects, room, after, first).Some? {
      assert first == k || Before(first, k);
      if first != k { BeforeTransitive(first, k, l); }
      BeforeIrreflexive(l);
      KeyOfEvent(x, first, l);
      assert ReadEvents(x.objects, room, after, keys[1..], 0) == [];
    } else {
      assert first != k && k in keys[1..];
      FirstRead(x, room, after, keys[1..], k, l);
    }
  }

  lemma KeyOfEvent(x: Index, k: string, l: string)
    requires IndexOk(x) && HoldsEvent(x, k) && HoldsEvent(x, l) && k != l
    ensures x.objects[k].event != x.objects[l].event
  {
    hide EventKey, CurrentCursor;
    var e, f := x.objects[k].event, x.objects[l].event;
    assert SameCursor(e, f) <==> e.room == f.room && e.cursor == f.cursor;
  }

  /** With pages of one event, an event listed after one of a greater cursor is never read. */
  lemma {:induction false} NeverDrained(x: Index, room: string, after: nat, k: string, l: string)
    requires IndexOk(x) && HoldsEvent(x, k) && HoldsEvent(x, l) && Before(k, l)
    requires x.objects[k].event.room == x.objects[l].event.room == room
    requires x.objects[k].event.cursor > x.objects[l].event.cursor
    ensures x.objects[l].event !in Drain(x.objects, room, after, 1)
    decreases |Pending(x.objects, room, after)|
  {
    hide IndexOk, Pending, Listing, ReadEvents, Before;
    var os := x.objects;
    if after >= os[k].event.cursor {
      DrainedLater(os, room, after, 1);
    } else {
      KeyIsListed(x, room, k);
      FirstRead(x, room, after, LogKeys(os, room), k, l);
      var events := ReadEvents(os, room, after, LogKeys(os, room), 1);
      assert events == [events[0]];
      SortedAlready(events);
      LoadAdvances(os, room, after, 1);
      NeverDrained(x, room, Load(os, room, after, 1).nextCursor, k, l);
    }
  }

  lemma KeyIsListed(x: Index, room: string, k: string)
    requires IndexOk(x) && HoldsEvent(x, k) && x.objects[k].event.room == room
    ensures k in LogKeys(x.objects, room)
  {
    hide EventKey, CurrentCursor, Placed, ValidRoom;
    HeldInRoom(x, room, k);
    EventKeyPrefix(room, x.objects[k].event.cursor, x.objects[k].event.envelope.id);
  }

  /** Reading from the start loses no event, whatever the page size, exactly when the room's cursors sort as text. */
  lemma SyncCompleteIff(x: Index, room: string)
    requires IndexOk(x)
    ensures (forall limit: nat, e ::
              limit > 0 && StoredIn(x, room, e) ==> e in Drain(x.objects, room, 0, limit)) <==> KeysSorted(x, room)
  {
    hide IndexOk, StoredIn, Drain, KeysSorted;
    if KeysSorted(x, room) {
      forall limit: nat, e | limit > 0 && StoredIn(x, room, e) ensures e in Drain(x.objects, room, 0, limit) {
        SyncComplete(x, room, 0, limit);
        StoredPositive(x, room, e);
      }
    } else {
      var e := UnsortedIsLost(x, room);
      assert StoredIn(x, room, e) && e !in Drain(x.objects, room, 0, 1);
    }
  }

  lemma StoredPositive(x: Index, room: string, e: Event)
    requires IndexOk(x) && StoredIn(x, room, e)
    ensures e.cursor > 0
  {
    hide IndexOk;
    var k :| HoldsEvent(x, k) && x.objects[k].event == e && e.room == room;
    HeldInRoom(x, room, k);
  }

  lemma UnsortedIsLost(x: Index, room: string) returns (e: Event)
    requires IndexOk(x) && !KeysSorted(x, room)
    ensures StoredIn(x, room, e) && e !in Drain(x.objects, room, 0, 1)
  {
    hide IndexOk, Drain, EventKey, InOrder, Before;
    var f: Event;
    e, f :| StoredIn(x, room, e) && StoredIn(x, room, f) && e.cursor < f.cursor && !InOrder(e.cursor, f.cursor);
    var k :| HoldsEvent(x, k) && x.objects[k].event == e && e.room == room;
    var l :| HoldsEvent(x, l) && x.objects[l].event == f && f.room == room;
    HeldInRoom(x, room, k);
    HeldInRoom(x, room, l);
    EventKeyOrder(room, e.cursor, f.cursor, e.envelope.id, f.envelope.id);
    NeverDrained(x, room, 0, l, k);
  }

  /** Below cursor 10^12 nothing is lost. */
  lemma SmallCursorsSorted(x: Index, room: string)
    requires forall e :: StoredIn(x, room, e) ==> e.cursor < Pow10(PAD_WIDTH)
    ensures KeysSorted(x, room)
  {
    hide InOrder, StoredIn, Pow10;
    forall e, f | StoredIn(x, room, e) && StoredIn(x, room, f) && e.cursor < f.cursor
      ensures InOrder(e.cursor, f.cursor) {
      InOrderBelow(e.cursor, f.cursor);
    }
  }

  /** At 10^12 an event is lost: its key sorts after the key of the next. */
  lemma SyncLosesBeyond(room: string, e: Event, f: Event)
    requires ValidRoom(room) && e.room == f.room == room && Name(e.envelope.id) && Name(f.envelope.id)
    requires e.cursor == Pow10(PAD_WIDTH) - 1 && f.cursor == Pow10(PAD_WIDTH)
    ensures var x := TwoEvents(e, f);
      IndexOk(x) && StoredIn(x, room, e) && e !in Drain(x.objects, room, 0, 1)
  {
    hide Pow10, EventKey, IndexOk, TwoEvents, InOrder, Before, Drain, ValidRoom, Name, StoredIn;
    PowerAboveOne(PAD_WIDTH);
    TwoEventsOk(e, f);
    InOrderEnds();
    EventKeyOrder(room, e.cursor, f.cursor, e.envelope.id, f.envelope.id);
    NeverDrained(TwoEvents(e, f), room, 0, EventKey(room, f.cursor, f.envelope.id),
                 EventKey(room, e.cursor, e.envelope.id));
  }

  function TwoEvents(e: Event, f: Event): Index {
    Index(map[], map[EventKey(e.room, e.cursor, e.envelope.id) := EventItem(e),
                     EventKey(f.room, f.cursor, f.envelope.id) := EventItem(f)], map[e.room := f.cursor])
  }

  lemma TwoEventsOk(e: Event, f: Event)
    requires ValidRoom(e.room) && e.room == f.room && 0 < e.cursor < f.cursor
    requires Name(e.envelope.id) && Name(f.envelope.id)
    ensures var x := TwoEvents(e, f);
      var k, l := EventKey(e.room, e.cursor, e.envelope.id), EventKey(f.room, f.cursor, f.envelope.id);
      && IndexOk(x) && StoredIn(x, e.room, e)
      && HoldsEvent(x, k) && x.objects[k].event == e && HoldsEvent(x, l) && x.objects[l].event == f
  {
    hide EventKey, ValidRoom, Name;
    var k, l := EventKey(e.room, e.cursor, e.envelope.id), EventKey(f.room, f.cursor, f.envelope.id);
    if k == l { EventKeyInjective(e.room, e.cursor, e.envelope.id, f.room, f.cursor, f.envelope.id); }
    assert HoldsEvent(TwoEvents(e, f), k);
  }

  // ------------------------------------------------------------------- snapshots

  function SnapshotPrefix(room: string): string { "issue/snapshots/" + room + ['/'] }

  function SnapshotUnder(os: Objects, room: string, k: string): Option<Snapshot> {
    if k in os && os[k].SnapshotItem? && os[k].snapshot.room == room then Some(os[k].snapshot) else None
  }

  /** The first `limit` snapshots, in the order of the keys. */
  function ReadSnapshots(os: Objects, room: string, keys: seq<string>, limit: nat): (snapshots: seq<Snapshot>)
    ensures |snapshots| <= limit
  {
    if keys == [] || limit == 0 then []
    else
      var s := SnapshotUnder(os, room, keys[0]);
      if s.Some? then [s.value] + ReadSnapshots(os, room, keys[1..], limit - 1)
      else ReadSnapshots(os, room, keys[1..], limit)
  }

  predicate IssueBefore(s: Snapshot, t: Snapshot) { Before(s.issueId, t.issueId) }

  ghost function SnapshotKeys(os: Objects, room: string): seq<string> { Listing(os, SnapshotPrefix(room), room) }

  ghost function LoadSnapshots(os: Objects, room: string, limit: nat): seq<Snapshot> {
    Sort(IssueBefore, ReadSnapshots(os, room, SnapshotKeys(os, room), limit))
  }

  /** All snapshots of the room. */
  ghost function Shown(os: Objects, room: string): seq<Snapshot> {
    var keys := SnapshotKeys(os, room);
    ReadSnapshots(os, room, keys, |keys|)
  }

  lemma {:induction false} SnapshotsRead(x: Index, room: string, keys: seq<string>, s: Snapshot)
    ensures s in ReadSnapshots(x.objects, room, keys, |keys|) <==> exists k :: k in keys && Shows(x, room, k, s)
  {
    if keys != [] {
      SnapshotsRead(x, room, keys[1..], s);
      MoreSnapshots(x.objects, room, keys[1..], |keys|);
      assert forall k :: k in keys <==> k == keys[0] || k in keys[1..];
      assert Shows(x, room, keys[0], s) <==> SnapshotUnder(x.objects, room, keys[0]) == Some(s);
    }
  }

  predicate Shows(x: Index, room: string, k: string, s: Snapshot) {
    k in x.objects && x.objects[k] == SnapshotItem(s) && s.room == room
  }

  lemma {:induction false} MoreSnapshots(os: Objects, room: string, keys: seq<string>, limit: nat)
    requires limit >= |keys|
    ensures ReadSnapshots(os, room, keys, limit) == ReadSnapshots(os, room, keys, |keys|)
  {
    hide SnapshotUnder;
    if keys != [] && limit > |keys| {
      MoreSnapshots(os, room, keys[1..], limit);
      MoreSnapshots(os, room, keys[1..], limit - 1);
      MoreSnapshots(os, room, keys[1..], |keys|);
    }
  }

  lemma {:induction false} FirstSnapshots(os: Objects, room: string, keys: seq<string>, limit: nat)
    ensures var all := ReadSnapshots(os, room, keys, |keys|);
            ReadSnapshots(os, room, keys, limit) == if limit <= |all| then all[..limit] else all
  {
    hide SnapshotUnder;
    if keys != [] && limit > 0 {
      MoreSnapshots(os, room, keys[1..], |keys|);
      FirstSnapshots(os, room, keys[1..], limit - 1);
      FirstSnapshots(os, room, keys[1..], limit);
    }
  }

  /** The snapshots are in the places of the room's keys. */
  lemma ShownAt(x: Index, room: string, k: string, s: Snapshot)
    requires IndexOk(x) && Shows(x, room, k, s)
    ensures ValidRoom(room) && k == SnapshotPrefix(room) + s.issueId && SnapshotAt(x, room, s.issueId) == Some(s)
    ensures k in SnapshotKeys(x.objects, room)
  {
    hide EventKey, CurrentCursor, ValidRoom;
    assert Placed(x, k, x.objects[k]);
  }

  /** Keys in order hold snapshots in the order of their issues. */
  lemma {:induction false} SnapshotsOrdered(x: Index, room: string, keys: seq<string>)
    requires IndexOk(x) && Ascending(Before, keys)
    ensures Ascending(IssueBefore, ReadSnapshots(x.objects, room, keys, |keys|))
  {
    hide IndexOk, Before, SnapshotPrefix;
    if keys != [] {
      var k, rest := keys[0], keys[1..];
      SnapshotsOrdered(x, room, rest);
      MoreSnapshots(x.objects, room, rest, |keys|);
      var later := ReadSnapshots(x.objects, room, rest, |rest|);
      var first := SnapshotUnder(x.objects, room, k);
      if first.Some? {
        ShownAt(x, room, k, first.value);
        forall i | 0 <= i < |later| ensures IssueBefore(first.value, later[i]) {
          assert later[i] in later;
          SnapshotsRead(x, room, rest, later[i]);
          var l :| l in rest && Shows(x, room, l, later[i]);
          ShownAt(x, room, l, later[i]);
          BeforePrefix(SnapshotPrefix(room), first.value.issueId, later[i].issueId);
        }
      }
    }
  }

  /** The first snapshots of the room, in the order of their issue ids. */
  lemma SnapshotsComplete(x: Index, room: string, limit: nat)
    requires IndexOk(x) && ValidRoom(room)
    ensures var all := Shown(x.objects, room);
      && LoadSnapshots(x.objects, room, limit) == (if limit <= |all| then all[..limit] else all)
      && Ascending(IssueBefore, all)
      && forall s :: s in all <==> SnapshotAt(x, room, s.issueId) == Some(s)
  {
    hide IndexOk, ReadSnapshots, ValidRoom, SnapshotPrefix, Before;
    var keys := SnapshotKeys(x.objects, room);
    var all := Shown(x.objects, room);
    SnapshotsOrdered(x, room, keys);
    FirstSnapshots(x.objects, room, keys, limit);
    SortOfAscending(IssueBefore, if limit <= |all| then all[..limit] else all);
    forall s ensures s in all <==> SnapshotAt(x, room, s.issueId) == Some(s) {
      SnapshotsRead(x, room, keys, s);
      if SnapshotAt(x, room, s.issueId) == Some(s) {
        SnapshotHeld(x, room, s);
        ShownAt(x, room, SnapshotKey(room, s.issueId), s);
      }
      if k :| k in keys && Shows(x, room, k, s) { ShownAt(x, room, k, s); }
    }
  }

  lemma SnapshotHeld(x: Index, room: string, s: Snapshot)
    requires IndexOk(x) && ValidRoom(room) && SnapshotAt(x, room, s.issueId) == Some(s)
    ensures Shows(x, room, SnapshotKey(room, s.issueId), s)
  {
    hide EventKey, CurrentCursor, ValidRoom, SnapshotKey;
    var k := SnapshotKey(room, s.issueId);
    assert Placed(x, k, x.objects[k]);
    SnapshotKeyInjective(s.room, s.issueId, room, s.issueId);
  }
}
