/** The adapter that writes and reads the issue index (src/relay_cache_adapter.ts), with the retrying
    queue its writes run in (src/cache_persistence_queue.ts). The store's objects are kept typed; each
    write is told by its `Try` whether the store fails. */
module RelayCacheAdapter {
  import opened Arithmetic
  import opened Options
  import opened Ordering
  import opened Sequences
  import opened Text
  import opened CacheExchange
  import opened IssueProjection
  import opened IssueIndex
  import opened IssueSync
  import CacheStore

  // ------------------------------------------------------------ retry delays

  function RetryDelay(base: nat, max: nat, attempt: nat): nat {
    Min(max, base * Pow2(attempt))
  }

  /** Each delay is twice the one before, up to the greatest delay allowed. */
  lemma DelaysDouble(base: nat, max: nat, attempt: nat)
    ensures RetryDelay(base, max, attempt + 1) == Min(max, 2 * RetryDelay(base, max, attempt))
  {
    assert base * (2 * Pow2(attempt)) == 2 * (base * Pow2(attempt));
  }

  lemma FirstDelay(base: nat, max: nat)
    requires base <= max
    ensures RetryDelay(base, max, 0) == base
  {
    assert Pow2(0) == 1;
  }

  class RelayCacheAdapter {
    const settings: Settings
    const maxRetries: nat
    const baseDelay: nat
    const maxDelay: nat
    var issues: map<string, Envelope>
    var objects: map<string, Item>
    var cursors: map<string, nat>

    constructor (settings: Settings, maxRetries: nat, baseDelay: nat, maxDelay: nat)
      ensures this.settings == settings && this.maxRetries == maxRetries
      ensures this.baseDelay == baseDelay && this.maxDelay == Max(baseDelay, maxDelay)
      ensures Contents() == Index(map[], map[], map[])
    {
      this.settings := settings;
      this.maxRetries := maxRetries;
      this.baseDelay := baseDelay;
      this.maxDelay := Max(baseDelay, maxDelay);
      issues, objects, cursors := map[], map[], map[];
    }

    function Contents(): Index
      reads this
    {
      Index(issues, objects, cursors)
    }

    method CurrentIssueCursor(room: string) returns (current: nat)
      modifies this`cursors
      ensures current == CurrentCursor(old(Contents()), room)
      ensures cursors == old(cursors)[room := current]
    {
      var inMemory := if room in cursors then cursors[room] else 0;
      current := Max(inMemory, PersistedCursor(Contents(), room));
      cursors := cursors[room := current];
    }

    method NextIssueCursor(room: string, hint: Option<int>) returns (next: nat)
      modifies this`cursors
      ensures next == NextCursor(old(Contents()), room, hint)
      ensures Contents() == SetCursor(old(Contents()), room, next)
    {
      var current := CurrentIssueCursor(room);
      next := Max(current, if hint.Some? && hint.value > 0 then hint.value - 1 else 0) + 1;
      cursors := cursors[room := next];
      assert old(cursors)[room := current][room := next] == old(cursors)[room := next];
    }

    method PersistIssueProjection(e: Envelope, hint: Option<int>, t: Try) returns (ok: bool)
      requires WellFormed(e)
      modifies this
      ensures Outcome(Contents(), ok) == Project(old(Contents()), settings, e, hint, t)
    {
      hide SnapshotKey, EventKey, CursorKey, NextCursor, Accepts, WellFormed, IssueId, Action, SourceTime;
      var issueId := IssueId(e);
      var time := SourceTime(e.payload, settings.dateMs);
      var cursor := NextIssueCursor(e.room, hint);
      var event := Event(e.room, cursor, issueId, Action(e), e, time, t.now);
      if t.fault == AtEvent(false) {
        return false;
      }
      objects := objects[EventKey(e.room, cursor, e.id) := EventItem(event)];
      if t.fault.AtEvent? {
        return false;
      }
      if Accepts(settings.policy, SnapshotAt(Contents(), e.room, issueId), e, time) {
        if t.fault == AtSnapshot(false) {
          return false;
        }
        objects := objects[SnapshotKey(e.room, issueId) := SnapshotItem(SnapshotOf(event))];
        if t.fault.AtSnapshot? {
          return false;
        }
      }
      if t.fault == AtCursor(false) {
        return false;
      }
      objects := objects[CursorKey(e.room) := CursorItem(e.room, cursor, t.now)];
      ok := !t.fault.AtCursor?;
    }

    /** The task queued for an envelope, once. */
    method RunTask(e: Envelope, hint: Option<int>, t: Try) returns (ok: bool)
      requires WellFormed(e)
      modifies this
      ensures Outcome(Contents(), ok) == Attempt(old(Contents()), settings, e, hint, t)
    {
      hide Project, WellFormed, PlainKey;
      if t.fault == AtPlain(false) {
        return false;
      }
      if IssueTopic(e.topic) {
        issues := issues[PlainKey(e.room, e.id) := e];
      } else {
        objects := objects[PlainKey(e.room, e.id) := PlainItem(e)];
      }
      if t.fault.AtPlain? {
        return false;
      }
      if !IssueTopic(e.topic) {
        return true;
      }
      ok := PersistIssueProjection(e, hint, t);
    }

    /** Tries the task until it succeeds or the retries are used up, waiting longer each time. */
    method PersistEnvelope(e: Envelope, hint: Option<int>, tries: seq<Try>) returns (ok: bool, delays: seq<nat>)
      requires WellFormed(e) && |tries| == maxRetries + 1
      modifies this
      ensures Outcome(Contents(), ok) == Task(old(Contents()), settings, e, hint, tries)
      ensures |delays| <= maxRetries && (!ok ==> |delays| == maxRetries)
      ensures forall i :: 0 <= i < |delays| ==> delays[i] == RetryDelay(baseDelay, maxDelay, i)
    {
      hide Attempt, WellFormed;
      delays := [];
      var attempt := 0;
      while true
        invariant 0 <= attempt <= maxRetries && |delays| == attempt
        invariant forall i :: 0 <= i < |delays| ==> delays[i] == RetryDelay(baseDelay, maxDelay, i)
        invariant Task(Contents(), settings, e, hint, tries[attempt..])
               == Task(old(Contents()), settings, e, hint, tries)
        decreases maxRetries - attempt
      {
        assert tries[attempt..][1..] == tries[attempt + 1..];
        ok := RunTask(e, hint, tries[attempt]);
        if ok || attempt >= maxRetries {
          return;
        }
        delays := delays + [RetryDelay(baseDelay, maxDelay, attempt)];
        attempt := attempt + 1;
      }
    }

    // ---------------------------------------------------------------- reading

    /** A page of the room's keys under a prefix, and where the next page starts. */
    method ListKeys(prefix: string, room: string, offset: nat, limit: nat)
      returns (page: seq<string>, next: Option<nat>)
      requires limit > 0
      ensures page == Slice(Listing(objects, prefix, room), offset, limit)
      ensures var all := |Listing(objects, prefix, room)|;
              next == if offset + |page| < all then Some(offset + |page|) else None
    {
      hide Listing, KeysUnder, Slice;
      var keys := CollectKeys(prefix, room);
      SortedIsListing(keys, objects, prefix, room);
      var sorted := Sort(Before, keys);
      page := Slice(sorted, offset, limit);
      next := if offset + |page| < |sorted| then Some(offset + |page|) else None;
    }

    /** The room's keys under a prefix, each once, in some order. */
    method CollectKeys(prefix: string, room: string) returns (keys: seq<string>)
      ensures Distinct(keys) && forall k :: k in keys <==> k in KeysUnder(objects, prefix, room)
    {
      hide KeysUnder;
      var all := KeysUnder(objects, prefix, room);
      keys := [];
      var todo := all;
      while todo != {}
        invariant todo <= all && Distinct(keys)
        invariant forall k :: k in keys <==> k in all && k !in todo
        decreases |todo|
      {
        var k :| k in todo;
        keys := keys + [k];
        todo := todo - {k};
      }
    }

    method LoadIssueEvents(room: string, after: nat, limit: nat) returns (loaded: Loaded)
      requires limit > 0
      ensures loaded == Load(objects, room, after, limit)
    {
      hide Listing, ReadEvents, Load, SortByCursor, EventPrefix;
      var pageSize := Max(100, 2 * limit);
      ghost var listing := Listing(objects, EventPrefix(room), room);
      var events: seq<Event> := [];
      assert listing[0..] == listing;
      var offset := 0;
      var more := true;
      while more && |events| < limit
        invariant 0 <= offset <= |listing| && |events| <= limit
        invariant more || |events| == limit || offset == |listing|
        invariant events + ReadEvents(objects, room, after, listing[offset..], limit - |events|)
               == ReadEvents(objects, room, after, listing, limit)
        decreases |listing| - offset, more
      {
        var page, next := ListKeys(EventPrefix(room), room, offset, pageSize);
        events := ScanPage(room, after, limit, page, events, listing[offset..]);
        assert listing[offset..][|page|..] == listing[offset + |page|..];
        offset := offset + |page|;
        more := next.Some?;
      }
      NothingRead(objects, room, after, listing[offset..], limit - |events|);
      assert events + [] == events;
      LoadIs(objects, room, after, limit);
      var sorted := SortByCursor(events);
      loaded := Loaded(sorted, if sorted == [] then after else sorted[|sorted| - 1].cursor);
    }

    /** Adds the page's eligible events until there are enough. */
    method ScanPage(room: string, after: nat, limit: nat, page: seq<string>, events: seq<Event>,
                    ghost rest: seq<string>)
      returns (all: seq<Event>)
      requires page <= rest && |events| <= limit
      ensures |all| <= limit
      ensures all + ReadEvents(objects, room, after, rest[|page|..], limit - |all|)
           == events + ReadEvents(objects, room, after, rest, limit - |events|)
    {
      hide EventUnder;
      all := events;
      for i := 0 to |page|
        invariant |all| <= limit
        invariant all + ReadEvents(objects, room, after, rest[i..], limit - |all|)
               == events + ReadEvents(objects, room, after, rest, limit - |events|)
      {
        assert rest[i] == page[i] && rest[i..][1..] == rest[i + 1..];
        var e := EventUnder(objects, room, after, page[i]);
        if |all| < limit && e.Some? {
          ConcatAssociative(all, [e.value], ReadEvents(objects, room, after, rest[i + 1..], limit - |all| - 1));
          all := all + [e.value];
        }
      }
    }

    method LoadIssueSnapshots(room: string, limit: nat) returns (snapshots: seq<Snapshot>)
      requires limit > 0
      ensures snapshots == LoadSnapshots(objects, room, limit)
    {
      hide Listing, ReadSnapshots, Sort;
      var pageSize := Max(100, limit);
      ghost var listing := SnapshotKeys(objects, room);
      snapshots := [];
      assert listing[0..] == listing;
      var offset := 0;
      var more := true;
      while more && |snapshots| < limit
        invariant 0 <= offset <= |listing| && |snapshots| <= limit
        invariant more || |snapshots| == limit || offset == |listing|
        invariant snapshots + ReadSnapshots(objects, room, listing[offset..], limit - |snapshots|)
               == ReadSnapshots(objects, room, listing, limit)
        decreases |listing| - offset, more
      {
        var page, next := ListKeys(SnapshotPrefix(room), room, offset, pageSize);
        snapshots := TakeSnapshots(room, limit, page, snapshots, listing[offset..]);
        assert listing[offset..][|page|..] == listing[offset + |page|..];
        offset := offset + |page|;
        more := next.Some?;
      }
      NoneRead(objects, room, listing[offset..], limit - |snapshots|);
      assert snapshots + [] == snapshots;
      snapshots := Sort(IssueBefore, snapshots);
    }

    /** Adds the page's snapshots until there are enough. */
    method TakeSnapshots(room: string, limit: nat, page: seq<string>, snapshots: seq<Snapshot>, ghost rest: seq<string>)
      returns (all: seq<Snapshot>)
      requires page <= rest && |snapshots| <= limit
      ensures |all| <= limit
      ensures all + ReadSnapshots(objects, room, rest[|page|..], limit - |all|)
           == snapshots + ReadSnapshots(objects, room, rest, limit - |snapshots|)
    {
      hide SnapshotUnder;
      all := snapshots;
      for i := 0 to |page|
        invariant |all| <= limit
        invariant all + ReadSnapshots(objects, room, rest[i..], limit - |all|)
               == snapshots + ReadSnapshots(objects, room, rest, limit - |snapshots|)
      {
        assert rest[i] == page[i] && rest[i..][1..] == rest[i + 1..];
        var s := SnapshotUnder(objects, room, page[i]);
        if |all| < limit && s.Some? {
          ConcatAssociative(all, [s.value], ReadSnapshots(objects, room, rest[i + 1..], limit - |all| - 1));
          all := all + [s.value];
        }
      }
    }

    /** The events after a cursor, the room's snapshots, and its current cursor. */
    method SyncIssues(room: string, after: int, limit: int, snapshotLimit: int)
      returns (loaded: Loaded, snapshots: seq<Snapshot>, roomCursor: nat)
      modifies this`cursors
      ensures loaded == Load(old(objects), room, if after < 0 then 0 else after, Max(1, limit))
      ensures snapshots == LoadSnapshots(old(objects), room, Max(1, snapshotLimit))
      ensures roomCursor == CurrentCursor(old(Contents()), room) && cursors == old(cursors)[room := roomCursor]
    {
      hide Load, CurrentCursor, LoadSnapshots;
      loaded := LoadIssueEvents(room, if after < 0 then 0 else after, Max(1, limit));
      snapshots := LoadIssueSnapshots(room, Max(1, snapshotLimit));
      roomCursor := CurrentIssueCursor(room);
    }
  }

  lemma NothingRead(os: Objects, room: string, after: nat, keys: seq<string>, limit: nat)
    requires keys == [] || limit == 0
    ensures ReadEvents(os, room, after, keys, limit) == []
  {}

  lemma LoadIs(os: Objects, room: string, after: nat, limit: nat)
    ensures var sorted := SortByCursor(ReadEvents(os, room, after, Listing(os, EventPrefix(room), room), limit));
      Load(os, room, after, limit) == Loaded(sorted, if sorted == [] then after else sorted[|sorted| - 1].cursor)
  {
    hide ReadEvents, Listing, SortByCursor;
  }

  lemma NoneRead(os: Objects, room: string, keys: seq<string>, limit: nat)
    requires keys == [] || limit == 0
    ensures ReadSnapshots(os, room, keys, limit) == []
  {}

  lemma SortedIsListing(keys: seq<string>, os: Objects, prefix: string, room: string)
    requires Distinct(keys) && forall k :: k in keys <==> k in KeysUnder(os, prefix, room)
    ensures Sort(Before, keys) == Listing(os, prefix, room)
  {
    hide KeysUnder;
    BeforeIsOrder();
    SortOrderFree(Before, keys, CacheStore.Enumerate(KeysUnder(os, prefix, room)));
  }
}
