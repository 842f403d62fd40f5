/** Envelopes stored under their own key "<room>/<id>" share the store with the issue index
    (src/relay_cache_adapter.ts:379-390). In the room called "issue" an id can spell a key of the index; this module
    says which ids do, and what storing such an envelope takes away. */
module IssueOverwrite {
  import opened Options
  import opened Json
  import opened Text
  import opened CacheExchange
  import opened IssueProjection
  import opened IssueIndex

  // ----------------------------------------------------------------- reserved ids

  const EVENTS := "events/"
  const SNAPSHOTS := "snapshots/"
  const CURSORS := "cursors/"

  /** Digits as an event key prints a positive cursor. */
  predicate PaddedCursor(s: string) {
    AllDigits(s) && ParseNat(s) > 0 && s == PadStart(Decimal(ParseNat(s)))
  }

  /** `events/<room>/<cursor>-<id>` */
  predicate EventForm(id: string) {
    && EVENTS <= id
    && var (room, rest) := CutAt(id[|EVENTS|..], '/');
       var (digits, name) := CutAt(rest, '-');
       '/' in id[|EVENTS|..] && ValidRoom(room) && '-' in rest && PaddedCursor(digits) && Name(name)
  }

  /** `snapshots/<room>/<issue>` */
  predicate SnapshotForm(id: string) {
    && SNAPSHOTS <= id
    && var (room, issueId) := CutAt(id[|SNAPSHOTS|..], '/');
       '/' in id[|SNAPSHOTS|..] && ValidRoom(room) && Name(issueId)
  }

  /** `cursors/<room>` */
  predicate CursorForm(id: string) {
    CURSORS <= id && ValidRoom(id[|CURSORS|..])
  }

  /** The envelope's own key is one the index uses. */
  predicate Reserved(e: Envelope) {
    !IssueTopic(e.topic) && e.room == "issue" && (EventForm(e.id) || SnapshotForm(e.id) || CursorForm(e.id))
  }

  function EventId(room: string, cursor: nat, name: string): string {
    EVENTS + (room + ['/'] + (PadStart(Decimal(cursor)) + ['-'] + name))
  }

  lemma EventIdKey(room: string, cursor: nat, name: string)
    ensures PlainKey("issue", EventId(room, cursor, name)) == EventKey(room, cursor, name)
  {
    hide Decimal, PadStart;
    var digits := PadStart(Decimal(cursor));
    assert "issue" + ['/'] + EVENTS == "issue/events/";
    ConcatAssociative("issue" + ['/'], EVENTS, room + ['/'] + (digits + ['-'] + name));
    ConcatAssociative("issue/events/", room + ['/'], digits + ['-'] + name);
    ConcatAssociative(digits, ['-'], name);
    ConcatAssociative("issue/events/", room, ['/']);
  }

  lemma SnapshotIdKey(room: string, issueId: string)
    ensures PlainKey("issue", SNAPSHOTS + (room + ['/'] + issueId)) == SnapshotKey(room, issueId)
  {
    assert "issue" + ['/'] + SNAPSHOTS == "issue/snapshots/";
    ConcatAssociative("issue" + ['/'], SNAPSHOTS, room + ['/'] + issueId);
    ConcatAssociative("issue/snapshots/", room + ['/'], issueId);
    ConcatAssociative("issue/snapshots/", room, ['/']);
  }

  lemma CursorIdKey(room: string)
    ensures PlainKey("issue", CURSORS + room) == CursorKey(room)
  {
    assert "issue" + ['/'] + CURSORS == "issue/cursors/";
    ConcatAssociative("issue" + ['/'], CURSORS, room);
  }

  lemma OwnKeyInjective(a: string, b: string)
    requires PlainKey("issue", a) == PlainKey("issue", b)
    ensures a == b
  {
    PrefixInjective("issue" + ['/'], a, b);
  }

  lemma EventIdForm(room: string, cursor: nat, name: string)
    requires ValidRoom(room) && cursor > 0 && Name(name)
    ensures EventForm(EventId(room, cursor, name))
  {
    hide Decimal, PadStart, ValidRoom, Name, CutAt;
    var digits := PadStart(Decimal(cursor));
    var rest := digits + ['-'] + name;
    var id := EventId(room, cursor, name);
    RoomHasNoSlash(room);
    PadStartDigits(cursor);
    CutAtConcat(room, rest, '/');
    CutAtConcat(digits, name, '-');
    assert id[|EVENTS|..] == room + ['/'] + rest;
    assert rest[|digits|] == '-' && (room + ['/'] + rest)[|room|] == '/';
  }

  lemma SnapshotIdForm(room: string, issueId: string)
    requires ValidRoom(room) && Name(issueId)
    ensures SnapshotForm(SNAPSHOTS + (room + ['/'] + issueId))
  {
    hide ValidRoom, Name, CutAt;
    RoomHasNoSlash(room);
    CutAtConcat(room, issueId, '/');
    assert (SNAPSHOTS + (room + ['/'] + issueId))[|SNAPSHOTS|..] == room + ['/'] + issueId;
    assert (room + ['/'] + issueId)[|room|] == '/';
  }

  lemma EventFormId(id: string)
    requires EventForm(id)
    ensures exists room, cursor: nat, name ::
              ValidRoom(room) && cursor > 0 && Name(name) && id == EventId(room, cursor, name)
  {
    hide Decimal, PadStart, ValidRoom, Name, CutAt;
    var (room, rest) := CutAt(id[|EVENTS|..], '/');
    var (digits, name) := CutAt(rest, '-');
    CutAtJoins(id[|EVENTS|..], '/');
    CutAtJoins(rest, '-');
    assert id == EVENTS + id[|EVENTS|..];
    assert id == EventId(room, ParseNat(digits), name);
  }

  lemma SnapshotFormId(id: string)
    requires SnapshotForm(id)
    ensures exists room, issueId :: ValidRoom(room) && Name(issueId) && id == SNAPSHOTS + (room + ['/'] + issueId)
  {
    hide ValidRoom, Name, CutAt;
    var (room, issueId) := CutAt(id[|SNAPSHOTS|..], '/');
    CutAtJoins(id[|SNAPSHOTS|..], '/');
    assert id == SNAPSHOTS + id[|SNAPSHOTS|..];
    assert id == SNAPSHOTS + (room + ['/'] + issueId);
  }

  /** Whatever part of an index an envelope's own key holds, its id spells that part's key. */
  lemma ShadowedIsReserved(x: Index, e: Envelope)
    requires IndexOk(x) && ValidRoom(e.room) && Shadows(x, e)
    ensures Reserved(e)
  {
    hide ValidRoom, Name, EventKey, SnapshotKey, CursorKey, CurrentCursor, EventForm, SnapshotForm, CursorForm, EventId;
    var k := PlainKey(e.room, e.id);
    assert Placed(x, k, x.objects[k]);
    PlainKeyApart(e.room, e.id);
    match x.objects[k]
    case EventItem(f) =>
      KindsOfKeyDiffer(f.room, f.cursor, f.envelope.id, "", "", "");
      EventIdKey(f.room, f.cursor, f.envelope.id);
      OwnKeyInjective(e.id, EventId(f.room, f.cursor, f.envelope.id));
      EventIdForm(f.room, f.cursor, f.envelope.id);
    case SnapshotItem(s) =>
      KindsOfKeyDiffer("", 0, "", s.room, s.issueId, "");
      SnapshotIdKey(s.room, s.issueId);
      OwnKeyInjective(e.id, SNAPSHOTS + (s.room + ['/'] + s.issueId));
      SnapshotIdForm(s.room, s.issueId);
    case CursorItem(room, _, _) =>
      KindsOfKeyDiffer("", 0, "", "", "", room);
      CursorIdKey(room);
      OwnKeyInjective(e.id, CURSORS + room);
      CursorIdForm(room);
    case PlainItem(_) =>
  }

  lemma CursorIdForm(room: string)
    requires ValidRoom(room)
    ensures CursorForm(CURSORS + room)
  {
    hide ValidRoom;
    assert (CURSORS + room)[|CURSORS|..] == room;
  }

  // ---------------------------------------------------- one task fills the index

  const EMPTY_INDEX := Index(map[], map[], map[])

  lemma EmptyIndexAgrees(p: Policy)
    ensures IndexOk(EMPTY_INDEX) && Agrees(EMPTY_INDEX, p)
  {
    var x := EMPTY_INDEX;
    forall room, issueId | ValidRoom(room) ensures AgreesAt(x, p, room, issueId) {
      assert Logged(x, room, issueId) == {};
    }
  }

  /** An envelope about an issue named like itself. */
  function Report(room: string, id: string): Envelope {
    Envelope(room, id, "s", "issue", Null, None)
  }

  function FirstTask(s: Settings, e: Envelope, hint: Option<int>): Index
    requires WellFormed(e)
  {
    Task(EMPTY_INDEX, s, e, hint, [Try(0, NoFault)]).index
  }

  lemma ReportHolds(s: Settings, room: string, id: string, hint: Option<int>)
    requires ValidRoom(room) && Name(id)
    ensures var e := Report(room, id);
      && WellFormed(e) && IssueTopic(e.topic) && IssueId(e) == id
      && var os := FirstTask(s, e, hint).objects;
         var c := if hint.Some? && hint.value > 0 then hint.value else 1;
         && EventKey(room, c, id) in os && SnapshotKey(room, id) in os && CursorKey(room) in os
         && forall k :: k in os ==> !os[k].PlainItem?
  {
    hide EventKey, SnapshotKey, CursorKey, ValidRoom, Action, SourceTime, SourceOf;
    var e := Report(room, id);
    ReportIssue(room, id);
    var x := PutPlain(EMPTY_INDEX, e);
    assert x.objects == map[] && x.cursors == map[];
    assert PersistedCursor(x, room) == 0;
    var event := NewEvent(x, s, e, hint, 0);
    var out := Project(x, s, e, hint, Try(0, NoFault));
    KindsOfKeyDiffer(room, event.cursor, id, room, id, room);
    assert SnapshotAt(PutEvent(SetCursor(x, room, event.cursor), event), room, id).None?;
    assert FirstTask(s, e, hint) == out.index;
  }

  lemma ReportIssue(room: string, id: string)
    requires ValidRoom(room) && Name(id)
    ensures var e := Report(room, id); WellFormed(e) && IssueTopic(e.topic) && IssueId(e) == id
  {
    hide ValidRoom, Name;
    SingleName();
  }

  /** A reserved id is reached: after one task from the empty index the envelope's own key holds part of the index. */
  lemma ReservedIsReached(s: Settings, e: Envelope)
    requires Reserved(e)
    ensures exists seed: Envelope, hint: Option<int> ::
              WellFormed(seed) && IssueTopic(seed.topic) && Shadows(FirstTask(s, seed, hint), e)
  {
    hide ValidRoom, Name, EventKey, SnapshotKey, CursorKey;
    hide EventForm, SnapshotForm, EventId, FirstTask, IssueTopic, WellFormed;
    if EventForm(e.id) {
      EventFormId(e.id);
      var room, cursor: nat, name :|
        ValidRoom(room) && cursor > 0 && Name(name) && e.id == EventId(room, cursor, name);
      EventIdKey(room, cursor, name);
      ReportHolds(s, room, name, Some(cursor));
      assert Shadows(FirstTask(s, Report(room, name), Some(cursor)), e);
    } else if SnapshotForm(e.id) {
      SnapshotFormId(e.id);
      var room, issueId :| ValidRoom(room) && Name(issueId) && e.id == SNAPSHOTS + (room + ['/'] + issueId);
      SnapshotIdKey(room, issueId);
      ReportHolds(s, room, issueId, None);
      assert Shadows(FirstTask(s, Report(room, issueId), None), e);
    } else {
      var room := e.id[|CURSORS|..];
      assert e.id == CURSORS + room;
      CursorIdKey(room);
      SingleName();
      ReportHolds(s, room, "m", None);
      assert Shadows(FirstTask(s, Report(room, "m"), None), e);
    }
  }

  lemma SingleName()
    ensures Name("m") && Name("s")
  {}

  lemma FirstTaskOk(s: Settings, e: Envelope, hint: Option<int>)
    requires WellFormed(e) && IssueTopic(e.topic)
    ensures IndexOk(FirstTask(s, e, hint))
  {
    hide IndexOk, Project, PutPlain, Shadows, SourceTime, WellFormed, Agrees, IssueTopic, Changes, Accepts;
    EmptyIndexAgrees(s.policy);
    NeverShadows(EMPTY_INDEX, e);
    PutPlainKeeps(EMPTY_INDEX, e);
    ProjectChanges(PutPlain(EMPTY_INDEX, e), s, e, hint, Try(0, NoFault));
  }

  // ------------------------------------------------------------ what is overwritten

  lemma OverwriteLogged(x: Index, k: string, e: Envelope, room: string, issueId: string)
    requires CursorsUnique(x) && k in x.objects
    ensures Logged(Write(x, k, PlainItem(e)), room, issueId)
         == Logged(x, room, issueId) - EventsIn(x.objects[k], room, issueId)
  {
    var y := Write(x, k, PlainItem(e));
    forall f | f in Logged(x, room, issueId) - EventsIn(x.objects[k], room, issueId)
      ensures f in Logged(y, room, issueId) {
      var l :| l in x.objects && x.objects[l].EventItem? && x.objects[l].event == f;
      assert y.objects[l] == x.objects[l];
    }
    forall f | f in Logged(y, room, issueId)
      ensures f in Logged(x, room, issueId) - EventsIn(x.objects[k], room, issueId) {
      var l :| l in y.objects && y.objects[l].EventItem? && y.objects[l].event == f;
      assert l != k && y.objects[l] == x.objects[l];
      assert HoldsEvent(x, l);
      if x.objects[k].EventItem? && x.objects[k].event == f {
        assert HoldsEvent(x, k) && SameCursor(f, f);
      }
    }
  }

  lemma OverwriteSnapshot(x: Index, k: string, e: Envelope, room: string, issueId: string)
    ensures SnapshotAt(Write(x, k, PlainItem(e)), room, issueId)
         == if k == SnapshotKey(room, issueId) then None else SnapshotAt(x, room, issueId)
  {
    hide SnapshotKey;
  }

  lemma OverwriteCursor(x: Index, k: string, e: Envelope, room: string)
    ensures PersistedCursor(Write(x, k, PlainItem(e)), room)
         == if k == CursorKey(room) then 0 else PersistedCursor(x, room)
  {
    hide CursorKey;
  }

  /** The cursor held in memory covers everything indexed for the room. */
  ghost predicate Remembered(x: Index, room: string) {
    forall k :: k in x.objects ==> Covered(x.objects[k], room, if room in x.cursors then x.cursors[room] else 0)
  }

  predicate Covered(item: Item, room: string, c: nat) {
    match item
    case EventItem(e) => e.room == room ==> e.cursor <= c
    case SnapshotItem(s) => s.room == room ==> s.lastCursor <= c
    case _ => true
  }

  /** Without its events and snapshots, or its record of a cursor that is also remembered, an index is still well
      formed. */
  lemma OverwriteOk(x: Index, k: string, e: Envelope)
    requires IndexOk(x) && k in x.objects
    ensures var item := x.objects[k];
      IndexOk(Write(x, k, PlainItem(e))) <==> (item.CursorItem? ==> Remembered(x, item.room))
  {
    hide EventKey, SnapshotKey, CursorKey, ValidRoom, Name, PersistedCursor;
    var y, item := Write(x, k, PlainItem(e)), x.objects[k];
    assert Placed(x, k, item);
    forall l | l in x.objects && l != k ensures Placed(x, l, x.objects[l]) && y.objects[l] == x.objects[l] {}
    forall room | !(item.CursorItem? && room == item.room) ensures CurrentCursor(y, room) == CurrentCursor(x, room) {
      OverwriteCursor(x, k, e, room);
      if k == CursorKey(room) { KeyOfCursor(x, k, room); }
    }
    if item.CursorItem? {
      OverwriteCursor(x, k, e, item.room);
      if IndexOk(y) {
        forall l | l in x.objects
          ensures Covered(x.objects[l], item.room, if item.room in x.cursors then x.cursors[item.room] else 0) {
          if l != k { assert Placed(y, l, y.objects[l]); }
        }
      }
    }
    if item.CursorItem? ==> Remembered(x, item.room) {
      forall l | l in y.objects ensures Placed(y, l, y.objects[l]) {
        if item.CursorItem? && l != k {
          assert Covered(x.objects[l], item.room, if item.room in x.cursors then x.cursors[item.room] else 0);
        }
      }
    }
  }

  /** Only a cursor record lies under a cursor key. */
  lemma KeyOfCursor(x: Index, k: string, room: string)
    requires IndexOk(x) && k in x.objects && k == CursorKey(room)
    ensures x.objects[k].CursorItem? ==> x.objects[k].room == room
    ensures x.objects[k].CursorItem? || (x.objects[k].PlainItem? && PersistedCursor(x, room) == 0)
  {
    hide EventKey, SnapshotKey, CursorKey, ValidRoom, Name, CurrentCursor;
    assert Placed(x, k, x.objects[k]);
    match x.objects[k]
    case EventItem(f) => KindsOfKeyDiffer(f.room, f.cursor, f.envelope.id, "", "", room);
    case SnapshotItem(s) => KindsOfKeyDiffer("", 0, "", s.room, s.issueId, room);
    case CursorItem(q, _, _) => CursorKeyInjective(q, room);
    case PlainItem(_) =>
  }

  /** An event overwritten is gone from its log, and nothing else changes. */
  lemma EventOverwritten(x: Index, e: Envelope, event: Event)
    requires IndexOk(x) && Shadows(x, e) && x.objects[PlainKey(e.room, e.id)] == EventItem(event)
    ensures var y := PutPlain(x, e);
      && IndexOk(y) && event in Logged(x, event.room, event.issueId)
      && (forall room, issueId ::
           Logged(y, room, issueId) == Logged(x, room, issueId) - EventsIn(EventItem(event), room, issueId))
      && (forall room, issueId :: ValidRoom(room) ==> SnapshotAt(y, room, issueId) == SnapshotAt(x, room, issueId))
  {
    hide EventKey, SnapshotKey, CurrentCursor, Name, ValidRoom, Logged, SnapshotAt;
    var k := PlainKey(e.room, e.id);
    var y := Write(x, k, PlainItem(e));
    assert PutPlain(x, e) == y;
    OverwriteOk(x, k, e);
    HeldIsLogged(x, k);
    forall room, issueId
      ensures Logged(y, room, issueId) == Logged(x, room, issueId) - EventsIn(EventItem(event), room, issueId) {
      OverwriteLogged(x, k, e, room, issueId);
    }
    forall room, issueId | ValidRoom(room) ensures SnapshotAt(y, room, issueId) == SnapshotAt(x, room, issueId) {
      OverwriteSnapshot(x, k, e, room, issueId);
      assert Placed(x, k, x.objects[k]);
      KindsOfKeyDiffer(event.room, event.cursor, event.envelope.id, room, issueId, "");
    }
  }

  lemma HeldIsLogged(x: Index, k: string)
    requires HoldsEvent(x, k)
    ensures x.objects[k].event in Logged(x, x.objects[k].event.room, x.objects[k].event.issueId)
  {}

  /** A snapshot overwritten is gone while its log stays. */
  lemma SnapshotOverwritten(x: Index, e: Envelope, s: Snapshot)
    requires IndexOk(x) && Shadows(x, e) && x.objects[PlainKey(e.room, e.id)] == SnapshotItem(s)
    ensures var y := PutPlain(x, e);
      && IndexOk(y) && ValidRoom(s.room) && SnapshotAt(x, s.room, s.issueId) == Some(s)
      && (forall room, issueId :: Logged(y, room, issueId) == Logged(x, room, issueId))
      && (forall room, issueId :: ValidRoom(room) ==>
           SnapshotAt(y, room, issueId)
           == if room == s.room && issueId == s.issueId then None else SnapshotAt(x, room, issueId))
  {
    hide EventKey, SnapshotKey, CurrentCursor, Name, ValidRoom, Logged;
    var k := PlainKey(e.room, e.id);
    var y := Write(x, k, PlainItem(e));
    assert PutPlain(x, e) == y;
    OverwriteOk(x, k, e);
    assert Placed(x, k, x.objects[k]);
    forall room, issueId ensures Logged(y, room, issueId) == Logged(x, room, issueId) {
      OverwriteLogged(x, k, e, room, issueId);
    }
    forall room, issueId | ValidRoom(room)
      ensures SnapshotAt(y, room, issueId)
           == if room == s.room && issueId == s.issueId then None else SnapshotAt(x, room, issueId) {
      OverwriteSnapshot(x, k, e, room, issueId);
      if k == SnapshotKey(room, issueId) { SnapshotKeyInjective(s.room, s.issueId, room, issueId); }
    }
  }

  /** A cursor record overwritten leaves logs and snapshots, but the room's cursor is then held in memory only: a
      restart starts it again from one, and if the room holds an event the index is not well formed after it. */
  lemma CursorOverwritten(x: Index, e: Envelope, room: string)
    requires IndexOk(x) && Shadows(x, e)
    requires var item := x.objects[PlainKey(e.room, e.id)]; item.CursorItem? && item.room == room
    ensures var y := PutPlain(x, e);
      && SameIndex(x, y) && (IndexOk(y) <==> Remembered(x, room))
      && PersistedCursor(x, room) > 0 && PersistedCursor(y, room) == 0 && NextCursor(Restart(y), room, None) == 1
      && ((exists k :: HoldsEvent(x, k) && x.objects[k].event.room == room) ==> !IndexOk(Restart(y)))
  {
    hide EventKey, SnapshotKey, CursorKey, Name, ValidRoom, Logged, SnapshotAt;
    var k := PlainKey(e.room, e.id);
    var y := Write(x, k, PlainItem(e));
    assert PutPlain(x, e) == y;
    OverwriteOk(x, k, e);
    assert Placed(x, k, x.objects[k]);
    OverwriteCursor(x, k, e, room);
    CursorWriteKeeps(x, k, e);
    if l :| HoldsEvent(x, l) && x.objects[l].event.room == room {
      assert Placed(x, l, x.objects[l]);
      assert y.objects[l] == x.objects[l];
      assert !Placed(Restart(y), l, y.objects[l]);
    }
  }

  lemma CursorWriteKeeps(x: Index, k: string, e: Envelope)
    requires IndexOk(x) && k in x.objects && x.objects[k].CursorItem?
    ensures SameIndex(x, Write(x, k, PlainItem(e)))
  {
    hide EventKey, SnapshotKey, CursorKey, Name, ValidRoom, Logged, SnapshotAt, CurrentCursor;
    assert Placed(x, k, x.objects[k]);
    forall room, issueId | ValidRoom(room)
      ensures Logged(x, room, issueId) == Logged(Write(x, k, PlainItem(e)), room, issueId)
      ensures SnapshotAt(x, room, issueId) == SnapshotAt(Write(x, k, PlainItem(e)), room, issueId) {
      OverwriteLogged(x, k, e, room, issueId);
      OverwriteSnapshot(x, k, e, room, issueId);
      KindsOfKeyDiffer("", 0, "", room, issueId, x.objects[k].room);
    }
  }

  // ---------------------------------------------------------------- when it is harmless

  /** Storing the envelope takes nothing from the index. */
  ghost predicate Harmless(x: Index, e: Envelope) {
    var y := PutPlain(x, e);
    IndexOk(y) && SameIndex(x, y) && forall room :: PersistedCursor(y, room) == PersistedCursor(x, room)
  }

  /** Logs and snapshots stay exactly when the envelope's key holds no event and no snapshot. */
  lemma PlainKeepsIff(x: Index, e: Envelope)
    requires IndexOk(x)
    ensures SameIndex(x, PutPlain(x, e)) <==> (Shadows(x, e) ==> x.objects[PlainKey(e.room, e.id)].CursorItem?)
    ensures Harmless(x, e) <==> !Shadows(x, e)
  {
    hide IndexOk, SameIndex, PersistedCursor, PutPlain, PlainKey, Remembered, Logged, SnapshotAt;
    if Shadows(x, e) {
      match x.objects[PlainKey(e.room, e.id)]
      case EventItem(event) => EventOverwritten(x, e, event); EventGone(x, PutPlain(x, e), event);
      case SnapshotItem(s) => SnapshotOverwritten(x, e, s); SnapshotGone(x, PutPlain(x, e), s);
      case CursorItem(room, _, _) => CursorOverwritten(x, e, room);
    } else {
      PutPlainKeeps(x, e);
      forall room ensures PersistedCursor(PutPlain(x, e), room) == PersistedCursor(x, room) {
        PersistedStays(x, e, room);
      }
    }
  }

  lemma PersistedStays(x: Index, e: Envelope, room: string)
    requires !Shadows(x, e)
    ensures PersistedCursor(PutPlain(x, e), room) == PersistedCursor(x, room)
  {
    hide CursorKey;
  }

  lemma EventGone(x: Index, y: Index, event: Event)
    requires IndexOk(x) && event in Logged(x, event.room, event.issueId)
    requires event !in Logged(y, event.room, event.issueId)
    ensures !SameIndex(x, y)
  {
    hide EventKey, CurrentCursor, ValidRoom;
    var k :| k in x.objects && x.objects[k].EventItem? && x.objects[k].event == event;
    assert Placed(x, k, x.objects[k]);
  }

  lemma SnapshotGone(x: Index, y: Index, s: Snapshot)
    requires ValidRoom(s.room) && SnapshotAt(x, s.room, s.issueId) != SnapshotAt(y, s.room, s.issueId)
    ensures !SameIndex(x, y)
  {
    hide SnapshotAt, ValidRoom;
  }

  /** An envelope is harmless in every well-formed index exactly when its id is not reserved. */
  lemma HarmlessIffUnreserved(e: Envelope)
    requires WellFormed(e)
    ensures (forall x: Index :: IndexOk(x) ==> Harmless(x, e)) <==> !Reserved(e)
  {
    hide IndexOk, Harmless, Shadows, Reserved, WellFormed, FirstTask;
    if Reserved(e) {
      var s := Settings(LastWrite, _ => None);
      ReservedIsReached(s, e);
      var seed: Envelope, hint: Option<int> :|
        WellFormed(seed) && IssueTopic(seed.topic) && Shadows(FirstTask(s, seed, hint), e);
      FirstTaskOk(s, seed, hint);
      PlainKeepsIff(FirstTask(s, seed, hint), e);
    } else {
      RoomIsValid(e);
      forall x: Index | IndexOk(x) ensures Harmless(x, e) {
        PlainKeepsIff(x, e);
        if Shadows(x, e) { ShadowedIsReserved(x, e); }
      }
    }
  }

  // ------------------------------------------------------------------- agreement

  /** After the envelope is stored under its own key, the index is well formed and every snapshot is still the fold
      of its log. */
  ghost predicate StaysAgreed(x: Index, p: Policy, e: Envelope)
    requires IndexOk(x)
  {
    var k := PlainKey(e.room, e.id);
    Shadows(x, e) ==>
      match x.objects[k]
      case EventItem(event) => FoldsAlike(x, p, event)
      case SnapshotItem(_) => false
      case CursorItem(room, _, _) => Remembered(x, room)
      case PlainItem(_) => true
  }

  /** The fold of the event's log is the same without the event. */
  ghost predicate FoldsAlike(x: Index, p: Policy, event: Event)
    requires IndexOk(x)
  {
    var log := Logged(x, event.room, event.issueId);
    LoggedUnique(x, event.room, event.issueId);
    Fold(p, log - {event}) == Fold(p, log)
  }

  lemma OverwriteAgreement(x: Index, p: Policy, e: Envelope)
    requires IndexOk(x) && Agrees(x, p)
    ensures var y := PutPlain(x, e); IndexOk(y) && Agrees(y, p) <==> StaysAgreed(x, p, e)
  {
    hide IndexOk, SameIndex, PersistedCursor, PutPlain, PlainKey, Remembered, Logged, SnapshotAt, Agrees, FoldsAlike;
    var y := PutPlain(x, e);
    if Shadows(x, e) {
      match x.objects[PlainKey(e.room, e.id)]
      case EventItem(event) => EventOverwritten(x, e, event); LostEventAgreement(x, y, p, event);
      case SnapshotItem(s) => SnapshotOverwritten(x, e, s); LostSnapshotDisagrees(x, y, p, s);
      case CursorItem(room, _, _) => CursorOverwritten(x, e, room); if IndexOk(y) { SameAgrees(x, y, p); }
    } else {
      PutPlainKeeps(x, e);
      SameAgrees(x, y, p);
    }
  }

  lemma SameAgrees(x: Index, y: Index, p: Policy)
    requires IndexOk(x) && IndexOk(y) && SameIndex(x, y) && Agrees(x, p)
    ensures Agrees(y, p)
  {
    hide Fold, Logged, SnapshotAt, IndexOk, ValidRoom;
    forall room, issueId | ValidRoom(room) ensures AgreesAt(y, p, room, issueId) {
      assert AgreesAt(x, p, room, issueId);
    }
  }

  lemma LostEventAgreement(x: Index, y: Index, p: Policy, event: Event)
    requires IndexOk(x) && IndexOk(y) && Agrees(x, p) && event in Logged(x, event.room, event.issueId)
    requires forall room, issueId ::
               Logged(y, room, issueId) == Logged(x, room, issueId) - EventsIn(EventItem(event), room, issueId)
    requires forall room, issueId :: ValidRoom(room) ==> SnapshotAt(y, room, issueId) == SnapshotAt(x, room, issueId)
    ensures Agrees(y, p) <==> FoldsAlike(x, p, event)
  {
    EventRoom(x, event);
    hide Fold, Logged, SnapshotAt, IndexOk, ValidRoom;
    assert AgreesAt(x, p, event.room, event.issueId);
    if FoldsAlike(x, p, event) {
      forall room, issueId | ValidRoom(room) ensures AgreesAt(y, p, room, issueId) {
        assert AgreesAt(x, p, room, issueId);
        if !(room == event.room && issueId == event.issueId) {
          assert Logged(y, room, issueId) == Logged(x, room, issueId);
        }
      }
    } else {
      assert !AgreesAt(y, p, event.room, event.issueId);
    }
  }

  lemma EventRoom(x: Index, event: Event)
    requires IndexOk(x) && event in Logged(x, event.room, event.issueId)
    ensures ValidRoom(event.room)
  {
    hide EventKey, CurrentCursor, ValidRoom;
    var k :| k in x.objects && x.objects[k].EventItem? && x.objects[k].event == event;
    assert Placed(x, k, x.objects[k]);
  }

  lemma LostSnapshotDisagrees(x: Index, y: Index, p: Policy, s: Snapshot)
    requires IndexOk(x) && IndexOk(y) && Agrees(x, p) && ValidRoom(s.room)
    requires Logged(y, s.room, s.issueId) == Logged(x, s.room, s.issueId)
    requires SnapshotAt(x, s.room, s.issueId) == Some(s) && SnapshotAt(y, s.room, s.issueId) == None
    ensures !Agrees(y, p)
  {
    hide Fold, Logged, SnapshotAt, IndexOk, ValidRoom;
    assert AgreesAt(x, p, s.room, s.issueId);
    assert !AgreesAt(y, p, s.room, s.issueId);
  }
}
