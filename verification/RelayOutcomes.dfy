/** What a relay's handlers answer and leave behind, told on the request and on what the relay holds
    (src/cache_exchange.ts, src/memory_handler.ts): which entries a pull returns, what a publish stores, and how each
    entry of a push is counted. */
module RelayOutcomes {
  import opened Arithmetic
  import opened Options
  import opened Sequences
  import opened Json
  import opened JsonFields
  import opened Text
  import opened CacheExchange
  import opened RelayService
  import opened Collisions

  // ------------------------------------------------------------ reading an entry

  ghost predicate NoNumber(v: Value, name: string) { !exists n: nat :: GivesNumber(v, name, n) }

  /** The entry's fields give this, each in its own way. */
  ghost predicate Reads(v: Value, defaultMaxHops: nat, x: Incoming) {
    && Gives(v, "room", x.envelope.room) && Gives(v, "id", x.envelope.id) && Gives(v, "sender", x.envelope.sender)
    && Gives(v, "topic", x.envelope.topic) && Gives(v, "origin", x.origin)
    && "payload" in v.fields && x.envelope.payload == v.fields["payload"]
    && (if x.envelope.signature.Some? then Gives(v, "signature", x.envelope.signature.value)
        else Silent(v, "signature"))
    && GivesNumber(v, "hop_count", x.hopCount)
    && (GivesNumber(v, "max_hops", x.maxHops) || (NoNumber(v, "max_hops") && x.maxHops == defaultMaxHops))
    && x.maxHops >= 1
  }

  ghost predicate Unreadable(v: Value, defaultMaxHops: nat) { forall x :: !Reads(v, defaultMaxHops, x) }

  lemma AsStringIs(v: Value, name: string)
    requires v.Obj?
    ensures forall s :: Gives(v, name, s) <==> AsString(v, name) == Some(s)
    ensures Silent(v, name) <==> AsString(v, name) == None
  {
    hide Trim;
  }

  lemma AsNumberIs(v: Value, name: string)
    requires v.Obj?
    ensures forall n: nat :: GivesNumber(v, name, n) <==> AsNonNegativeInt(v, name) == Some(n)
    ensures NoNumber(v, name) <==> AsNonNegativeInt(v, name) == None
  {
    hide Trunc, GivesNumber;
    NumberGiven(v, name);
  }

  /** An entry is read as what its fields give, and refused if they do not give it. */
  lemma ParseIs(v: Value, defaultMaxHops: nat, x: Incoming)
    ensures ParseIncoming(v, defaultMaxHops) == Parsed(x) <==> Reads(v, defaultMaxHops, x)
  {
    hide Gives, Silent, GivesNumber, NoNumber, AsString, AsNonNegativeInt;
    if v.Obj? {
      AsStringIs(v, "room");
      AsStringIs(v, "id");
      AsStringIs(v, "sender");
      AsStringIs(v, "topic");
      AsStringIs(v, "origin");
      AsStringIs(v, "signature");
      AsNumberIs(v, "hop_count");
      AsNumberIs(v, "max_hops");
    } else {
      NoObjectGives(v, x.envelope.room);
    }
  }

  lemma NoObjectGives(v: Value, s: string)
    requires !v.Obj?
    ensures !Gives(v, "room", s)
  {}

  // ------------------------------------------------------------------- pull

  /** A record past the caller's cursor that the room filter lets through, did not come from the caller, and may hop
      on. */
  predicate Due(r: Record, q: Query) {
    && r.cursor > q.after
    && (q.room == None || q.room == Some("") || q.room == Some(r.envelope.room))
    && (q.peer == None || q.peer == Some("") || q.peer != Some(r.origin))
    && r.hopCount < r.maxHops
  }

  /** The entry is the record, one hop further. */
  predicate IsEntryOf(e: Entry, r: Record) {
    && e.cursor == r.cursor && e.envelope == r.envelope && e.origin == r.origin
    && e.hopCount == r.hopCount + 1 && e.maxHops == r.maxHops
  }

  function LimitOf(q: Query): nat { Max(1, q.limit) }

  /** What can be picked past a cursor, in order. */
  lemma {:induction false} PickIs(records: seq<Record>, q: Query)
    requires CursorsAscend(records)
    ensures forall e :: e in Pick(records, q) <==> exists r :: r in records && Due(r, q) && IsEntryOf(e, r)
    ensures EntriesAscend(Pick(records, q))
    ensures forall e :: e in Pick(records, q) ==> e.cursor > q.after
  {
    hide Due, Eligible;
    if records != [] {
      var r, rest := records[0], records[1..];
      TailAscends(records);
      PickIs(rest, q);
      DueIs(r, q);
      EntryIsOne(r);
      assert forall x :: x in records <==> x == r || x in rest;
      AboveMembers(rest, r.cursor);
      var later := Pick(rest, q);
      forall j | 0 <= j < |later| ensures later[j].cursor > r.cursor {
        assert later[j] in later;
        var x :| x in rest && Due(x, q) && IsEntryOf(later[j], x);
      }
    }
  }

  lemma EntryIsOne(r: Record)
    ensures forall e :: IsEntryOf(e, r) <==> e == ToEntry(r)
  {}

  /** A page below its limit has reached the end. */
  lemma {:induction false} ScanReachesEnd(records: seq<Record>, q: Query, left: nat, next: int)
    requires left > 0 && CursorsAscend(records) && q.after <= next && (Above(records, next) || next == q.after)
    ensures var p := Scan(records, q, left, next);
            |p.entries| < left ==> forall i :: 0 <= i < |records| ==> records[i].cursor <= p.nextCursor
  {
    hide Eligible;
    if records != [] {
      var r, rest := records[0], records[1..];
      TailAscends(records);
      if r.cursor <= q.after {
        ScanReachesEnd(rest, q, left, next);
        ScanSplits(rest, q, left, next);
      } else if !Eligible(r, q) {
        ScanReachesEnd(rest, q, left, r.cursor);
        PastCursor(rest, q, left, r.cursor);
      } else if left > 1 {
        ScanReachesEnd(rest, q, left - 1, r.cursor);
        PastCursor(rest, q, left - 1, r.cursor);
      }
    }
  }

  lemma {:induction false} PastCursor(records: seq<Record>, q: Query, left: nat, next: int)
    requires left > 0 && Above(records, next)
    ensures Scan(records, q, left, next).nextCursor >= next
  {
    hide Eligible;
    ScanCursor(records, q, left, next);
    AboveMembers(records, next);
  }

  lemma DueIs(r: Record, q: Query)
    ensures Due(r, q) <==> r.cursor > q.after && Eligible(r, q)
  {}

  lemma AboveMembers(records: seq<Record>, c: int)
    requires Above(records, c)
    ensures forall r :: r in records ==> r.cursor > c
  {}

  predicate EntriesAscend(es: seq<Entry>) {
    forall i, j :: 0 <= i < j < |es| ==> es[i].cursor < es[j].cursor
  }

  lemma FrontAscends(a: seq<Entry>, b: seq<Entry>)
    requires EntriesAscend(a + b)
    ensures EntriesAscend(a)
  {
    assert forall i :: 0 <= i < |a| ==> (a + b)[i] == a[i];
  }

  ghost predicate FromDue(records: seq<Record>, q: Query, last: int, e: Entry) {
    exists r :: r in records && Due(r, q) && IsEntryOf(e, r) && r.cursor <= last
  }

  ghost predicate InPage(es: seq<Entry>, r: Record) {
    exists e :: e in es && IsEntryOf(e, r)
  }

  /** A page is the front of what can be picked, and what can be picked past its cursor is the rest. */
  lemma PageParts(records: seq<Record>, q: Query)
    requires CursorsAscend(records) && (q.after >= 0 || Above(records, 0))
    ensures var p := Select(records, q);
      Pick(records, q) == p.entries + Pick(records, q.(after := p.nextCursor)) && EntriesAscend(Pick(records, q))
  {
    hide Scan, Pick;
    ScanSplits(records, q, LimitOf(q), Max(0, q.after));
    PickIs(records, q);
  }

  lemma PageFromDue(records: seq<Record>, q: Query, e: Entry)
    requires CursorsAscend(records) && (q.after >= 0 || Above(records, 0)) && e in Select(records, q).entries
    ensures FromDue(records, q, Select(records, q).nextCursor, e)
  {
    hide Select, Pick, Due, IsEntryOf;
    var p := Select(records, q);
    var later := q.(after := p.nextCursor);
    PageParts(records, q);
    PickIs(records, q);
    PickIs(records, later);
    assert e in Pick(records, q);
    var r :| r in records && Due(r, q) && IsEntryOf(e, r);
    NotBoth(p.entries, Pick(records, later), e);
    LaterDue(r, q, p.nextCursor, e);
  }

  lemma DueInPage(records: seq<Record>, q: Query, r: Record)
    requires CursorsAscend(records) && (q.after >= 0 || Above(records, 0)) && r in records && Due(r, q)
    requires r.cursor <= Select(records, q).nextCursor
    ensures InPage(Select(records, q).entries, r)
  {
    hide Select, Pick, Due, IsEntryOf;
    var p := Select(records, q);
    PageParts(records, q);
    PickIs(records, q);
    PickIs(records, q.(after := p.nextCursor));
    EntryIsOne(r);
    var e := ToEntry(r);
    assert IsEntryOf(e, r) && e in Pick(records, q);
    LaterDue(r, q, p.nextCursor, e);
  }

  /** A pull returns the due records in the order of the log, as many as the limit allows (at least one), and a cursor
      up to which nothing due is left out; with fewer than the limit it has reached the end of the log. */
  lemma PullIs(records: seq<Record>, q: Query)
    requires CursorsAscend(records) && (q.after >= 0 || Above(records, 0))
    ensures var p := Select(records, q);
      && |p.entries| <= LimitOf(q) && EntriesAscend(p.entries) && q.after <= p.nextCursor
      && (forall e :: e in p.entries ==> FromDue(records, q, p.nextCursor, e))
      && (forall r :: r in records && Due(r, q) && r.cursor <= p.nextCursor ==> InPage(p.entries, r))
      && (|p.entries| < LimitOf(q) ==> forall i :: 0 <= i < |records| ==> records[i].cursor <= p.nextCursor)
      && (p.nextCursor == Max(0, q.after) || exists r :: r in records && r.cursor == p.nextCursor)
  {
    var p := Select(records, q);
    ScanSplits(records, q, LimitOf(q), Max(0, q.after));
    ScanReachesEnd(records, q, LimitOf(q), Max(0, q.after));
    ScanCursor(records, q, LimitOf(q), Max(0, q.after));
    hide Scan, Pick, Due, FromDue, InPage, EntriesAscend, Select;
    PageParts(records, q);
    FrontAscends(p.entries, Pick(records, q.(after := p.nextCursor)));
    forall e | e in p.entries ensures FromDue(records, q, p.nextCursor, e) { PageFromDue(records, q, e); }
    forall r | r in records && Due(r, q) && r.cursor <= p.nextCursor ensures InPage(p.entries, r) {
      DueInPage(records, q, r);
    }
  }

  lemma NotBoth(a: seq<Entry>, b: seq<Entry>, e: Entry)
    requires EntriesAscend(a + b)
    requires e in a
    ensures e !in b
  {
    var all := a + b;
    var i :| 0 <= i < |a| && a[i] == e;
    assert all[i] == e;
    forall j | 0 <= j < |b| ensures b[j] != e { assert all[|a| + j] == b[j]; }
  }

  lemma LaterDue(r: Record, q: Query, c: int, e: Entry)
    requires Due(r, q) && IsEntryOf(e, r)
    ensures Due(r, q.(after := c)) <==> r.cursor > c
    ensures e.cursor == r.cursor
  {}

  // ------------------------------------------------------------------ storing

  /** The value joins the end, and the oldest give way to the limit. */
  predicate Joins<T(==)>(before: seq<T>, x: T, max: nat, after: seq<T>) {
    var all := before + [x];
    |after| == Min(max, |all|) && after == all[|all| - |after|..]
  }

  /** A new envelope is in its room and in the log, and nothing else has changed. */
  ghost predicate Stores(c: Config, n: Node, m: Node, e: Envelope, origin: string, hopCount: nat, maxHops: nat) {
    && Joins(Messages(n, e.room), e, c.maxMessages, Messages(m, e.room))
    && (forall room :: room != e.room ==> Messages(m, room) == Messages(n, room))
    && Joins(n.log, Record(n.cursor + 1, e, origin, hopCount, maxHops), c.maxRecords, m.log)
    && m.cursor == n.cursor + 1
  }

  /** Rooms, log and cursor hold the same. */
  ghost predicate HoldsSame(n: Node, m: Node) {
    (forall room :: Messages(m, room) == Messages(n, room)) && m.log == n.log && m.cursor == n.cursor
  }

  lemma AcceptStores(c: Config, n: Node, e: Envelope, origin: string, hopCount: nat, maxHops: nat)
    ensures Stores(c, n, Accept(c, n, e, origin, hopCount, maxHops), e, origin, hopCount, maxHops)
  {
    hide Joins, Newest;
    JoinsNewest(Messages(n, e.room), e, c.maxMessages);
    JoinsNewest(n.log, Record(n.cursor + 1, e, origin, hopCount, maxHops), c.maxRecords);
  }

  lemma JoinsNewest<T>(before: seq<T>, x: T, max: nat)
    ensures Joins(before, x, max, Newest(before + [x], max))
  {}

  lemma TouchSame(n: Node, room: string)
    ensures HoldsSame(n, Touch(n, room))
  {}

  // ------------------------------------------------------------------- publish

  /** The text given, trimmed, or the default if it is blank. */
  predicate GivenOr(raw: string, default: string, s: string) {
    s == if Trim(raw) == "" then default else Trim(raw)
  }

  /** The envelope a publish stands for, field by field. */
  predicate Stands(r: PublishRequest, freshId: string, e: Envelope) {
    && e.room == Trim(r.room) && e.sender == Trim(r.sender) && e.payload == r.payload
    && GivenOr(r.topic, "notify", e.topic) && GivenOr(r.id, freshId, e.id)
    && (if Trim(r.signature) == "" then e.signature == None else e.signature == Some(Trim(r.signature)))
  }

  /** A publish is refused without a sender, for an invalid room or topic, and for a denied room; a known id is left as
      it is; any other envelope is stored, as the relay's own, with the relay's hop limit. */
  lemma PublishIs(c: Config, denied: set<string>, n: Node, r: PublishRequest, freshId: string, e: Envelope)
    requires Stands(r, freshId, e)
    ensures var (m, reply) := PublishResult(c, denied, n, r, freshId);
      if e.sender == "" || !ValidRoom(e.room) then reply == Refused(400) && m == n
      else if e.room in denied then reply == Refused(403) && m == n
      else if !ValidTopic(e.topic) then reply == Refused(400) && HoldsSame(n, m)
      else if exists known :: known in Messages(n, e.room) && known.id == e.id then
        reply == AlreadyStored && HoldsSame(n, m)
      else reply == Stored(e) && Stores(c, n, m, e, c.nodeId, 0, c.maxHops)
  {
    RequestedIs(r, freshId, e);
    hide Requested, ValidRoom, ValidTopic, Accept, Stores, HoldsSame, Touch, Stands, Find, Messages, GivenOr;
    TouchSame(n, e.room);
    AcceptStores(c, n, e, c.nodeId, 0, c.maxHops);
  }

  lemma RequestedIs(r: PublishRequest, freshId: string, e: Envelope)
    requires Stands(r, freshId, e)
    ensures Requested(r, freshId) == e
  {
    hide Trim;
  }

  // --------------------------------------------------------------------- push

  /** The guards up to the hop limit, in order; each holds of an entry that has passed those before it. */
  predicate RoomFails(x: Incoming) { !ValidRoom(x.envelope.room) }

  predicate TopicFails(x: Incoming) { !RoomFails(x) && !ValidTopic(x.envelope.topic) }

  predicate DeniedRoom(denied: set<string>, x: Incoming) {
    !RoomFails(x) && ValidTopic(x.envelope.topic) && x.envelope.room in denied
  }

  predicate Enters(denied: set<string>, x: Incoming) {
    !RoomFails(x) && ValidTopic(x.envelope.topic) && x.envelope.room !in denied
  }

  predicate Loops(c: Config, denied: set<string>, x: Incoming) { Enters(denied, x) && x.origin == c.nodeId }

  predicate UsedUp(c: Config, denied: set<string>, x: Incoming) {
    Enters(denied, x) && x.origin != c.nodeId && x.hopCount >= x.maxHops
  }

  predicate Arrives(c: Config, denied: set<string>, x: Incoming) {
    Enters(denied, x) && x.origin != c.nodeId && x.hopCount < x.maxHops
  }

  /** Two envelopes with one id are the same: sender, topic, payload and signature agree; between senders that differ in
      their number of line ends, the texts compared do. */
  ghost predicate SameContent(a: Envelope, b: Envelope) {
    if LineEnds(a.sender) == LineEnds(b.sender) then Agree(a, b)
    else CanonicalSignature(a) == CanonicalSignature(b)
  }

  ghost predicate HoldsSameContent(n: Node, e: Envelope) {
    exists m :: m in Messages(n, e.room) && m.id == e.id && SameContent(m, e)
  }

  ghost predicate HoldsOtherContent(n: Node, e: Envelope) {
    exists m :: m in Messages(n, e.room) && m.id == e.id && !SameContent(m, e)
  }

  predicate Grew(before: nat, after: nat, more: bool) { after == before + if more then 1 else 0 }

  /** How the counts of a push grow by an entry that reads as `x`. */
  ghost predicate Counted(c: Config, denied: set<string>, n: Node, x: Incoming, t: Tally, u: Tally) {
    && Grew(t.accepted, u.accepted, Arrives(c, denied, x) && !Holds(n, x.envelope.room, x.envelope.id))
    && Grew(t.duplicates, u.duplicates, Arrives(c, denied, x) && HoldsSameContent(n, x.envelope))
    && Grew(t.conflicts, u.conflicts, Arrives(c, denied, x) && HoldsOtherContent(n, x.envelope))
    && Grew(t.rejected, u.rejected, RoomFails(x) || TopicFails(x) || Loops(c, denied, x) || UsedUp(c, denied, x))
    && Grew(t.rejectionCounts.invalidRoom, u.rejectionCounts.invalidRoom, RoomFails(x))
    && Grew(t.rejectionCounts.invalidTopic, u.rejectionCounts.invalidTopic, TopicFails(x))
    && Grew(t.rejectionCounts.loopOrigin, u.rejectionCounts.loopOrigin, Loops(c, denied, x))
    && Grew(t.rejectionCounts.maxHopsReached, u.rejectionCounts.maxHopsReached, UsedUp(c, denied, x))
  }

  /** The rooms are in order: each id once, every envelope well formed. */
  ghost predicate RoomsOk(c: Config, n: Node) {
    forall room :: RoomOk(c, room, Messages(n, room))
  }

  lemma SameTextIsSameContent(a: Envelope, b: Envelope)
    requires WellFormed(a) && WellFormed(b)
    ensures Classify(a, b) == Duplicate <==> SameContent(a, b)
  {
    hide WellFormed, CanonicalSignature, Agree;
    if LineEnds(a.sender) == LineEnds(b.sender) { DuplicateIffAgree(a, b); }
  }

  /** In a room each id is that of one envelope. */
  lemma OneOfTheId(c: Config, n: Node, e: Envelope, m: Envelope)
    requires RoomsOk(c, n) && m in Messages(n, e.room) && m.id == e.id
    ensures Find(Messages(n, e.room), e.id) == Some(m) && WellFormed(m)
    ensures HoldsSameContent(n, e) <==> SameContent(m, e)
    ensures HoldsOtherContent(n, e) <==> !SameContent(m, e)
  {
    hide WellFormed, SameContent;
    var messages := Messages(n, e.room);
    assert RoomOk(c, e.room, messages);
    forall k | k in messages && k.id == e.id ensures k == m {
      var i :| 0 <= i < |messages| && messages[i] == k;
      var j :| 0 <= j < |messages| && messages[j] == m;
    }
    assert HasId(messages, e.id);
  }

  /** One entry that reads as `x`: its outcome, and what the relay holds after it. */
  ghost predicate HandledAs(c: Config, denied: set<string>, n: Node, x: Incoming, m: Node, o: Outcome) {
    match o
    case Accepted =>
      && Arrives(c, denied, x) && !Holds(n, x.envelope.room, x.envelope.id)
      && Stores(c, n, m, x.envelope, x.origin, x.hopCount, x.maxHops)
    case DuplicateSeen => Arrives(c, denied, x) && HoldsSameContent(n, x.envelope) && HoldsSame(n, m)
    case ConflictSeen => Arrives(c, denied, x) && HoldsOtherContent(n, x.envelope) && HoldsSame(n, m)
    case Rejected(InvalidRoom) => RoomFails(x) && m == n
    case Rejected(InvalidTopic) => TopicFails(x) && m == n
    case Rejected(LoopOrigin) => Loops(c, denied, x) && m == n
    case Rejected(MaxHopsReached) => UsedUp(c, denied, x) && m == n
    case Aborted(BadEntry(_)) => false
    case Aborted(ForbiddenRoom(room)) => DeniedRoom(denied, x) && room == x.envelope.room && m == n
  }

  lemma EntryIs(c: Config, denied: set<string>, n: Node, raw: Value, x: Incoming)
    requires RoomsOk(c, n) && Reads(raw, c.maxHops, x)
    ensures var (m, o) := PushEntry(c, denied, n, raw); HandledAs(c, denied, n, x, m, o)
  {
    ParseIs(raw, c.maxHops, x);
    ParsedNames(raw, c.maxHops);
    hide Reads, ParseIncoming, Classify, Accept, Stores, HoldsSame, Touch, RoomsOk, Messages, ValidRoom, ValidTopic;
    hide HoldsSameContent, HoldsOtherContent, SameContent, HasId;
    var e := x.envelope;
    TouchSame(n, e.room);
    AcceptStores(c, n, e, x.origin, x.hopCount, x.maxHops);
    var existing := Find(Messages(n, e.room), e.id);
    if existing.Some? && Arrives(c, denied, x) {
      OneOfTheId(c, n, e, existing.value);
      SameTextIsSameContent(existing.value, e);
    }
  }

  /** Only one of the cases holds of an entry. */
  lemma CasesExclude(c: Config, denied: set<string>, n: Node, x: Incoming)
    requires RoomsOk(c, n)
    ensures HoldsSameContent(n, x.envelope) ==>
              Holds(n, x.envelope.room, x.envelope.id) && !HoldsOtherContent(n, x.envelope)
    ensures HoldsOtherContent(n, x.envelope) ==> Holds(n, x.envelope.room, x.envelope.id)
  {
    hide WellFormed, SameContent, RoomsOk;
    if m :| m in Messages(n, x.envelope.room) && m.id == x.envelope.id { OneOfTheId(c, n, x.envelope, m); }
  }

  lemma FailsForRoom(c: Config, denied: set<string>, n: Node, x: Incoming, m: Node, o: Outcome)
    requires HandledAs(c, denied, n, x, m, o)
    ensures if DeniedRoom(denied, x) then o == Aborted(ForbiddenRoom(x.envelope.room)) else !o.Aborted?
  {
    hide ValidRoom, ValidTopic, Stores, HoldsSame, Holds, HoldsSameContent, HoldsOtherContent;
  }

  lemma UnreadIs(c: Config, denied: set<string>, n: Node, raw: Value)
    requires Unreadable(raw, c.maxHops)
    ensures var (m, o) := PushEntry(c, denied, n, raw); m == n && o.Aborted? && o.failure.BadEntry?
  {
    hide Reads, ParseIncoming;
    var p := ParseIncoming(raw, c.maxHops);
    if p.Parsed? { ParseIs(raw, c.maxHops, p.entry); }
  }

  lemma EntryKeepsRooms(c: Config, denied: set<string>, n: Node, raw: Value)
    requires RoomsOk(c, n)
    ensures RoomsOk(c, PushEntry(c, denied, n, raw).0)
  {
    ParsedNames(raw, c.maxHops);
    hide ValidRoom, ValidTopic, ParseIncoming, Classify, RoomOk, HasId, Name;
    var p := ParseIncoming(raw, c.maxHops);
    if PushEntry(c, denied, n, raw).1.Accepted? {
      var e := p.entry.envelope;
      assert RoomOk(c, e.room, Messages(n, e.room));
      WellFormedParsed(raw, c.maxHops);
      RoomAccepts(c, e.room, Messages(n, e.room), e);
      JoinedRooms(c, denied, n, raw);
    } else if p.Parsed? {
      TouchSame(n, p.entry.envelope.room);
    }
  }

  lemma WellFormedParsed(raw: Value, maxHops: nat)
    ensures var p := ParseIncoming(raw, maxHops);
            p.Parsed? && ValidRoom(p.entry.envelope.room) && ValidTopic(p.entry.envelope.topic) ==>
              WellFormed(p.entry.envelope)
  {
    hide ParseIncoming, ValidRoom, ValidTopic, Name;
    ParsedNames(raw, maxHops);
  }

  lemma JoinedRooms(c: Config, denied: set<string>, n: Node, raw: Value)
    requires PushEntry(c, denied, n, raw).1.Accepted?
    ensures var m, e := PushEntry(c, denied, n, raw).0, ParseIncoming(raw, c.maxHops).entry.envelope;
      && Messages(m, e.room) == Newest(Messages(n, e.room) + [e], c.maxMessages)
      && forall room :: room != e.room ==> Messages(m, room) == Messages(n, room)
  {
    hide ValidRoom, ValidTopic, ParseIncoming, Classify, Find, Newest;
  }

  /** A push keeps the rooms in order, whatever its bytes. */
  lemma {:induction false} PushKeepsRooms(c: Config, denied: set<string>, n: Node, raws: seq<Value>)
    requires RoomsOk(c, n)
    ensures RoomsOk(c, PushAll(c, denied, n, raws).node)
  {
    hide RoomsOk, PushEntry;
    if raws != [] {
      PushKeepsRooms(c, denied, n, raws[..|raws| - 1]);
      EntryKeepsRooms(c, denied, PushAll(c, denied, n, raws[..|raws| - 1]).node, raws[|raws| - 1]);
    }
  }

  lemma EmptyRoomsOk(c: Config)
    ensures RoomsOk(c, EMPTY_NODE)
  {}

  lemma EntryCursor(c: Config, denied: set<string>, n: Node, raw: Value)
    ensures var (m, o) := PushEntry(c, denied, n, raw); m.cursor == n.cursor + if o.Accepted? then 1 else 0
  {
    hide ValidRoom, ValidTopic, ParseIncoming, Classify, Find, Newest;
  }

  /** How the whole push counts its last entry, if none before it has failed: by what the entry's fields give, the
      guards in order, and the envelope its room then holds under its id. */
  lemma PushCounts(c: Config, denied: set<string>, n: Node, raws: seq<Value>, x: Incoming)
    requires RoomsOk(c, n) && raws != [] && PushAll(c, denied, n, raws[..|raws| - 1]).failure.None?
    requires Reads(raws[|raws| - 1], c.maxHops, x)
    ensures var before, after := PushAll(c, denied, n, raws[..|raws| - 1]), PushAll(c, denied, n, raws);
      && Counted(c, denied, before.node, x, before.tally, after.tally)
      && after.failure == (if DeniedRoom(denied, x) then Some(ForbiddenRoom(x.envelope.room)) else None)
  {
    hide Reads, PushEntry, RoomsOk, HandledAs, Counted, Count, DeniedRoom;
    var before := PushAll(c, denied, n, raws[..|raws| - 1]);
    PushKeepsRooms(c, denied, n, raws[..|raws| - 1]);
    EntryIs(c, denied, before.node, raws[|raws| - 1], x);
    var (m, o) := PushEntry(c, denied, before.node, raws[|raws| - 1]);
    OutcomeCounts(c, denied, before.node, x, m, o, before.tally);
    FailsForRoom(c, denied, before.node, x, m, o);
  }

  lemma OutcomeCounts(c: Config, denied: set<string>, n: Node, x: Incoming, m: Node, o: Outcome, t: Tally)
    requires RoomsOk(c, n) && HandledAs(c, denied, n, x, m, o)
    ensures Counted(c, denied, n, x, t, Count(t, o))
  {
    hide Stores, HoldsSame, RoomsOk, HoldsSameContent, HoldsOtherContent, Holds, ValidRoom, ValidTopic;
    CasesExclude(c, denied, n, x);
  }

  /** An entry whose fields give nothing readable ends the push, uncounted, and changes nothing. */
  lemma PushUnread(c: Config, denied: set<string>, n: Node, raws: seq<Value>)
    requires raws != [] && PushAll(c, denied, n, raws[..|raws| - 1]).failure.None?
    requires Unreadable(raws[|raws| - 1], c.maxHops)
    ensures var before, after := PushAll(c, denied, n, raws[..|raws| - 1]), PushAll(c, denied, n, raws);
      && after.node == before.node && after.tally == before.tally
      && after.failure.Some? && after.failure.value.BadEntry?
  {
    hide Reads, PushEntry;
    UnreadIs(c, denied, PushAll(c, denied, n, raws[..|raws| - 1]).node, raws[|raws| - 1]);
  }

  /** The log's cursor counts what is accepted. */
  lemma {:induction false} CursorCounts(c: Config, denied: set<string>, n: Node, raws: seq<Value>)
    ensures var p := PushAll(c, denied, n, raws); p.node.cursor == n.cursor + p.tally.accepted
  {
    hide PushEntry;
    if raws != [] {
      CursorCounts(c, denied, n, raws[..|raws| - 1]);
      EntryCursor(c, denied, PushAll(c, denied, n, raws[..|raws| - 1]).node, raws[|raws| - 1]);
    }
  }

  /** A push that does not fail answers with the relay's name, its counts, and the cursor its accepted entries brought
      the log to. */
  lemma PushAnswers(c: Config, denied: set<string>, n: Node, raws: seq<Value>)
    ensures var p := PushAll(c, denied, n, raws);
      var r := Respond(c, p);
      && (r.Failed? <==> p.failure.Some?) && (r.Failed? ==> Some(r.failure) == p.failure)
      && (r.Ok? ==> r.nodeId == c.nodeId && r.tally == p.tally && r.nextCursor == n.cursor + r.tally.accepted)
  {
    hide PushAll;
    CursorCounts(c, denied, n, raws);
  }
}
