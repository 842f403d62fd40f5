/** One relay node (src/memory_handler.ts): rooms of messages, the cache-exchange log, local
    publishing, and the pull and push handlers of the exchange. */
module RelayService {
  import opened Options
  import opened Sequences
  import opened Text
  import opened CacheExchange

  datatype Config = Config(nodeId: string, maxMessages: nat, maxRecords: nat, maxHops: nat)

  predicate ValidConfig(c: Config) {
    Name(c.nodeId) && c.maxMessages >= 1 && c.maxRecords >= 1 && c.maxHops >= 1
  }

  datatype Node = Node(rooms: map<string, seq<Envelope>>, log: seq<Record>, cursor: nat)

  const EMPTY_NODE := Node(map[], [], 0)

  function Messages(n: Node, room: string): seq<Envelope> {
    if room in n.rooms then n.rooms[room] else []
  }

  function Find(messages: seq<Envelope>, id: string): (r: Option<Envelope>)
    ensures r.Some? <==> HasId(messages, id)
    ensures r.Some? ==> r.value in messages && r.value.id == id
  {
    if messages == [] then None
    else if messages[0].id == id then Some(messages[0])
    else
      assert forall m :: m in messages <==> m == messages[0] || m in messages[1..];
      Find(messages[1..], id)
  }

  ghost predicate HasId(messages: seq<Envelope>, id: string) {
    exists m :: m in messages && m.id == id
  }

  ghost predicate Holds(n: Node, room: string, id: string) {
    HasId(Messages(n, room), id)
  }

  function NormalizeSignature(s: string): Option<string> {
    if Trim(s) != "" then Some(Trim(s)) else None
  }

  /** Storing a normalized signature again leaves it as it is. */
  lemma SignatureKept(e: Envelope)
    requires e.signature.Some? ==> Name(e.signature.value)
    ensures NormalizeSignature(SignatureText(e)) == e.signature
  {}

  /** `getOrCreateRoomState`. */
  function Touch(n: Node, room: string): Node {
    n.(rooms := n.rooms[room := Messages(n, room)])
  }

  /** A new envelope enters its room and the exchange log; both drop their oldest overflow. */
  function Accept(c: Config, n: Node, e: Envelope, origin: string, hopCount: nat, maxHops: nat): Node {
    Node(n.rooms[e.room := Newest(Messages(n, e.room) + [e], c.maxMessages)],
         Newest(n.log + [Record(n.cursor + 1, e, origin, hopCount, maxHops)], c.maxRecords),
         n.cursor + 1)
  }

  // ------------------------------------------------------------------ publish

  datatype PublishRequest = PublishRequest(
    room: string, sender: string, topic: string, id: string, signature: string, payload: Value)

  datatype PublishReply =
    | Refused(status: nat)
    | Stored(envelope: Envelope)
    | AlreadyStored

  function OrElse(s: string, default: string): string {
    if Trim(s) != "" then Trim(s) else default
  }

  /** The envelope a publish request stands for; `freshId` is used when it names none. */
  function Requested(r: PublishRequest, freshId: string): Envelope {
    Envelope(Trim(r.room), OrElse(r.id, freshId), Trim(r.sender), OrElse(r.topic, "notify"), r.payload,
             NormalizeSignature(r.signature))
  }

  function PublishResult(c: Config, denied: set<string>, n: Node, r: PublishRequest, freshId: string): (Node,
                         PublishReply) {
    var e := Requested(r, freshId);
    if e.sender == "" then (n, Refused(400))
    else if !ValidRoom(e.room) then (n, Refused(400))
    else if e.room in denied then (n, Refused(403))
    else if !ValidTopic(e.topic) then (Touch(n, e.room), Refused(400))
    else if Find(Messages(n, e.room), e.id).Some? then (Touch(n, e.room), AlreadyStored)
    else (Accept(c, n, e, c.nodeId, 0, c.maxHops), Stored(e))
  }

  lemma RequestedWellFormed(c: Config, denied: set<string>, n: Node, r: PublishRequest, freshId: string)
    requires Name(freshId)
    ensures var reply := PublishResult(c, denied, n, r, freshId).1;
            reply.Stored? ==> WellFormed(reply.envelope) && !Holds(n, reply.envelope.room, reply.envelope.id)
  {}

  // --------------------------------------------------------------------- push

  datatype Reason = InvalidRoom | InvalidTopic | LoopOrigin | MaxHopsReached

  datatype Outcome =
    | Accepted
    | DuplicateSeen
    | ConflictSeen
    | Rejected(reason: Reason)
    | Aborted(failure: Failure)

  datatype Failure = BadEntry(error: string) | ForbiddenRoom(room: string)

  function PushEntry(c: Config, denied: set<string>, n: Node, raw: Value): (Node, Outcome) {
    var parsed := ParseIncoming(raw, c.maxHops);
    if parsed.Malformed? then (n, Aborted(BadEntry(parsed.error)))
    else
      var x := parsed.entry;
      var e := x.envelope;
      if !ValidRoom(e.room) then (n, Rejected(InvalidRoom))
      else if !ValidTopic(e.topic) then (n, Rejected(InvalidTopic))
      else if e.room in denied then (n, Aborted(ForbiddenRoom(e.room)))
      else if x.origin == c.nodeId then (n, Rejected(LoopOrigin))
      else if x.hopCount >= x.maxHops then (n, Rejected(MaxHopsReached))
      else
        var existing := Find(Messages(n, e.room), e.id);
        if existing.Some? then
          (Touch(n, e.room), if Classify(existing.value, e) == Duplicate then DuplicateSeen else ConflictSeen)
        else (Accept(c, n, e, x.origin, x.hopCount, x.maxHops), Accepted)
  }

  /** `rejection_counts`, where a reason that is missing counts zero. */
  datatype RejectionCounts = RejectionCounts(
    invalidRoom: nat, invalidTopic: nat, loopOrigin: nat, maxHopsReached: nat)

  datatype Tally = Tally(
    accepted: nat, duplicates: nat, conflicts: nat, rejected: nat, rejectionCounts: RejectionCounts)

  const ZERO := Tally(0, 0, 0, 0, RejectionCounts(0, 0, 0, 0))

  function CountReason(m: RejectionCounts, r: Reason): RejectionCounts {
    match r
    case InvalidRoom => m.(invalidRoom := m.invalidRoom + 1)
    case InvalidTopic => m.(invalidTopic := m.invalidTopic + 1)
    case LoopOrigin => m.(loopOrigin := m.loopOrigin + 1)
    case MaxHopsReached => m.(maxHopsReached := m.maxHopsReached + 1)
  }

  function Count(t: Tally, o: Outcome): Tally {
    match o
    case Accepted => t.(accepted := t.accepted + 1)
    case DuplicateSeen => t.(duplicates := t.duplicates + 1)
    case ConflictSeen => t.(conflicts := t.conflicts + 1)
    case Rejected(r) => t.(rejected := t.rejected + 1, rejectionCounts := CountReason(t.rejectionCounts, r))
    case Aborted(_) => t
  }

  datatype PushState = PushState(node: Node, tally: Tally, failure: Option<Failure>)

  /** Entries are taken in order; the first failing one ends the push, keeping what came before. */
  function PushAll(c: Config, denied: set<string>, n: Node, raws: seq<Value>): PushState {
    if raws == [] then PushState(n, ZERO, None)
    else
      var s := PushAll(c, denied, n, raws[..|raws| - 1]);
      if s.failure.Some? then s
      else
        var (next, o) := PushEntry(c, denied, s.node, raws[|raws| - 1]);
        PushState(next, Count(s.tally, o), if o.Aborted? then Some(o.failure) else None)
  }

  lemma CountTotals(t: Tally, o: Outcome)
    ensures var u := Count(t, o);
            u.accepted + u.duplicates + u.conflicts + u.rejected
            == t.accepted + t.duplicates + t.conflicts + t.rejected + if o.Aborted? then 0 else 1
  {}

  /** Every entry of a completed push is counted once, and every rejection under one reason. */
  lemma {:induction false} TallyTotals(c: Config, denied: set<string>, n: Node, raws: seq<Value>)
    ensures var p := PushAll(c, denied, n, raws);
            var t, m := p.tally, p.tally.rejectionCounts;
            && t.rejected == m.invalidRoom + m.invalidTopic + m.loopOrigin + m.maxHopsReached
            && t.accepted + t.duplicates + t.conflicts + t.rejected <= |raws|
            && (p.failure.None? ==> t.accepted + t.duplicates + t.conflicts + t.rejected == |raws|)
  {
    hide PushEntry;
    if raws != [] {
      var s := PushAll(c, denied, n, raws[..|raws| - 1]);
      TallyTotals(c, denied, n, raws[..|raws| - 1]);
      if s.failure.None? { CountTotals(s.tally, PushEntry(c, denied, s.node, raws[|raws| - 1]).1); }
    }
  }

  datatype PushResponse =
    | Ok(nodeId: string, tally: Tally, nextCursor: nat)
    | Failed(failure: Failure)

  function Respond(c: Config, s: PushState): PushResponse {
    if s.failure.Some? then Failed(s.failure.value) else Ok(c.nodeId, s.tally, s.node.cursor)
  }

  lemma {:induction false} PushAllAfterFailure(c: Config, denied: set<string>, n: Node, raws: seq<Value>, k: nat)
    requires k <= |raws| && PushAll(c, denied, n, raws[..k]).failure.Some?
    ensures PushAll(c, denied, n, raws) == PushAll(c, denied, n, raws[..k])
    decreases |raws|
  {
    if k == |raws| {
      assert raws[..k] == raws;
    } else {
      assert raws[..|raws| - 1][..k] == raws[..k];
      PushAllAfterFailure(c, denied, n, raws[..|raws| - 1], k);
    }
  }

  // --------------------------------------------------------------- invariants

  predicate RecordOk(c: Config, r: Record) {
    WellFormed(r.envelope) && Name(r.origin) && r.hopCount < r.maxHops
    && (r.hopCount == 0 <==> r.origin == c.nodeId)
  }

  /** What every reachable node satisfies. */
  ghost predicate NodeOk(c: Config, n: Node) {
    && |n.log| <= c.maxRecords && |n.log| <= n.cursor && CursorsAscend(n.log)
    && (forall i :: 0 <= i < |n.log| ==> n.log[i].cursor <= n.cursor && RecordOk(c, n.log[i]))
    && (forall room :: room in n.rooms ==> RoomOk(c, room, n.rooms[room]))
  }

  ghost predicate RoomOk(c: Config, room: string, messages: seq<Envelope>) {
    && |messages| <= c.maxMessages
    && (forall i :: 0 <= i < |messages| ==> WellFormed(messages[i]) && messages[i].room == room)
    && (forall i, j :: 0 <= i < j < |messages| ==> messages[i].id != messages[j].id)
  }

  lemma RoomAccepts(c: Config, room: string, messages: seq<Envelope>, e: Envelope)
    requires RoomOk(c, room, messages) && WellFormed(e) && e.room == room && !HasId(messages, e.id)
    ensures RoomOk(c, room, Newest(messages + [e], c.maxMessages))
  {
    var all := messages + [e];
    assert forall i, j :: 0 <= i < j < |all| ==> all[i].id != all[j].id;
  }

  lemma TouchKeepsNodeOk(c: Config, n: Node, room: string)
    requires NodeOk(c, n)
    ensures NodeOk(c, Touch(n, room))
  {}

  lemma LogAccepts(c: Config, n: Node, r: Record)
    requires CursorsAscend(n.log) && r.cursor == n.cursor + 1 && RecordOk(c, r)
    requires forall i :: 0 <= i < |n.log| ==> n.log[i].cursor <= n.cursor && RecordOk(c, n.log[i])
    ensures var log := Newest(n.log + [r], c.maxRecords);
            CursorsAscend(log) && forall i :: 0 <= i < |log| ==> log[i].cursor <= n.cursor + 1 && RecordOk(c, log[i])
  {
    hide RecordOk;
  }

  lemma MessagesOk(c: Config, n: Node, room: string)
    requires NodeOk(c, n)
    ensures RoomOk(c, room, Messages(n, room))
  {}

  lemma NewRecordOk(c: Config, r: Record)
    requires WellFormed(r.envelope) && Name(r.origin)
    requires r.hopCount < r.maxHops && (r.hopCount == 0 <==> r.origin == c.nodeId)
    ensures RecordOk(c, r)
  {}

  lemma AcceptKeepsNodeOk(c: Config, n: Node, e: Envelope, origin: string, hopCount: nat, maxHops: nat)
    requires NodeOk(c, n) && WellFormed(e) && !Holds(n, e.room, e.id)
    requires Name(origin) && hopCount < maxHops && (hopCount == 0 <==> origin == c.nodeId)
    ensures NodeOk(c, Accept(c, n, e, origin, hopCount, maxHops))
  {
    hide RecordOk, RoomOk, WellFormed, CursorsAscend, Messages, Holds, Newest, Name;
    var r := Record(n.cursor + 1, e, origin, hopCount, maxHops);
    NewRecordOk(c, r);
    AcceptKeepsRooms(c, n, e);
    AcceptKeepsLog(c, n, r);
  }

  lemma AcceptKeepsLog(c: Config, n: Node, r: Record)
    requires NodeOk(c, n) && RecordOk(c, r) && r.cursor == n.cursor + 1
    ensures var log := Newest(n.log + [r], c.maxRecords);
      && |log| <= c.maxRecords && |log| <= n.cursor + 1 && CursorsAscend(log)
      && forall i :: 0 <= i < |log| ==> log[i].cursor <= n.cursor + 1 && RecordOk(c, log[i])
  {
    hide RecordOk, RoomOk;
    LogAccepts(c, n, r);
    LogFits(n.log, r, c.maxRecords);
  }

  lemma LogFits(log: seq<Record>, r: Record, max: nat)
    ensures |Newest(log + [r], max)| <= max && |Newest(log + [r], max)| <= |log| + 1
  {}

  lemma AcceptKeepsRooms(c: Config, n: Node, e: Envelope)
    requires NodeOk(c, n) && WellFormed(e) && !Holds(n, e.room, e.id)
    ensures var rooms := n.rooms[e.room := Newest(Messages(n, e.room) + [e], c.maxMessages)];
            forall room :: room in rooms ==> RoomOk(c, room, rooms[room])
  {
    MessagesOk(c, n, e.room);
    hide RecordOk, WellFormed, RoomOk, CursorsAscend, HasId;
    RoomAccepts(c, e.room, Messages(n, e.room), e);
  }

  lemma PublishKeepsNodeOk(c: Config, denied: set<string>, n: Node, r: PublishRequest, freshId: string)
    requires ValidConfig(c) && NodeOk(c, n) && Name(freshId)
    ensures NodeOk(c, PublishResult(c, denied, n, r, freshId).0)
  {
    hide Requested, ValidRoom, ValidTopic, NodeOk, Accept, WellFormed, Touch, Find;
    RequestedWellFormed(c, denied, n, r, freshId);
    TouchKeepsNodeOk(c, n, Requested(r, freshId).room);
    var reply := PublishResult(c, denied, n, r, freshId).1;
    if reply.Stored? {
      AcceptKeepsNodeOk(c, n, reply.envelope, c.nodeId, 0, c.maxHops);
    }
  }

  /** The guards a pushed entry passes whatever the relay holds: it can be read, its room and topic are valid, its room
      is not denied, and it comes from another relay. */
  predicate Foreign(c: Config, denied: set<string>, raw: Value) {
    var p := ParseIncoming(raw, c.maxHops);
    && p.Parsed? && ValidRoom(p.entry.envelope.room) && ValidTopic(p.entry.envelope.topic)
    && p.entry.envelope.room !in denied && p.entry.origin != c.nodeId
  }

  /** And its hops are not used up, and its id is new to its room. */
  ghost predicate NewForeign(c: Config, denied: set<string>, n: Node, raw: Value) {
    var p := ParseIncoming(raw, c.maxHops);
    && Foreign(c, denied, raw) && p.entry.hopCount < p.entry.maxHops
    && !Holds(n, p.entry.envelope.room, p.entry.envelope.id)
  }

  /** A pushed entry that claims to have made no hop. */
  predicate NoHops(c: Config, raw: Value) {
    var p := ParseIncoming(raw, c.maxHops);
    p.Parsed? && p.entry.hopCount == 0
  }

  lemma AcceptedIffNewForeign(c: Config, denied: set<string>, n: Node, raw: Value)
    ensures PushEntry(c, denied, n, raw).1.Accepted? <==> NewForeign(c, denied, n, raw)
  {
    hide ValidRoom, ValidTopic, ParseIncoming, Classify, Accept, HasId, Messages;
  }

  /** Pushed bytes are untrusted, and a hop count of zero is taken as it stands. A pushed entry keeps a node well formed
      exactly unless it claims no hop and passes the guards. */
  lemma PushEntryKeepsNodeOk(c: Config, denied: set<string>, n: Node, raw: Value)
    requires ValidConfig(c) && NodeOk(c, n)
    ensures NodeOk(c, PushEntry(c, denied, n, raw).0) <==> !(NewForeign(c, denied, n, raw) && NoHops(c, raw))
  {
    hide ValidRoom, ValidTopic, ParseIncoming, Classify, Find, NodeOk, Accept, NewForeign;
    ParsedNames(raw, c.maxHops);
    AcceptedIffNewForeign(c, denied, n, raw);
    var p := ParseIncoming(raw, c.maxHops);
    if PushEntry(c, denied, n, raw).1.Accepted? {
      var x := p.entry;
      if x.hopCount > 0 {
        AcceptKeepsNodeOk(c, n, x.envelope, x.origin, x.hopCount, x.maxHops);
      } else {
        ForeignWithoutHops(c, n, x.envelope, x.origin, x.maxHops);
      }
    } else if p.Parsed? {
      TouchKeepsNodeOk(c, n, p.entry.envelope.room);
    }
  }

  lemma EmptyNodeOk(c: Config)
    ensures NodeOk(c, EMPTY_NODE) && forall room, id :: !Holds(EMPTY_NODE, room, id)
  {}

  /** Whatever the relay holds: a pushed entry keeps every well-formed node well formed exactly unless it claims no hop,
      can be read, names a valid topic and a valid room that is not denied, and comes from another relay. */
  lemma KeepsEveryNodeIff(c: Config, denied: set<string>, raw: Value)
    requires ValidConfig(c)
    ensures (forall n :: NodeOk(c, n) ==> NodeOk(c, PushEntry(c, denied, n, raw).0))
       <==> !(Foreign(c, denied, raw) && NoHops(c, raw))
  {
    hide ValidRoom, ValidTopic, ParseIncoming, NodeOk, PushEntry, Holds;
    if Foreign(c, denied, raw) && NoHops(c, raw) {
      ParsedNames(raw, c.maxHops);
      EmptyNodeOk(c);
      PushEntryKeepsNodeOk(c, denied, EMPTY_NODE, raw);
    } else {
      forall n | NodeOk(c, n) ensures NodeOk(c, PushEntry(c, denied, n, raw).0) {
        PushEntryKeepsNodeOk(c, denied, n, raw);
      }
    }
  }

  /** Any well-formed entry of another relay that is new and claims no hop is such an entry. */
  lemma NoHopsAccepted(c: Config, n: Node, e: Entry)
    requires ValidConfig(c) && NodeOk(c, n) && WellFormed(e.envelope) && Name(e.origin) && e.origin != c.nodeId
    requires e.hopCount == 0 < e.maxHops && !Holds(n, e.envelope.room, e.envelope.id)
    ensures var (after, outcome) := PushEntry(c, {}, n, ToWire(e)); outcome.Accepted? && !NodeOk(c, after)
  {
    hide ParseIncoming, ToWire, ValidRoom, ValidTopic, Accept, NodeOk, Find, Name;
    ParseWire(e, c.maxHops);
    AcceptedIffNewForeign(c, {}, n, ToWire(e));
    PushEntryKeepsNodeOk(c, {}, n, ToWire(e));
  }

  lemma ForeignWithoutHops(c: Config, n: Node, e: Envelope, origin: string, maxHops: nat)
    requires ValidConfig(c) && origin != c.nodeId
    ensures !NodeOk(c, Accept(c, n, e, origin, 0, maxHops))
  {
    hide RoomOk, WellFormed, Name, Messages;
    var r := Record(n.cursor + 1, e, origin, 0, maxHops);
    var log := Newest(n.log + [r], c.maxRecords);
    NewestIsSuffix(n.log + [r], c.maxRecords);
    assert log[|log| - 1] == r;
  }

  // ------------------------------------------------------------------ service

  class RelayService {
    const config: Config
    var rooms: map<string, seq<Envelope>>
    var log: seq<Record>
    var cursor: nat

    function State(): Node
      reads this
    {
      Node(rooms, log, cursor)
    }

    constructor (config: Config)
      requires ValidConfig(config)
      ensures this.config == config && State() == EMPTY_NODE
    {
      this.config := config;
      rooms, log, cursor := map[], [], 0;
    }

    method GetOrCreateRoom(room: string) returns (messages: seq<Envelope>)
      modifies `rooms
      ensures messages == Messages(old(State()), room)
      ensures State() == Touch(old(State()), room)
    {
      if room !in rooms {
        rooms := rooms[room := []];
      }
      messages := rooms[room];
      assert rooms == old(rooms)[room := messages];
    }

    /** Appends unless the topic is invalid or the id is already there; drops the oldest overflow. */
    method PublishIntoRoom(room: string, sender: string, topic: string, id: string, signature: string, payload: Value)
      returns (reply: PublishReply)
      requires room in rooms
      modifies `rooms
      ensures var e := Envelope(room, id, sender, topic, payload, NormalizeSignature(signature));
              if !ValidTopic(topic) then reply == Refused(400) && rooms == old(rooms)
              else if HasId(old(rooms[room]), id) then reply == AlreadyStored && rooms == old(rooms)
              else reply == Stored(e)
                   && rooms == old(rooms)[room := Newest(old(rooms[room]) + [e], config.maxMessages)]
    {
      if !ValidTopic(topic) {
        return Refused(400);
      }
      var existing := FindEnvelopeById(room, id);
      if existing.Some? {
        return AlreadyStored;
      }
      var e := Envelope(room, id, sender, topic, payload, NormalizeSignature(signature));
      var messages := rooms[room] + [e];
      if |messages| > config.maxMessages {
        var overflow := |messages| - config.maxMessages;
        messages := messages[overflow..];
      }
      rooms := rooms[room := messages];
      reply := Stored(e);
    }

    method FindEnvelopeById(room: string, id: string) returns (found: Option<Envelope>)
      requires room in rooms
      ensures found == Find(rooms[room], id)
    {
      var messages := rooms[room];
      var i := 0;
      while i < |messages|
        invariant 0 <= i <= |messages|
        invariant Find(messages, id) == Find(messages[i..], id)
      {
        if messages[i].id == id {
          return Some(messages[i]);
        }
        i := i + 1;
      }
      found := None;
    }

    method RecordCacheExchange(e: Envelope, origin: string, hopCount: nat, maxHops: nat)
      modifies `log, `cursor
      ensures cursor == old(cursor) + 1
      ensures log == Newest(old(log) + [Record(cursor, e, origin, hopCount, maxHops)], config.maxRecords)
    {
      cursor := cursor + 1;
      log := log + [Record(cursor, e, origin, hopCount, maxHops)];
      if |log| > config.maxRecords {
        var overflow := |log| - config.maxRecords;
        log := log[overflow..];
      }
    }

    method HandlePublish(denied: set<string>, request: PublishRequest, freshId: string) returns (reply: PublishReply)
      modifies this
      ensures (State(), reply) == PublishResult(config, denied, old(State()), request, freshId)
    {
      hide ValidRoom, ValidTopic, Trim, Newest, Find, NormalizeSignature, OrElse;
      var sender := Trim(request.sender);
      if sender == "" { return Refused(400); }
      var room := Trim(request.room);
      if !ValidRoom(room) { return Refused(400); }
      if room in denied { return Refused(403); }
      var topic := OrElse(request.topic, "notify");
      var id := OrElse(request.id, freshId);
      var messages := GetOrCreateRoom(room);
      reply := PublishIntoRoom(room, sender, topic, id, request.signature, request.payload);
      if reply.Stored? {
        RecordCacheExchange(reply.envelope, config.nodeId, 0, config.maxHops);
        assert rooms == old(rooms)[room := rooms[room]];
      }
    }

    method HandleCacheExchangePull(q: Query) returns (page: Page)
      ensures page == Select(log, q)
    {
      page := SelectCacheExchangeEntries(log, q);
    }

    /** One entry of a push; `outcome` says how it is counted. */
    method PushOne(denied: set<string>, raw: Value) returns (outcome: Outcome)
      modifies this
      ensures (State(), outcome) == PushEntry(config, denied, old(State()), raw)
    {
      hide ValidRoom, ValidTopic, ParseIncoming, Classify, Newest, Find, NormalizeSignature, HasId, Name, SignatureText;
      var parsed := ParseIncoming(raw, config.maxHops);
      if parsed.Malformed? { return Aborted(BadEntry(parsed.error)); }
      var x := parsed.entry;
      var e := x.envelope;
      if !ValidRoom(e.room) { return Rejected(InvalidRoom); }
      if !ValidTopic(e.topic) { return Rejected(InvalidTopic); }
      if e.room in denied { return Aborted(ForbiddenRoom(e.room)); }
      if x.origin == config.nodeId { return Rejected(LoopOrigin); }
      if x.hopCount >= x.maxHops { return Rejected(MaxHopsReached); }
      var messages := GetOrCreateRoom(e.room);
      var existing := FindEnvelopeById(e.room, e.id);
      if existing.Some? {
        return if Classify(existing.value, e) == Duplicate then DuplicateSeen else ConflictSeen;
      }
      ParsedNames(raw, config.maxHops);
      SignatureKept(e);
      var reply := PublishIntoRoom(e.room, e.sender, e.topic, e.id, SignatureText(e), e.payload);
      assert reply == Stored(e);
      RecordCacheExchange(e, x.origin, x.hopCount, x.maxHops);
      assert rooms == old(rooms)[e.room := rooms[e.room]];
      outcome := Accepted;
    }

    method HandleCacheExchangePush(denied: set<string>, raws: seq<Value>) returns (response: PushResponse)
      modifies this
      ensures var s := PushAll(config, denied, old(State()), raws);
              State() == s.node && response == Respond(config, s)
    {
      var tally := ZERO;
      var i := 0;
      while i < |raws|
        invariant 0 <= i <= |raws|
        invariant PushAll(config, denied, old(State()), raws[..i]) == PushState(State(), tally, None)
      {
        var outcome := PushOne(denied, raws[i]);
        assert raws[..i + 1][..i] == raws[..i];
        i := i + 1;
        if outcome.Aborted? {
          PushAllAfterFailure(config, denied, old(State()), raws, i);
          return Failed(outcome.failure);
        }
        tally := Count(tally, outcome);
      }
      assert raws[..i] == raws;
      response := Ok(config.nodeId, tally, cursor);
    }
  }
}
