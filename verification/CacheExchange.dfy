/** The rules of the relay-to-relay cache exchange (src/cache_exchange.ts): which records a pull
    returns, how a pushed entry is read, and when two envelopes with one id agree. */
module CacheExchange {
  import opened Arithmetic
  import opened Options
  import opened Json
  import opened Text
  import Ordering
  import CanonicalJson

  type Value = v: Json | Valid(v) witness Null

  datatype Envelope = Envelope(
    room: string, id: string, sender: string, topic: string, payload: Value, signature: Option<string>)

  datatype Record = Record(cursor: nat, envelope: Envelope, origin: string, hopCount: nat, maxHops: nat)

  /** A pulled record: its hop count already counts the hop to the puller. */
  datatype Entry = Entry(cursor: nat, envelope: Envelope, origin: string, hopCount: nat, maxHops: nat)

  /** A pushed entry once read; the sender's cursor is dropped. */
  datatype Incoming = Incoming(envelope: Envelope, origin: string, hopCount: nat, maxHops: nat)

  // ------------------------------------------------------------------- names

  predicate Lower(c: char) { 'a' <= c <= 'z' }

  predicate Alphanumeric(c: char) { Lower(c) || 'A' <= c <= 'Z' || IsDigit(c) }

  predicate NameChar(c: char) { Alphanumeric(c) || c == '.' || c == '_' || c == '-' }

  predicate ValidRoom(s: string) {
    1 <= |s| <= 64 && Alphanumeric(s[0]) && forall i :: 0 <= i < |s| ==> NameChar(s[i])
  }

  predicate ValidTopic(s: string) {
    1 <= |s| <= 64 && Lower(s[0]) && forall i :: 0 <= i < |s| ==> NameChar(s[i]) && !('A' <= s[i] <= 'Z')
  }

  /** A non-empty string without white space at its ends. */
  predicate Name(s: string) { s != "" && Trimmed(s) }

  /** What every publishing handler establishes before it stores an envelope. */
  predicate WellFormed(e: Envelope) {
    && ValidRoom(e.room) && ValidTopic(e.topic) && Name(e.id) && Name(e.sender)
    && (e.signature.Some? ==> Name(e.signature.value))
  }

  lemma ValidNames(e: Envelope)
    requires ValidRoom(e.room) && ValidTopic(e.topic)
    ensures Name(e.room) && Name(e.topic)
    ensures '\n' !in e.room && '\n' !in e.topic
  {}

  // -------------------------------------------------------------- collisions

  datatype Collision = Duplicate | Conflict

  function SignatureText(e: Envelope): string {
    if e.signature.Some? then e.signature.value else ""
  }

  function CanonicalSignature(e: Envelope): string {
    e.sender + ['\n'] + (e.topic + ['\n'] + (CanonicalJson.Canonical(e.payload) + (['\n'] + SignatureText(e))))
  }

  function Classify(existing: Envelope, incoming: Envelope): Collision {
    if CanonicalSignature(existing) == CanonicalSignature(incoming) then Duplicate else Conflict
  }

  // -------------------------------------------------------------------- pull

  datatype Query = Query(after: int, limit: int, peer: Option<string>, room: Option<string>)

  datatype Page = Page(entries: seq<Entry>, nextCursor: int)

  /** An absent or empty filter lets everything through. */
  predicate Given(filter: Option<string>) { filter.Some? && filter.value != "" }

  predicate Eligible(r: Record, q: Query) {
    && (Given(q.room) ==> r.envelope.room == q.room.value)
    && (Given(q.peer) ==> r.origin != q.peer.value)
    && r.hopCount < r.maxHops
  }

  function ToEntry(r: Record): Entry {
    Entry(r.cursor, r.envelope, r.origin, r.hopCount + 1, r.maxHops)
  }

  /** The page `Select` still has to produce with room for `left` more entries. */
  function Scan(records: seq<Record>, q: Query, left: nat, next: int): Page
    requires left > 0
  {
    if records == [] then Page([], next)
    else
      var r, rest := records[0], records[1..];
      if r.cursor <= q.after then Scan(rest, q, left, next)
      else if !Eligible(r, q) then Scan(rest, q, left, r.cursor)
      else if left == 1 then Page([ToEntry(r)], r.cursor)
      else var p := Scan(rest, q, left - 1, r.cursor); Page([ToEntry(r)] + p.entries, p.nextCursor)
  }

  function Select(records: seq<Record>, q: Query): Page {
    Scan(records, q, Max(1, q.limit), Max(0, q.after))
  }

  method SelectCacheExchangeEntries(records: seq<Record>, q: Query) returns (page: Page)
    ensures page == Select(records, q)
  {
    var limit := Max(1, q.limit);
    var entries := [];
    var next := Max(0, q.after);
    var i := 0;
    while i < |records|
      invariant 0 <= i <= |records| && |entries| < limit
      invariant var p := Scan(records[i..], q, limit - |entries|, next);
                Select(records, q) == Page(entries + p.entries, p.nextCursor)
    {
      var r := records[i];
      assert records[i..][1..] == records[i + 1..];
      i := i + 1;
      if r.cursor > q.after {
        next := r.cursor;
        if Eligible(r, q) {
          ghost var p := Scan(records[i..], q, Max(1, limit - |entries| - 1), next);
          assert entries + ([ToEntry(r)] + p.entries) == entries + [ToEntry(r)] + p.entries;
          entries := entries + [ToEntry(r)];
          if |entries| >= limit {
            return Page(entries, next);
          }
        }
      }
    }
    page := Page(entries, next);
  }

  predicate CursorsAscend(records: seq<Record>) {
    forall i, j :: 0 <= i < j < |records| ==> records[i].cursor < records[j].cursor
  }

  /** Everything a puller may ever get from `records` past its cursor, in log order. */
  function Pick(records: seq<Record>, q: Query): seq<Entry> {
    if records == [] then []
    else if records[0].cursor > q.after && Eligible(records[0], q) then
      [ToEntry(records[0])] + Pick(records[1..], q)
    else
      Pick(records[1..], q)
  }

  predicate Above(records: seq<Record>, c: int) {
    forall i :: 0 <= i < |records| ==> records[i].cursor > c
  }

  lemma TailAscends(records: seq<Record>)
    requires records != [] && CursorsAscend(records)
    ensures CursorsAscend(records[1..]) && Above(records[1..], records[0].cursor)
  {}

  lemma {:induction false} PickPast(records: seq<Record>, q: Query, c: int)
    requires Above(records, q.after) && Above(records, c)
    ensures Pick(records, q.(after := c)) == Pick(records, q)
  {
    if records != [] {
      PickPast(records[1..], q, c);
    }
  }

  /** One page is the front of what is due, and its cursor leaves exactly the remainder due. */
  lemma {:induction false} ScanSplits(records: seq<Record>, q: Query, left: nat, next: int)
    requires left > 0 && CursorsAscend(records) && q.after <= next
    requires Above(records, next) || next == q.after
    ensures var p := Scan(records, q, left, next);
            && next <= p.nextCursor && |p.entries| <= left
            && Pick(records, q) == p.entries + Pick(records, q.(after := p.nextCursor))
            && (p.nextCursor == next ==> p.entries == [] && Pick(records, q) == [])
  {
    hide Eligible;
    if records != [] {
      var r, rest := records[0], records[1..];
      TailAscends(records);
      if r.cursor <= q.after {
        ScanSplits(rest, q, left, next);
      } else if !Eligible(r, q) {
        ScanSplits(rest, q, left, r.cursor);
      } else if left == 1 {
        PickPast(rest, q, r.cursor);
      } else {
        ScanSplits(rest, q, left - 1, r.cursor);
      }
    }
  }

  function Remaining(records: seq<Record>, after: int): nat {
    if records == [] then 0 else (if records[0].cursor > after then 1 else 0) + Remaining(records[1..], after)
  }

  lemma {:induction false} RemainingAntitone(records: seq<Record>, a: int, b: int)
    requires a <= b
    ensures Remaining(records, b) <= Remaining(records, a)
    ensures (exists r :: r in records && a < r.cursor <= b) ==> Remaining(records, b) < Remaining(records, a)
  {
    if records != [] {
      RemainingAntitone(records[1..], a, b);
      assert forall r :: r in records <==> r == records[0] || r in records[1..];
    }
  }

  /** A page's cursor is the caller's own or that of some record past it. */
  lemma {:induction false} ScanCursor(records: seq<Record>, q: Query, left: nat, next: int)
    requires left > 0
    ensures var c := Scan(records, q, left, next).nextCursor;
            c == next || exists r :: r in records && r.cursor == c && r.cursor > q.after
  {
    if records != [] {
      var r, rest := records[0], records[1..];
      assert r in records && forall x :: x in rest ==> x in records;
      if r.cursor <= q.after {
        ScanCursor(rest, q, left, next);
      } else if !Eligible(r, q) {
        ScanCursor(rest, q, left, r.cursor);
      } else if left > 1 {
        ScanCursor(rest, q, left - 1, r.cursor);
      }
    }
  }

  lemma SelectAdvances(records: seq<Record>, q: Query)
    requires q.after >= 0
    ensures var c := Select(records, q).nextCursor;
            c > q.after ==> Remaining(records, c) < Remaining(records, q.after)
  {
    ScanCursor(records, q, Max(1, q.limit), q.after);
    var c := Select(records, q).nextCursor;
    if c > q.after { RemainingAntitone(records, q.after, c); }
  }

  /** Pulling again and again from where the last page ended, until a page moves no further. */
  function Drain(records: seq<Record>, q: Query): seq<Entry>
    requires q.after >= 0
    decreases Remaining(records, q.after)
  {
    var p := Select(records, q);
    if p.nextCursor <= q.after then p.entries
    else
      SelectAdvances(records, q);
      p.entries + Drain(records, q.(after := p.nextCursor))
  }

  /** Paging loses nothing and repeats nothing, whatever the page size. */
  lemma {:induction false} DrainIsPick(records: seq<Record>, q: Query)
    requires q.after >= 0 && CursorsAscend(records)
    ensures Drain(records, q) == Pick(records, q)
    decreases Remaining(records, q.after)
  {
    var p := Select(records, q);
    ScanSplits(records, q, Max(1, q.limit), q.after);
    if p.nextCursor > q.after {
      SelectAdvances(records, q);
      DrainIsPick(records, q.(after := p.nextCursor));
    }
  }

  // -------------------------------------------------------------------- wire

  function OptionalString(s: Option<string>): Value {
    if s.Some? then Str(s.value) else Null
  }

  const WIRE_KEYS :=
    ["cursor", "room", "id", "sender", "topic", "payload", "signature", "origin", "hop_count", "max_hops"]

  lemma WireKeysDistinct()
    ensures Ordering.Distinct(WIRE_KEYS)
  {
    assert "cursor"[0] == 'c' && "sender"[0] == 's' && "origin"[0] == 'o';
    assert "signature"[0] == 's' && "hop_count"[0] == 'h';
  }

  function WireFields(e: Entry): map<string, Value> {
    map["cursor" := OfNat(e.cursor), "room" := Str(e.envelope.room), "id" := Str(e.envelope.id),
        "sender" := Str(e.envelope.sender), "topic" := Str(e.envelope.topic), "payload" := e.envelope.payload,
        "signature" := OptionalString(e.envelope.signature), "origin" := Str(e.origin),
        "hop_count" := OfNat(e.hopCount), "max_hops" := OfNat(e.maxHops)]
  }

  /** The JSON object a pull response carries for an entry. */
  function ToWire(e: Entry): Value {
    WireValid(e);
    Obj(WIRE_KEYS, WireFields(e))
  }

  lemma WireValid(e: Entry)
    ensures Valid(Obj(WIRE_KEYS, WireFields(e)))
  {
    WireKeysDistinct();
    var fields := WireFields(e);
    assert forall k :: k in fields ==> Valid(fields[k]);
  }

  datatype ParseResult = Parsed(entry: Incoming) | Malformed(error: string)

  function AsString(v: Value, key: string): Option<string>
    requires v.Obj?
  {
    if key in v.fields && v.fields[key].Str? && Trim(v.fields[key].s) != "" then Some(Trim(v.fields[key].s)) else None
  }

  function AsNonNegativeInt(v: Value, key: string): Option<nat>
    requires v.Obj?
  {
    if key in v.fields && v.fields[key].Num?
    then
      var n := Trunc(v.fields[key].mantissa, v.fields[key].exponent);
      if n < 0 then None else Some(n)
    else None
  }

  function ParseIncoming(v: Value, defaultMaxHops: nat): ParseResult {
    if !v.Obj? then Malformed("entry must be object")
    else
      var room := AsString(v, "room");
      var id := AsString(v, "id");
      var sender := AsString(v, "sender");
      var topic := AsString(v, "topic");
      var origin := AsString(v, "origin");
      var hopCount := AsNonNegativeInt(v, "hop_count");
      var maxHops := AsNonNegativeInt(v, "max_hops");
      var max := if maxHops.Some? then maxHops.value else defaultMaxHops;
      if room.None? then Malformed("invalid room")
      else if id.None? then Malformed("invalid id")
      else if sender.None? then Malformed("invalid sender")
      else if topic.None? then Malformed("invalid topic")
      else if "payload" !in v.fields then Malformed("invalid payload")
      else if origin.None? then Malformed("invalid origin")
      else if hopCount.None? then Malformed("invalid hop_count")
      else if max < 1 then Malformed("invalid max_hops")
      else
        var envelope := Envelope(room.value, id.value, sender.value, topic.value,
                                 v.fields["payload"], AsString(v, "signature"));
        Parsed(Incoming(envelope, origin.value, hopCount.value, max))
  }

  lemma AsStringOfName(v: Value, key: string, s: string)
    requires v.Obj? && key in v.fields && v.fields[key] == Str(s) && Name(s)
    ensures AsString(v, key) == Some(s)
  {}

  lemma WireKeys(e: Entry)
    ensures WireFields(e).Keys
         == {"cursor", "room", "id", "sender", "topic", "payload", "signature", "origin", "hop_count", "max_hops"}
  {
    hide OfNat, OptionalString;
  }

  lemma WireLookups(e: Entry)
    ensures var f := WireFields(e);
            && f.Keys == {"cursor", "room", "id", "sender",
                       "topic", "payload", "signature", "origin", "hop_count", "max_hops"}
            && f["room"] == Str(e.envelope.room) && f["id"] == Str(e.envelope.id)
            && f["sender"] == Str(e.envelope.sender) && f["topic"] == Str(e.envelope.topic)
            && f["origin"] == Str(e.origin) && f["payload"] == e.envelope.payload
  {
    hide OfNat, OptionalString;
    WireKeys(e);
  }

  lemma WireStrings(e: Entry)
    requires WellFormed(e.envelope) && Name(e.origin)
    ensures var v := ToWire(e);
            && AsString(v, "room") == Some(e.envelope.room) && AsString(v, "id") == Some(e.envelope.id)
            && AsString(v, "sender") == Some(e.envelope.sender) && AsString(v, "topic") == Some(e.envelope.topic)
            && AsString(v, "origin") == Some(e.origin) && AsString(v, "signature") == e.envelope.signature
            && v.fields["payload"] == e.envelope.payload
  {
    hide ValidRoom, ValidTopic, Name, AsString, WireFields;
    ValidNames(e.envelope);
    WireLookups(e);
    var v := ToWire(e);
    AsStringOfName(v, "room", e.envelope.room);
    AsStringOfName(v, "id", e.envelope.id);
    AsStringOfName(v, "sender", e.envelope.sender);
    AsStringOfName(v, "topic", e.envelope.topic);
    AsStringOfName(v, "origin", e.origin);
    WireSignature(e);
  }

  lemma WireSignature(e: Entry)
    requires e.envelope.signature.Some? ==> Name(e.envelope.signature.value)
    ensures AsString(ToWire(e), "signature") == e.envelope.signature
  {
    hide Trim, Trimmed;
  }

  lemma WireNumbers(e: Entry)
    ensures AsNonNegativeInt(ToWire(e), "hop_count") == Some(e.hopCount)
    ensures AsNonNegativeInt(ToWire(e), "max_hops") == Some(e.maxHops)
  {
    TruncOfNat(e.hopCount);
    TruncOfNat(e.maxHops);
  }

  /** A relay's own entry is read back field by field. */
  lemma ParseWire(e: Entry, defaultMaxHops: nat)
    requires WellFormed(e.envelope) && Name(e.origin) && e.maxHops >= 1
    ensures ParseIncoming(ToWire(e), defaultMaxHops) == Parsed(Incoming(e.envelope, e.origin, e.hopCount, e.maxHops))
  {
    hide AsString, AsNonNegativeInt, WellFormed;
    WireStrings(e);
    WireNumbers(e);
  }

  /** Whatever an entry's strings hold, reading it never changes its hop budget. */
  lemma ParseWireHops(e: Entry, defaultMaxHops: nat)
    ensures var r := ParseIncoming(ToWire(e), defaultMaxHops);
            r.Parsed? ==> r.entry.hopCount == e.hopCount && r.entry.maxHops == e.maxHops
  {
    hide AsString, AsNonNegativeInt;
    WireNumbers(e);
  }

  /** Reading yields trimmed non-empty names. */
  lemma ParsedNames(v: Value, defaultMaxHops: nat)
    ensures var r := ParseIncoming(v, defaultMaxHops);
            r.Parsed? ==>
              && Name(r.entry.envelope.id) && Name(r.entry.envelope.sender) && Name(r.entry.origin)
              && (r.entry.envelope.signature.Some? ==> Name(r.entry.envelope.signature.value))
              && r.entry.maxHops >= 1
  {}
}
