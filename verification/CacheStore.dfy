/** The cache store's data, its expiry and byte-limit policy, and the in-memory store
    (src/cache_store.ts). A store is seen as a map from storage keys to records. */
module CacheStore {
  import opened Options
  import opened Ordering
  import opened Sequences
  import opened Text

  // -------------------------------------------------------------------- data

  datatype Kind = ObjectKind | PackKind | RefKind | IssueKind

  function KindName(k: Kind): string {
    match k
    case ObjectKind => "object"
    case PackKind => "pack"
    case RefKind => "ref"
    case IssueKind => "issue"
  }

  function KindOf(name: string): Option<Kind> {
    if name == "object" then Some(ObjectKind)
    else if name == "pack" then Some(PackKind)
    else if name == "ref" then Some(RefKind)
    else if name == "issue" then Some(IssueKind)
    else None
  }

  datatype Metadata = Metadata(
    kind: Kind, key: string, size: nat, updatedAt: nat,
    room: Option<string>, ref: Option<string>, contentHash: Option<string>, contentType: Option<string>)

  datatype Stored = Stored(body: seq<bv8>, metadata: Metadata)

  type Records = map<string, Stored>

  /** A missing limit never applies. */
  datatype Policy = Policy(ttlSec: Option<nat>, maxBytes: Option<nat>)

  datatype PutRequest = PutRequest(
    kind: Kind, key: string, body: seq<bv8>, room: Option<string>, ref: Option<string>,
    contentHash: Option<string>, contentType: Option<string>, updatedAt: Option<int>)

  /** Empty strings are not recorded. */
  function NonEmpty(s: Option<string>): Option<string> {
    if s.Some? && s.value != "" then s else None
  }

  function StoredFor(r: PutRequest, now: nat): Stored {
    var updatedAt := if r.updatedAt.None? then now else if r.updatedAt.value < 0 then 0 else r.updatedAt.value;
    Stored(r.body, Metadata(r.kind, Trim(r.key), |r.body|, updatedAt, NonEmpty(r.room), NonEmpty(r.ref),
                            NonEmpty(r.contentHash), NonEmpty(r.contentType)))
  }

  // ------------------------------------------------------------------- keys

  function StorageKey(kind: Kind, key: string): string {
    KindName(kind) + ['/'] + key
  }

  function FromStorageKey(s: string): Option<(Kind, string)> {
    var (name, key) := CutAt(s, '/');
    if KindOf(name).Some? && key != "" then Some((KindOf(name).value, key)) else None
  }

  /** Storage keys are read back, so two records never share one. */
  lemma StorageKeyRoundTrip(kind: Kind, key: string)
    requires key != ""
    ensures FromStorageKey(StorageKey(kind, key)) == Some((kind, key))
  {
    CutAtConcat(KindName(kind), key, '/');
  }

  // ------------------------------------------------------------------ policy

  predicate Expired(m: Metadata, p: Policy, now: nat) {
    p.ttlSec.Some? && now >= m.updatedAt + p.ttlSec.value
  }

  function Live(rs: Records, p: Policy, now: nat): Records {
    map k | k in rs && !Expired(rs[k].metadata, p, now) :: rs[k]
  }

  /** Total size of the records. */
  ghost function Bytes(rs: Records): nat {
    if rs == map[] then 0
    else
      var k :| k in rs;
      rs[k].metadata.size + Bytes(rs - {k})
  }

  lemma {:induction false} BytesRemove(rs: Records, k: string)
    requires k in rs
    ensures Bytes(rs) == rs[k].metadata.size + Bytes(rs - {k})
    decreases |rs|
  {
    var j :| j in rs && Bytes(rs) == rs[j].metadata.size + Bytes(rs - {j});
    if j != k {
      BytesRemove(rs - {j}, k);
      BytesRemove(rs - {k}, j);
      assert rs - {j} - {k} == rs - {k} - {j};
    }
  }

  lemma {:induction false} BytesSubset(rs: Records, qs: Records)
    requires forall k :: k in qs ==> k in rs && rs[k] == qs[k]
    ensures Bytes(qs) <= Bytes(rs)
    decreases |qs|
  {
    if qs != map[] {
      var k :| k in qs;
      BytesRemove(qs, k);
      BytesRemove(rs, k);
      BytesSubset(rs - {k}, qs - {k});
    }
  }

  // ---------------------------------------------------------------- eviction

  type Candidate = (nat, string)

  predicate EvictBefore(a: Candidate, b: Candidate) {
    a.0 < b.0 || (a.0 == b.0 && Before(a.1, b.1))
  }

  lemma EvictBeforeIsOrder()
    ensures StrictTotalOrder(EvictBefore)
  {
    BeforeIsOrder();
    forall a, b, c | EvictBefore(a, b) && EvictBefore(b, c) ensures EvictBefore(a, c) {}
    forall a, b ensures a == b || EvictBefore(a, b) || EvictBefore(b, a) {
      assert a.1 == b.1 || Before(a.1, b.1) || Before(b.1, a.1);
      assert a == (a.0, a.1) && b == (b.0, b.1);
    }
  }

  /** The listing, each once, in some order. */
  ghost function Enumerate<T(!new)>(s: set<T>): (xs: seq<T>)
    ensures Distinct(xs) && forall x :: x in xs <==> x in s
  {
    if s == {} then []
    else
      var x :| x in s;
      [x] + Enumerate(s - {x})
  }

  ghost function Candidates(rs: Records): set<Candidate> {
    set k | k in rs :: (rs[k].metadata.updatedAt, k)
  }

  /** Oldest first, ties by key. */
  ghost function EvictionOrder(rs: Records): (order: seq<Candidate>)
    ensures forall c :: c in order <==> c in Candidates(rs)
    ensures Ascending(EvictBefore, order)
  {
    EvictBeforeIsOrder();
    SortAscending(EvictBefore, Enumerate(Candidates(rs)));
    SortKeepsElements(EvictBefore, Enumerate(Candidates(rs)));
    Sort(EvictBefore, Enumerate(Candidates(rs)))
  }

  ghost function EvictFrom(order: seq<Candidate>, rs: Records, max: nat): Records {
    if order == [] || Bytes(rs) <= max then rs else EvictFrom(order[1..], rs - {order[0].1}, max)
  }

  ghost function Evict(rs: Records, p: Policy): Records {
    if p.maxBytes.None? then rs else EvictFrom(EvictionOrder(rs), rs, p.maxBytes.value)
  }

  function Keys(order: seq<Candidate>): set<string> {
    set c | c in order :: c.1
  }

  /** `n` is the least number of candidates whose removal brings the total within the limit, or all
      of them if none does. */
  ghost predicate ShortestPrefix(order: seq<Candidate>, rs: Records, max: nat, n: nat) {
    && n <= |order|
    && (forall m: nat :: m < n ==> Bytes(rs - Keys(order[..m])) > max)
    && (n < |order| ==> Bytes(rs - Keys(order[..n])) <= max)
  }

  lemma {:induction false} EvictFromExact(order: seq<Candidate>, rs: Records, max: nat)
    ensures exists n: nat :: ShortestPrefix(order, rs, max, n) && EvictFrom(order, rs, max) == rs - Keys(order[..n])
  {
    assert order[..0] == [] && rs - Keys([]) == rs;
    if order == [] || Bytes(rs) <= max {
      assert ShortestPrefix(order, rs, max, 0);
    } else {
      var qs := rs - {order[0].1};
      EvictFromExact(order[1..], qs, max);
      var n: nat :| ShortestPrefix(order[1..], qs, max, n) &&
          EvictFrom(order[1..], qs, max) == qs - Keys(order[1..][..n]);
      ShortestPrefixStep(order, rs, max, n);
      KeysStep(order, rs, n);
    }
  }

  lemma KeysStep(order: seq<Candidate>, rs: Records, m: nat)
    requires m < |order|
    ensures rs - Keys(order[..m + 1]) == rs - {order[0].1} - Keys(order[1..][..m])
  {
    assert order[..m + 1] == [order[0]] + order[1..][..m];
    assert Keys(order[..m + 1]) == {order[0].1} + Keys(order[1..][..m]);
  }

  lemma ShortestPrefixStep(order: seq<Candidate>, rs: Records, max: nat, n: nat)
    requires order != [] && Bytes(rs) > max && ShortestPrefix(order[1..], rs - {order[0].1}, max, n)
    ensures ShortestPrefix(order, rs, max, n + 1)
  {
    hide Bytes, Keys;
    assert order[..0] == [];
    assert rs - Keys([]) == rs by { NoKeys(rs); }
    forall m: nat | m < n + 1 ensures Bytes(rs - Keys(order[..m])) > max {
      if m > 0 { KeysStep(order, rs, m - 1); }
    }
    if n + 1 < |order| { KeysStep(order, rs, n); }
  }

  lemma NoKeys(rs: Records)
    ensures rs - Keys([]) == rs
  {}

  lemma AllEvicted(rs: Records)
    ensures rs - Keys(EvictionOrder(rs)) == map[]
  {
    forall k | k in rs ensures k in Keys(EvictionOrder(rs)) {
      assert (rs[k].metadata.updatedAt, k) in EvictionOrder(rs);
    }
  }

  /** Every put evicts precisely the shortest prefix of the (updatedAt, key) order that brings the
      total within the limit, and it always gets there. */
  lemma EvictExact(rs: Records, p: Policy)
    requires p.maxBytes.Some?
    ensures exists n: nat :: ShortestPrefix(EvictionOrder(rs), rs, p.maxBytes.value, n)
              && Evict(rs, p) == rs - Keys(EvictionOrder(rs)[..n])
    ensures Bytes(Evict(rs, p)) <= p.maxBytes.value
  {
    hide EvictionOrder, EvictFrom, Keys;
    var order, max := EvictionOrder(rs), p.maxBytes.value;
    EvictFromExact(order, rs, max);
    var n: nat :| ShortestPrefix(order, rs, max, n) && EvictFrom(order, rs, max) == rs - Keys(order[..n]);
    if n == |order| {
      AllEvicted(rs);
      assert order[..n] == order;
    }
  }

  // ----------------------------------------------------------------- listing

  datatype ListQuery = ListQuery(
    kind: Option<Kind>, prefix: string, room: string, limit: Option<int>, cursor: nat)

  datatype ListPage = ListPage(entries: seq<Metadata>, cursor: Option<nat>)

  predicate Matches(m: Metadata, q: ListQuery) {
    && (q.kind.Some? ==> m.kind == q.kind.value)
    && q.prefix <= m.key
    && (q.room != "" ==> m.room == Some(q.room))
  }

  type Name = (string, string)

  /** By kind, then by key. */
  predicate NameBefore(a: Name, b: Name) {
    Before(a.0, b.0) || (a.0 == b.0 && Before(a.1, b.1))
  }

  lemma NameBeforeIsOrder()
    ensures StrictTotalOrder(NameBefore)
  {
    BeforeIsOrder();
    forall a, b, c | NameBefore(a, b) && NameBefore(b, c) ensures NameBefore(a, c) {}
    forall a, b ensures a == b || NameBefore(a, b) || NameBefore(b, a) {
      assert a.1 == b.1 || Before(a.1, b.1) || Before(b.1, a.1);
      assert a == (a.0, a.1) && b == (b.0, b.1);
    }
  }

  function NameOf(m: Metadata): Name { (KindName(m.kind), m.key) }

  function MatchingNames(rs: Records, q: ListQuery): set<Name> {
    set k | k in rs && Matches(rs[k].metadata, q) :: NameOf(rs[k].metadata)
  }

  function LimitOf(q: ListQuery): nat {
    if q.limit.None? then 100 else if q.limit.value < 1 then 1 else q.limit.value
  }

  /** A record under the name of a listed entry. */
  function Entry(rs: Records, n: Name): Metadata
    requires n.0 + ['/'] + n.1 in rs
  {
    rs[n.0 + ['/'] + n.1].metadata
  }

  /** Each record is stored under its own storage key. */
  predicate WellKeyed(rs: Records) {
    forall k :: k in rs ==> rs[k].metadata.key != "" && k == StorageKey(rs[k].metadata.kind, rs[k].metadata.key)
  }

  lemma ListedKey(rs: Records, q: ListQuery, n: Name)
    requires WellKeyed(rs) && n in MatchingNames(rs, q)
    ensures n.0 + ['/'] + n.1 in rs && Matches(Entry(rs, n), q) && NameOf(Entry(rs, n)) == n
  {}

  /** The matching entries, by name. */
  ghost function Catalog(rs: Records, q: ListQuery): map<Name, Metadata> {
    map n | n in MatchingNames(rs, q) && n.0 + ['/'] + n.1 in rs :: Entry(rs, n)
  }

  /** All names, in the listing's order. */
  ghost function Listing(names: set<Name>): (listing: seq<Name>)
    ensures Ascending(NameBefore, listing)
    ensures forall n :: n in listing <==> n in names
  {
    NameBeforeIsOrder();
    SortAscending(NameBefore, Enumerate(names));
    SortKeepsElements(NameBefore, Enumerate(names));
    Sort(NameBefore, Enumerate(names))
  }

  /** The page of the listing that starts at the query's offset. */
  function PageOf(listing: seq<Name>, entries: map<Name, Metadata>, q: ListQuery): ListPage
    requires forall n :: n in listing ==> n in entries
  {
    var page := Slice(listing, q.cursor, LimitOf(q));
    var next := q.cursor + |page|;
    ListPage(seq(|page|, i requires 0 <= i < |page| => entries[page[i]]),
             if next < |listing| then Some(next) else None)
  }

  ghost function ListPageOf(rs: Records, q: ListQuery): ListPage {
    PageOf(Listing(Catalog(rs, q).Keys), Catalog(rs, q), q)
  }

  /** All entries a reader gets by following the offsets until there is none. */
  function DrainPages(listing: seq<Name>, entries: map<Name, Metadata>, q: ListQuery): seq<Metadata>
    requires forall n :: n in listing ==> n in entries
    decreases if q.cursor < |listing| then |listing| - q.cursor else 0
  {
    var page := PageOf(listing, entries, q);
    if page.cursor.None? then page.entries
    else page.entries + DrainPages(listing, entries, q.(cursor := page.cursor.value))
  }

  /** The pages of an unchanging listing tile it. */
  lemma {:induction false} PagesTile(listing: seq<Name>, entries: map<Name, Metadata>, q: ListQuery)
    requires (forall n :: n in listing ==> n in entries) && q.cursor <= |listing|
    ensures var all := DrainPages(listing, entries, q);
      |all| == |listing| - q.cursor && forall i :: 0 <= i < |all| ==> all[i] == entries[listing[q.cursor + i]]
    decreases |listing| - q.cursor
  {
    var page := PageOf(listing, entries, q);
    if page.cursor.Some? { PagesTile(listing, entries, q.(cursor := page.cursor.value)); }
  }

  // --------------------------------------------------------- the memory store

  datatype Request =
    | Put(request: PutRequest)
    | Get(kind: Kind, key: string)
    | Delete(kind: Kind, key: string)
    | List(query: ListQuery)

  /** `Refused` stands for the error an empty key raises. */
  datatype Answer =
    | Refused
    | Written
    | Found(record: Option<Stored>)
    | Deleted(existed: bool)
    | Listed(page: ListPage)

  /** Prunes, writes, then evicts. */
  ghost function MemoryPut(rs: Records, p: Policy, now: nat, r: PutRequest): Records {
    Evict(Live(rs, p, now)[StorageKey(r.kind, Trim(r.key)) := StoredFor(r, now)], p)
  }

  function Lookup(rs: Records, p: Policy, now: nat, k: string): Option<Stored> {
    if k in rs && !Expired(rs[k].metadata, p, now) then Some(rs[k]) else None
  }

  function Without(rs: Records, k: string): Records { rs - {k} }

  predicate EmptyKey(q: Request) {
    match q
    case Put(r) => Trim(r.key) == ""
    case Get(_, key) => Trim(key) == ""
    case Delete(_, key) => Trim(key) == ""
    case List(_) => false
  }

  /** One call of the memory store. */
  ghost function MemoryStep(rs: Records, p: Policy, now: nat, q: Request): (Records, Answer) {
    if EmptyKey(q) then (rs, Refused)
    else
      match q
      case Put(r) => (MemoryPut(rs, p, now, r), Written)
      case Get(kind, key) =>
        var k := StorageKey(kind, Trim(key));
        var found := Lookup(rs, p, now, k);
        (if found.None? then Without(rs, k) else rs, Found(found))
      case Delete(kind, key) =>
        var k := StorageKey(kind, Trim(key));
        (Without(rs, k), Deleted(k in rs))
      case List(query) => (Live(rs, p, now), Listed(ListPageOf(Live(rs, p, now), query)))
  }

  class MemoryCacheStore {
    const policy: Policy
    var records: Records

    constructor (policy: Policy)
      ensures this.policy == policy && records == map[]
    {
      this.policy := policy;
      records := map[];
    }

    method PruneExpiredRecords(now: nat)
      modifies this
      ensures records == Live(old(records), policy, now)
    {
      if policy.ttlSec.None? {
        assert Live(records, policy, now) == records;
        return;
      }
      var todo := records.Keys;
      while todo != {}
        invariant todo <= records.Keys
        invariant Live(records, policy, now) == Live(old(records), policy, now)
        invariant forall k :: k in records && k !in todo ==> !Expired(records[k].metadata, policy, now)
        decreases |todo|
      {
        var k :| k in todo;
        if Expired(records[k].metadata, policy, now) {
          records := Without(records, k);
        }
        todo := todo - {k};
      }
      assert Live(records, policy, now) == records;
    }

    /** Collects what eviction sorts, in any order, and the total size. */
    method CollectCandidates() returns (candidates: seq<Candidate>, total: nat)
      ensures Distinct(candidates) && forall c :: c in candidates <==> c in Candidates(records)
      ensures total == Bytes(records)
    {
      candidates, total := [], 0;
      var todo := records;
      while todo != map[]
        invariant forall k :: k in todo ==> k in records && todo[k] == records[k]
        invariant Distinct(candidates)
        invariant forall c :: c in candidates <==> c in Candidates(records) && c.1 !in todo
        invariant total + Bytes(todo) == Bytes(records)
        decreases |todo|
      {
        var k :| k in todo;
        BytesRemove(todo, k);
        total := total + todo[k].metadata.size;
        candidates := candidates + [(todo[k].metadata.updatedAt, k)];
        todo := todo - {k};
      }
    }

    method EnforceMaxBytesLimit()
      modifies this
      ensures records == Evict(old(records), policy)
    {
      if policy.maxBytes.None? {
        return;
      }
      hide EvictionOrder, Candidates, Bytes, EvictFrom;
      var candidates, total := CollectCandidates();
      SortedIsOrder(candidates, records);
      OrderKeys(records);
      EvictInOrder(Sort(EvictBefore, candidates), total);
    }

    method EvictInOrder(sorted: seq<Candidate>, total: nat)
      requires policy.maxBytes.Some? && total == Bytes(records)
      requires forall i :: 0 <= i < |sorted| ==> sorted[i].1 in records
      requires forall i, j :: 0 <= i < j < |sorted| ==> sorted[i].1 != sorted[j].1
      modifies this
      ensures records == EvictFrom(sorted, old(records), policy.maxBytes.value)
    {
      hide Bytes;
      var max := policy.maxBytes.value;
      var left := total;
      var i := 0;
      while i < |sorted| && left > max
        invariant 0 <= i <= |sorted| && left == Bytes(records)
        invariant forall j :: i <= j < |sorted| ==> sorted[j].1 in records
        invariant EvictFrom(sorted[i..], records, max) == EvictFrom(sorted, old(records), max)
      {
        assert sorted[i..][1..] == sorted[i + 1..];
        BytesRemove(records, sorted[i].1);
        left := left - records[sorted[i].1].metadata.size;
        records := Without(records, sorted[i].1);
        i := i + 1;
      }
    }

    method Put(now: nat, r: PutRequest) returns (answer: Answer)
      modifies this
      ensures (records, answer) == MemoryStep(old(records), policy, now, Request.Put(r))
    {
      if Trim(r.key) == "" {
        return Refused;
      }
      PruneExpiredRecords(now);
      records := records[StorageKey(r.kind, Trim(r.key)) := StoredFor(r, now)];
      EnforceMaxBytesLimit();
      answer := Written;
    }

    method Get(now: nat, kind: Kind, key: string) returns (answer: Answer)
      modifies this
      ensures (records, answer) == MemoryStep(old(records), policy, now, Request.Get(kind, key))
    {
      if Trim(key) == "" {
        return Refused;
      }
      var k := StorageKey(kind, Trim(key));
      if k !in records {
        assert Without(records, k) == records;
        return Found(None);
      }
      if Expired(records[k].metadata, policy, now) {
        records := Without(records, k);
        return Found(None);
      }
      answer := Found(Some(records[k]));
    }

    method Delete(now: nat, kind: Kind, key: string) returns (answer: Answer)
      modifies this
      ensures (records, answer) == MemoryStep(old(records), policy, now, Request.Delete(kind, key))
    {
      if Trim(key) == "" {
        return Refused;
      }
      var k := StorageKey(kind, Trim(key));
      answer := Deleted(k in records);
      records := Without(records, k);
    }

    method List(now: nat, q: ListQuery) returns (answer: Answer)
      requires WellKeyed(records)
      modifies this
      ensures (records, answer) == MemoryStep(old(records), policy, now, Request.List(q))
    {
      PruneExpiredRecords(now);
      var entries := CollectEntries(records, q);
      var page := PaginateMetadata(entries, q);
      answer := Listed(page);
    }
  }

  lemma SortedIsOrder(candidates: seq<Candidate>, rs: Records)
    requires Distinct(candidates) && forall c :: c in candidates <==> c in Candidates(rs)
    ensures Sort(EvictBefore, candidates) == EvictionOrder(rs)
  {
    hide Candidates;
    EvictBeforeIsOrder();
    SortOrderFree(EvictBefore, candidates, Enumerate(Candidates(rs)));
  }

  /** The eviction order names every record once. */
  lemma OrderKeys(rs: Records)
    ensures var order := EvictionOrder(rs);
            && (forall i :: 0 <= i < |order| ==> order[i].1 in rs)
            && (forall i, j :: 0 <= i < j < |order| ==> order[i].1 != order[j].1)
  {
    EvictBeforeIsOrder();
    var order := EvictionOrder(rs);
    forall i | 0 <= i < |order| ensures order[i].1 in rs && order[i].0 == rs[order[i].1].metadata.updatedAt {
      assert order[i] in Candidates(rs);
    }
    forall i, j | 0 <= i < j < |order| ensures order[i].1 != order[j].1 {
      assert EvictBefore(order[i], order[j]);
    }
  }

  lemma EmptyCatalog(q: ListQuery)
    ensures Catalog(map[], q) == map[]
  {
    assert MatchingNames(map[], q) == {};
  }

  lemma MatchingGrows(done: Records, rs: Records, k: string, q: ListQuery)
    requires k in rs && k !in done && forall j :: j in done ==> j in rs && done[j] == rs[j]
    ensures MatchingNames(done[k := rs[k]], q)
         == MatchingNames(done, q) + if Matches(rs[k].metadata, q) then {NameOf(rs[k].metadata)} else {}
  {
    hide Matches;
    var m, name := done[k := rs[k]], NameOf(rs[k].metadata);
    forall n ensures n in MatchingNames(m, q)
      <==> n in MatchingNames(done, q) || (Matches(rs[k].metadata, q) && n == name) {
      if n in MatchingNames(done, q) {
        var j :| j in done && Matches(done[j].metadata, q) && n == NameOf(done[j].metadata);
        assert m[j] == done[j];
      }
      assert m[k] == rs[k];
    }
  }

  /** A record's name determines the key it is stored under, so each record adds a new name. */
  lemma CatalogGrows(done: Records, rs: Records, k: string, q: ListQuery)
    requires WellKeyed(rs) && k in rs && k !in done && forall j :: j in done ==> j in rs && done[j] == rs[j]
    ensures WellKeyed(done) && WellKeyed(done[k := rs[k]])
    ensures var m := rs[k].metadata;
      Catalog(done[k := rs[k]], q) == if Matches(m, q) then Catalog(done, q)[NameOf(m) := m] else Catalog(done, q)
  {
    hide Matches, MatchingNames;
    MatchingGrows(done, rs, k, q);
    var name := NameOf(rs[k].metadata);
    assert k == name.0 + ['/'] + name.1;
    forall n | n in MatchingNames(done, q) ensures n.0 + ['/'] + n.1 in done && n != name {
      ListedKey(done, q, n);
    }
  }

  method CollectEntries(rs: Records, q: ListQuery) returns (entries: map<Name, Metadata>)
    requires WellKeyed(rs)
    ensures entries == Catalog(rs, q)
  {
    hide Catalog, Matches, NameOf, WellKeyed;
    entries := map[];
    var todo := rs.Keys;
    ghost var done: Records := map[];
    NothingKeyed();
    EmptyCatalog(q);
    while todo != {}
      invariant todo <= rs.Keys && done == rs - todo && WellKeyed(done)
      invariant entries == Catalog(done, q)
      decreases |todo|
    {
      var k :| k in todo;
      CatalogGrows(done, rs, k, q);
      if Matches(rs[k].metadata, q) {
        entries := entries[NameOf(rs[k].metadata) := rs[k].metadata];
      }
      todo := todo - {k};
      done := done[k := rs[k]];
    }
    assert done == rs;
  }

  lemma NothingKeyed()
    ensures WellKeyed(map[])
  {}

  /** Sorts the entries and cuts out one page. */
  method PaginateMetadata(entries: map<Name, Metadata>, q: ListQuery) returns (page: ListPage)
    ensures page == PageOf(Listing(entries.Keys), entries, q)
  {
    hide Enumerate, Listing;
    var names := ListNames(entries.Keys);
    SortedIsListing(names, entries.Keys);
    page := PageOf(Sort(NameBefore, names), entries, q);
  }

  lemma SortedIsListing(names: seq<Name>, all: set<Name>)
    requires Distinct(names) && forall n :: n in names <==> n in all
    ensures Sort(NameBefore, names) == Listing(all)
  {
    NameBeforeIsOrder();
    SortOrderFree(NameBefore, names, Enumerate(all));
  }

  /** The names, each once, in some order. */
  method ListNames(all: set<Name>) returns (names: seq<Name>)
    ensures Distinct(names) && forall n :: n in names <==> n in all
  {
    names := [];
    var todo := all;
    while todo != {}
      invariant todo <= all && Distinct(names)
      invariant forall n :: n in names <==> n in all && n !in todo
      decreases |todo|
    {
      var n :| n in todo;
      names := names + [n];
      todo := todo - {n};
    }
  }
}
