/** What the cache stores answer, told on the requests made of them (src/cache_store.ts): a get answers what was last
    put under its kind and key, a put evicts the oldest records first, and a list answers the page of all that match. */
module StoreOutcomes {
  import opened Options
  import opened Ordering
  import opened Text
  import opened CacheStore
  import opened R2CacheStore
  import opened StoreEquivalence

  datatype Backing = InMemory | InBucket

  ghost function Step(b: Backing, rs: Records, p: Policy, now: nat, q: Request): (Records, Answer) {
    if b.InMemory? then MemoryStep(rs, p, now, q) else R2Step(rs, p, now, q)
  }

  /** What a store that started empty holds after these requests. */
  ghost function After(b: Backing, p: Policy, run: seq<Timed>): Records {
    if run == [] then map[]
    else
      var last := run[|run| - 1];
      Step(b, After(b, p, run[..|run| - 1]), p, last.0, last.1).0
  }

  // ----------------------------------------------------------- what was put last

  /** Names the kind and, trimmed, the key. */
  predicate Puts(q: Request, kind: Kind, key: string) {
    q.Put? && q.request.kind == kind && Trim(q.request.key) == key
  }

  predicate Deletes(q: Request, kind: Kind, key: string) {
    q.Delete? && q.kind == kind && Trim(q.key) == key
  }

  /** The last put of the kind and key and its time, if they have not been deleted since. */
  function LastPut(run: seq<Timed>, kind: Kind, key: string): Option<(nat, PutRequest)> {
    if run == [] then None
    else
      var last := run[|run| - 1];
      if Puts(last.1, kind, key) then Some((last.0, last.1.request))
      else if Deletes(last.1, kind, key) then None
      else LastPut(run[..|run| - 1], kind, key)
  }

  /** The time a put gives its record: the one it names, not before zero, or else its own. */
  function TimeOf(r: PutRequest, at: nat): nat {
    match r.updatedAt
    case None => at
    case Some(t) => if t < 0 then 0 else t
  }

  /** A text is recorded unless it is missing or empty. */
  predicate Recorded(given: Option<string>, kept: Option<string>) {
    kept == if given == Some("") then None else given
  }

  /** The record is what the put gave: its bytes, their number, and its names. */
  predicate RecordOf(x: Stored, r: PutRequest, at: nat) {
    && x.body == r.body && x.metadata.size == |r.body|
    && x.metadata.kind == r.kind && x.metadata.key == Trim(r.key) && x.metadata.updatedAt == TimeOf(r, at)
    && Recorded(r.room, x.metadata.room) && Recorded(r.ref, x.metadata.ref)
    && Recorded(r.contentHash, x.metadata.contentHash) && Recorded(r.contentType, x.metadata.contentType)
  }

  /** The record of the put has not lived out its time. */
  predicate Outlives(p: Policy, r: PutRequest, at: nat, now: nat) {
    p.ttlSec.None? || now < TimeOf(r, at) + p.ttlSec.value
  }

  // ------------------------------------------------------------- one request

  lemma StoredIs(r: PutRequest, at: nat)
    ensures RecordOf(StoredFor(r, at), r, at)
  {
    hide Trim;
  }

  lemma SameKey(kind: Kind, key: string, kind': Kind, key': string)
    requires key != "" && key' != "" && StorageKey(kind, key) == StorageKey(kind', key')
    ensures kind == kind' && key == key'
  {
    hide StorageKey;
    StorageKeyRoundTrip(kind, key);
    StorageKeyRoundTrip(kind', key');
  }

  lemma WriteRemoves(b: Backing, rs: Records, p: Policy, now: nat, r: PutRequest)
    requires Trim(r.key) != ""
    ensures var y, k := Step(b, rs, p, now, Request.Put(r)).0, StorageKey(r.kind, Trim(r.key));
      forall j :: j in y ==> if j == k then y[j] == StoredFor(r, now) else j in rs && y[j] == rs[j]
  {
    hide Evict, StorageKey, Trim, StoredFor, Expired;
    var k, s := StorageKey(r.kind, Trim(r.key)), StoredFor(r, now);
    EvictRemoves(Live(rs, p, now)[k := s], p);
    EvictRemoves(Live(rs[k := s], p, now), p);
  }

  /** A record is there after a request if it was put by it, or was there before and neither put nor deleted. */
  lemma StepHolds(b: Backing, rs: Records, p: Policy, now: nat, q: Request, kind: Kind, key: string)
    requires key != "" && StorageKey(kind, key) in Step(b, rs, p, now, q).0
    ensures var y, k := Step(b, rs, p, now, q).0, StorageKey(kind, key);
      if Puts(q, kind, key) then y[k] == StoredFor(q.request, now)
      else !Deletes(q, kind, key) && k in rs && y[k] == rs[k]
  {
    hide StorageKey, Trim, StoredFor, MemoryPut, R2Put, ListPageOf, Lookup;
    if !EmptyKey(q) {
      match q
      case Put(r) =>
        WriteRemoves(b, rs, p, now, r);
        if StorageKey(r.kind, Trim(r.key)) == StorageKey(kind, key) { SameKey(r.kind, Trim(r.key), kind, key); }
      case _ =>
    }
  }

  /** What the store holds once the put is written does not exceed the limit, even without evicting. */
  ghost predicate Fits(rs: Records, p: Policy, q: Request) {
    q.Put? && p.maxBytes.Some? ==>
      Bytes(rs - {StorageKey(q.request.kind, Trim(q.request.key))}) + |q.request.body| <= p.maxBytes.value
  }

  lemma EvictsNothing(rs: Records, p: Policy)
    requires p.maxBytes.Some? ==> Bytes(rs) <= p.maxBytes.value
    ensures Evict(rs, p) == rs
  {}

  lemma WrittenFits(rs: Records, few: Records, p: Policy, r: PutRequest, now: nat)
    requires Fits(rs, p, Request.Put(r)) && p.maxBytes.Some?
    requires var k := StorageKey(r.kind, Trim(r.key));
             forall j :: j in few ==> if j == k then few[j] == StoredFor(r, now) else j in rs && few[j] == rs[j]
    ensures Bytes(few) <= p.maxBytes.value
  {
    hide Bytes, StorageKey, Trim, StoredFor;
    var k := StorageKey(r.kind, Trim(r.key));
    StoredIs(r, now);
    BytesSubset(rs - {k}, few - {k});
    if k in few { BytesRemove(few, k); } else { assert few - {k} == few; }
  }

  /** A put that fits evicts nothing. */
  lemma WriteKeeps(b: Backing, rs: Records, p: Policy, now: nat, r: PutRequest, j: string)
    requires Trim(r.key) != "" && Fits(rs, p, Request.Put(r))
    requires var s := if j == StorageKey(r.kind, Trim(r.key)) then Some(StoredFor(r, now))
                      else if j in rs then Some(rs[j]) else None;
             s.Some? && !Expired(s.value.metadata, p, now)
    ensures j in Step(b, rs, p, now, Request.Put(r)).0
  {
    hide Evict, StorageKey, Trim, StoredFor, Expired, Bytes, Fits;
    var k, s := StorageKey(r.kind, Trim(r.key)), StoredFor(r, now);
    if p.maxBytes.Some? {
      WrittenFits(rs, Live(rs, p, now)[k := s], p, r, now);
      WrittenFits(rs, Live(rs[k := s], p, now), p, r, now);
    }
    EvictsNothing(Live(rs, p, now)[k := s], p);
    EvictsNothing(Live(rs[k := s], p, now), p);
  }

  /** Without eviction a record that has not expired is lost only to a delete. */
  lemma StepKeeps(b: Backing, rs: Records, p: Policy, now: nat, q: Request, kind: Kind, key: string)
    requires key != "" && Fits(rs, p, q)
    requires var k := StorageKey(kind, key);
      if Puts(q, kind, key) then !Expired(StoredFor(q.request, now).metadata, p, now)
      else !Deletes(q, kind, key) && k in rs && !Expired(rs[k].metadata, p, now)
    ensures StorageKey(kind, key) in Step(b, rs, p, now, q).0
  {
    hide StorageKey, Trim, StoredFor, MemoryPut, R2Put, ListPageOf, Expired, Fits;
    if !EmptyKey(q) {
      match q
      case Put(r) =>
        if StorageKey(r.kind, Trim(r.key)) == StorageKey(kind, key) { SameKey(r.kind, Trim(r.key), kind, key); }
        WriteKeeps(b, rs, p, now, r, StorageKey(kind, key));
      case Get(kind', key') =>
      case Delete(kind', key') =>
        if StorageKey(kind', Trim(key')) == StorageKey(kind, key) { SameKey(kind', Trim(key'), kind, key); }
      case List(_) =>
    }
  }

  // --------------------------------------------------------------------- runs

  predicate NeverBack(run: seq<Timed>) {
    forall i, j :: 0 <= i < j < |run| ==> run[i].0 <= run[j].0
  }

  /** Every put fitted when it was made. */
  ghost predicate AllFit(b: Backing, p: Policy, run: seq<Timed>) {
    forall i :: 0 <= i < |run| ==> Fits(After(b, p, run[..i]), p, run[i].1)
  }

  /** Whatever a store holds under a kind and key is the record of what was put there last. */
  lemma {:induction false} HoldsLastPut(b: Backing, p: Policy, run: seq<Timed>, kind: Kind, key: string)
    requires key != "" && StorageKey(kind, key) in After(b, p, run)
    ensures var last := LastPut(run, kind, key);
      last.Some? && RecordOf(After(b, p, run)[StorageKey(kind, key)], last.value.1, last.value.0)
    decreases |run|
  {
    hide StorageKey, Step, RecordOf, StoredFor, Puts, Deletes;
    var n := |run| - 1;
    var (now, q) := run[n];
    StepHolds(b, After(b, p, run[..n]), p, now, q, kind, key);
    if Puts(q, kind, key) {
      PutStored(q, now, kind, key);
    } else {
      HoldsLastPut(b, p, run[..n], kind, key);
    }
  }

  lemma PutStored(q: Request, now: nat, kind: Kind, key: string)
    requires Puts(q, kind, key)
    ensures q.Put? && RecordOf(StoredFor(q.request, now), q.request, now)
  {
    StoredIs(q.request, now);
  }

  lemma ExpiredIs(x: Stored, r: PutRequest, at: nat, p: Policy, now: nat)
    requires RecordOf(x, r, at)
    ensures Expired(x.metadata, p, now) <==> !Outlives(p, r, at, now)
  {}

  /** And it does hold it, until it expires, if nothing had to be evicted. */
  lemma {:induction false} LastPutHeld(b: Backing, p: Policy, run: seq<Timed>, kind: Kind, key: string, now: nat)
    requires key != "" && NeverBack(run) && AllFit(b, p, run) && (run != [] ==> run[|run| - 1].0 <= now)
    requires var last := LastPut(run, kind, key); last.Some? && Outlives(p, last.value.1, last.value.0, now)
    ensures StorageKey(kind, key) in After(b, p, run)
    decreases |run|
  {
    hide StorageKey, Step, RecordOf, StoredFor, Fits, Expired, TimeOf;
    var n := |run| - 1;
    var (at, q) := run[n];
    var before := After(b, p, run[..n]);
    assert forall i :: 0 <= i < n ==> run[..n][..i] == run[..i];
    assert Fits(After(b, p, run[..n]), p, q);
    if Puts(q, kind, key) {
      PutStored(q, at, kind, key);
      ExpiredIs(StoredFor(q.request, at), q.request, at, p, at);
    } else {
      LastPutHeld(b, p, run[..n], kind, key, now);
      HoldsLastPut(b, p, run[..n], kind, key);
      var last := LastPut(run[..n], kind, key).value;
      ExpiredIs(before[StorageKey(kind, key)], last.1, last.0, p, at);
    }
    StepKeeps(b, before, p, at, q, kind, key);
  }

  /** Over every run from the empty store: a get answers nothing or the record of what was last put under its kind and
      key and not deleted since, and never once that has expired; if nothing had to be evicted, it answers just that
      record until then. */
  lemma GetIs(b: Backing, p: Policy, run: seq<Timed>, now: nat, kind: Kind, key: string)
    requires Trim(key) != "" && NeverBack(run) && (run != [] ==> run[|run| - 1].0 <= now)
    ensures var answer := Step(b, After(b, p, run), p, now, Request.Get(kind, key)).1;
            var last := LastPut(run, kind, Trim(key));
      && answer.Found?
      && (answer.record.Some? ==>
           && last.Some? && RecordOf(answer.record.value, last.value.1, last.value.0)
           && Outlives(p, last.value.1, last.value.0, now))
      && (AllFit(b, p, run) ==>
           (answer.record.Some? <==> last.Some? && Outlives(p, last.value.1, last.value.0, now)))
  {
    hide StorageKey, Trim, After, RecordOf, Expired, Outlives, AllFit, LastPut, NeverBack;
    var rs, k := After(b, p, run), StorageKey(kind, Trim(key));
    var last := LastPut(run, kind, Trim(key));
    if k in rs {
      HoldsLastPut(b, p, run, kind, Trim(key));
      ExpiredIs(rs[k], last.value.1, last.value.0, p, now);
    }
    if AllFit(b, p, run) && last.Some? && Outlives(p, last.value.1, last.value.0, now) {
      LastPutHeld(b, p, run, kind, Trim(key), now);
    }
  }

  // ------------------------------------------------------------------ eviction

  lemma PlaceInOrder(rs: Records, k: string) returns (i: nat)
    requires k in rs
    ensures i < |EvictionOrder(rs)| && EvictionOrder(rs)[i] == (rs[k].metadata.updatedAt, k)
  {
    var c := (rs[k].metadata.updatedAt, k);
    assert c in Candidates(rs) && c in EvictionOrder(rs);
    i :| 0 <= i < |EvictionOrder(rs)| && EvictionOrder(rs)[i] == c;
  }

  lemma KeysOfFront(order: seq<Candidate>, n: nat)
    requires n <= |order|
    ensures forall k :: k in Keys(order[..n]) <==> exists i :: 0 <= i < n && order[i].1 == k
  {
    forall k ensures k in Keys(order[..n]) <==> exists i :: 0 <= i < n && order[i].1 == k {
      if i :| 0 <= i < n && order[i].1 == k { assert order[..n][i] == order[i]; }
      if k in Keys(order[..n]) {
        var c :| c in order[..n] && c.1 == k;
        var i :| 0 <= i < n && order[..n][i] == c;
        assert order[i].1 == k;
      }
    }
  }

  lemma OrderAt(rs: Records, i: nat)
    requires i < |EvictionOrder(rs)|
    ensures var c := EvictionOrder(rs)[i]; c.1 in rs && c.0 == rs[c.1].metadata.updatedAt
  {
    assert EvictionOrder(rs)[i] in Candidates(rs);
  }

  /** What is evicted was written before what stays, or at the same time and its storage key comes first; and nothing is
      evicted while the total is within the limit. */
  lemma EvictsOldest(rs: Records, p: Policy, gone: string, kept: string)
    requires gone in rs && gone !in Evict(rs, p) && kept in Evict(rs, p)
    ensures kept in rs && p.maxBytes.Some? && Bytes(rs) > p.maxBytes.value
    ensures var a, b := rs[gone].metadata.updatedAt, rs[kept].metadata.updatedAt;
            a < b || (a == b && Before(gone, kept))
  {
    if p.maxBytes.None? || Bytes(rs) <= p.maxBytes.value { EvictsNothing(rs, p); }
    assert p.maxBytes.Some?;
    EvictExact(rs, p);
    EvictRemoves(rs, p);
    hide Before, Bytes, EvictionOrder, Keys, Evict, EvictBefore;
    var order := EvictionOrder(rs);
    var n: nat :| ShortestPrefix(order, rs, p.maxBytes.value, n) && Evict(rs, p) == rs - Keys(order[..n]);
    KeysOfFront(order, n);
    var i :| 0 <= i < n && order[i].1 == gone;
    OrderAt(rs, i);
    var j := PlaceInOrder(rs, kept);
    assert i < j && EvictBefore(order[i], order[j]);
    EvictBeforeIs(order[i], order[j]);
  }

  lemma EvictBeforeIs(a: Candidate, b: Candidate)
    requires EvictBefore(a, b)
    ensures a.0 < b.0 || (a.0 == b.0 && Before(a.1, b.1))
  {}

  // ---------------------------------------------------------------------- list

  /** The filters of a list: kind, prefix of the key, and room. */
  predicate Passes(m: Metadata, q: ListQuery) {
    && (q.kind == None || q.kind == Some(m.kind)) && q.prefix <= m.key
    && (q.room == "" || m.room == Some(q.room))
  }

  /** All that match and live, each once, by kind and then by key. */
  ghost predicate Matching(all: seq<Metadata>, rs: Records, p: Policy, now: nat, q: ListQuery) {
    && (forall m :: m in all <==> exists k :: k in rs && rs[k].metadata == m && Passes(m, q) && Lives(m, p, now))
    && (forall i, j :: 0 <= i < j < |all| ==>
         || Before(KindName(all[i].kind), KindName(all[j].kind))
         || (all[i].kind == all[j].kind && Before(all[i].key, all[j].key)))
  }

  predicate Lives(m: Metadata, p: Policy, now: nat) {
    p.ttlSec.None? || now < m.updatedAt + p.ttlSec.value
  }

  /** The page of `all` from the offset on: as many as asked for, one hundred unless told, at least one; and the offset
      of the next if there are more. */
  predicate PageAt(page: ListPage, all: seq<Metadata>, q: ListQuery) {
    var count := if q.limit == None then 100 else if q.limit.value < 1 then 1 else q.limit.value;
    && page.entries == (if q.cursor >= |all| then [] else if |all| - q.cursor <= count then all[q.cursor..]
                        else all[q.cursor..q.cursor + count])
    && page.cursor == (if q.cursor + count < |all| then Some(q.cursor + count) else None)
  }

  /** A list answers the page at its offset of all that match and live. */
  lemma ListIs(b: Backing, rs: Records, p: Policy, now: nat, q: ListQuery)
    requires WellKeyed(rs)
    ensures var answer := Step(b, rs, p, now, Request.List(q)).1;
      answer.Listed? && exists all :: Matching(all, rs, p, now, q) && PageAt(answer.page, all, q)
  {
    hide WellKeyed, Catalog, Listing, Matching, PageAt, ListPageOf;
    var live := Live(rs, p, now);
    LiveWellKeyed(rs, p, now);
    var names := Listing(Catalog(live, q).Keys);
    var all := seq(|names|, i requires 0 <= i < |names| => Catalog(live, q)[names[i]]);
    CatalogMatches(rs, p, now, q, names, all);
    CatalogPage(live, q, names, all);
  }

  lemma CatalogPage(live: Records, q: ListQuery, names: seq<Name>, all: seq<Metadata>)
    requires names == Listing(Catalog(live, q).Keys) && |all| == |names|
    requires forall i :: 0 <= i < |names| ==> names[i] in Catalog(live, q) && all[i] == Catalog(live, q)[names[i]]
    ensures PageAt(ListPageOf(live, q), all, q)
  {
    hide Catalog, Listing;
  }

  lemma CatalogMatches(rs: Records, p: Policy, now: nat, q: ListQuery, names: seq<Name>, all: seq<Metadata>)
    requires WellKeyed(rs) && WellKeyed(Live(rs, p, now)) && names == Listing(Catalog(Live(rs, p, now), q).Keys)
    requires |all| == |names|
    requires forall i :: 0 <= i < |names| ==>
               names[i] in Catalog(Live(rs, p, now), q) && all[i] == Catalog(Live(rs, p, now), q)[names[i]]
    ensures Matching(all, rs, p, now, q)
  {
    hide Before, StorageKey, Listing;
    var live := Live(rs, p, now);
    forall i | 0 <= i < |all|
      ensures NameOf(all[i]) == names[i]
      ensures exists k :: k in rs && rs[k].metadata == all[i] && Passes(all[i], q) && Lives(all[i], p, now) {
      ListedKey(live, q, names[i]);
    }
    forall k | k in rs && Passes(rs[k].metadata, q) && Lives(rs[k].metadata, p, now) ensures rs[k].metadata in all {
      var n := NameOf(rs[k].metadata);
      assert k in live && n in MatchingNames(live, q);
      ListedKey(live, q, n);
      NamedOnce(rs, k, n);
      assert n in Catalog(live, q).Keys && n in names;
      var i :| 0 <= i < |names| && names[i] == n;
      assert all[i] == rs[k].metadata;
    }
    forall i, j | 0 <= i < j < |all|
      ensures Before(KindName(all[i].kind), KindName(all[j].kind))
              || (all[i].kind == all[j].kind && Before(all[i].key, all[j].key)) {
      assert NameBefore(names[i], names[j]);
      KindsNamed(all[i].kind, all[j].kind);
    }
  }

  lemma NamedOnce(rs: Records, k: string, n: Name)
    requires WellKeyed(rs) && k in rs && n == NameOf(rs[k].metadata)
    ensures n.0 + ['/'] + n.1 == k
  {}

  lemma KindsNamed(a: Kind, b: Kind)
    ensures KindName(a) == KindName(b) ==> a == b
  {
    KindRoundTrip(a);
    KindRoundTrip(b);
  }
}
