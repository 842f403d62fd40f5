/** The cache store over an object bucket (src/cache_store.ts, `createR2CacheStore`). The bucket is a
    map from keys to objects whose listing is in key order and resumes after the last key returned. */
module R2CacheStore {
  import opened Options
  import opened Ordering
  import opened Text
  import opened CacheStore

  /** `uploaded` is in seconds. */
  datatype R2Object = R2Object(
    body: seq<bv8>, uploaded: nat, contentType: Option<string>, custom: map<string, string>)

  type Bucket = map<string, R2Object>

  // ---------------------------------------------------------- object metadata

  function DigitRun(s: string): (r: string)
    ensures AllDigits(r)
    ensures AllDigits(s) ==> r == s
  {
    if s == "" || !IsDigit(s[0]) then "" else [s[0]] + DigitRun(s[1..])
  }

  /** `Number.parseInt(s, 10)`; `None` is NaN. */
  function ParseInt(s: string): Option<int> {
    if s == "" then None
    else if IsSpace(s[0]) then ParseInt(s[1..])
    else
      var signed := s[0] == '-' || s[0] == '+';
      var digits := DigitRun(if signed then s[1..] else s);
      if digits == "" then None
      else
        var n: int := ParseNat(digits);
        Some(if s[0] == '-' then -n else n)
  }

  function Field(name: string, value: Option<string>): map<string, string> {
    if NonEmpty(value).Some? then map[name := value.value] else map[]
  }

  function ToR2Metadata(r: PutRequest, key: string, now: nat): map<string, string> {
    var m := StoredFor(r, now).metadata;
    map["kind" := KindName(r.kind), "key" := key, "updated_at" := Decimal(m.updatedAt)]
    + Field("room", r.room) + Field("ref", r.ref) + Field("content_hash", r.contentHash)
  }

  function ReadField(custom: map<string, string>, name: string): Option<string> {
    if name in custom then NonEmpty(Some(custom[name])) else None
  }

  function ParseUpdatedAt(raw: Option<string>, fallback: nat): nat {
    var n := if raw.Some? then ParseInt(raw.value) else None;
    if n.None? then fallback else if n.value < 0 then 0 else n.value
  }

  function ReadR2Object(kind: Kind, key: string, o: R2Object): Stored {
    var custom := o.custom;
    var readKind := if "kind" in custom then KindOf(custom["kind"]) else None;
    var readKey := ReadField(custom, "key");
    var updatedAt := if "updated_at" in custom then Some(custom["updated_at"]) else None;
    Stored(o.body, Metadata(
      if readKind.Some? then readKind.value else kind,
      if readKey.Some? then readKey.value else key,
      |o.body|, ParseUpdatedAt(updatedAt, o.uploaded),
      ReadField(custom, "room"), ReadField(custom, "ref"), ReadField(custom, "content_hash"),
      NonEmpty(o.contentType)))
  }

  function R2ObjectFor(r: PutRequest, now: nat): R2Object {
    R2Object(r.body, now, NonEmpty(r.contentType), ToR2Metadata(r, Trim(r.key), now))
  }

  lemma ParseIntDecimal(n: nat)
    ensures ParseInt(Decimal(n)) == Some(n)
  {
    DecimalParses(n);
  }

  lemma KindRoundTrip(kind: Kind)
    ensures KindOf(KindName(kind)) == Some(kind)
  {}

  /** What is written to the bucket is read back as the record the memory store would hold. */
  lemma R2MetadataRoundTrip(r: PutRequest, now: nat, kind: Kind, key: string)
    requires Trim(r.key) != ""
    ensures ReadR2Object(kind, key, R2ObjectFor(r, now)) == StoredFor(r, now)
  {
    hide Decimal, ParseInt, Trim, KindName, KindOf;
    KindRoundTrip(r.kind);
    ParseIntDecimal(StoredFor(r, now).metadata.updatedAt);
    var custom := R2ObjectFor(r, now).custom;
    assert custom["kind"] == KindName(r.kind);
    assert custom["key"] == Trim(r.key);
    assert custom["updated_at"] == Decimal(StoredFor(r, now).metadata.updatedAt);
  }

  // -------------------------------------------------------------------- view

  /** A key under the store's prefix that reads as a storage key. */
  predicate Owned(prefix: string, r2Key: string) {
    prefix <= r2Key && FromStorageKey(r2Key[|prefix|..]).Some?
  }

  predicate Held(b: Bucket, prefix: string, r2Key: string) {
    r2Key in b && Owned(prefix, r2Key)
  }

  function ReadHeld(b: Bucket, prefix: string, r2Key: string): Stored
    requires Held(b, prefix, r2Key)
  {
    var (kind, key) := FromStorageKey(r2Key[|prefix|..]).value;
    ReadR2Object(kind, key, b[r2Key])
  }

  /** The records the bucket holds, by storage key. */
  ghost function View(b: Bucket, prefix: string): Records {
    var keys := set r2Key | r2Key in b && Held(b, prefix, r2Key) :: r2Key[|prefix|..];
    map k | k in keys && Held(b, prefix, prefix + k) :: ReadHeld(b, prefix, prefix + k)
  }

  lemma ViewAt(b: Bucket, prefix: string, k: string)
    ensures k in View(b, prefix) <==> Held(b, prefix, prefix + k)
    ensures k in View(b, prefix) ==> View(b, prefix)[k] == ReadHeld(b, prefix, prefix + k)
  {
    assert (prefix + k)[|prefix|..] == k;
  }

  lemma HeldKey(b: Bucket, prefix: string, r2Key: string)
    requires Held(b, prefix, r2Key)
    ensures prefix + r2Key[|prefix|..] == r2Key
    ensures r2Key[|prefix|..] in View(b, prefix)
    ensures View(b, prefix)[r2Key[|prefix|..]] == ReadHeld(b, prefix, r2Key)
  {
    ViewAt(b, prefix, r2Key[|prefix|..]);
  }

  /** Nothing outside the prefix, or under it but not a record of the store, is touched. */
  ghost predicate OthersKept(b: Bucket, c: Bucket, prefix: string) {
    forall r2Key :: !Owned(prefix, r2Key) ==>
      (r2Key in b <==> r2Key in c) && (r2Key in b ==> b[r2Key] == c[r2Key])
  }

  lemma ViewRemove(b: Bucket, prefix: string, k: string)
    requires k in View(b, prefix)
    ensures View(b - {prefix + k}, prefix) == View(b, prefix) - {k}
  {
    var c := b - {prefix + k};
    forall j ensures j in View(c, prefix) <==> j in View(b, prefix) && j != k {
      ViewAt(b, prefix, j);
      ViewAt(c, prefix, j);
      if prefix + j == prefix + k { PrefixInjective(prefix, j, k); }
    }
    forall j | j in View(c, prefix) ensures View(c, prefix)[j] == View(b, prefix)[j] {
      ViewAt(b, prefix, j);
      ViewAt(c, prefix, j);
    }
  }

  lemma ViewWrite(b: Bucket, prefix: string, r: PutRequest, now: nat)
    requires Trim(r.key) != ""
    ensures var k := StorageKey(r.kind, Trim(r.key));
            View(b[prefix + k := R2ObjectFor(r, now)], prefix) == View(b, prefix)[k := StoredFor(r, now)]
  {
    hide R2ObjectFor, StoredFor, ReadR2Object, StorageKey, FromStorageKey;
    var k, o := StorageKey(r.kind, Trim(r.key)), R2ObjectFor(r, now);
    var c := b[prefix + k := o];
    StorageKeyRoundTrip(r.kind, Trim(r.key));
    R2MetadataRoundTrip(r, now, r.kind, Trim(r.key));
    assert (prefix + k)[|prefix|..] == k;
    forall j
      ensures j in View(c, prefix) <==> j in View(b, prefix) || j == k
      ensures j in View(c, prefix) ==> View(c, prefix)[j] == if j == k then StoredFor(r, now) else View(b, prefix)[j]
    {
      ViewAt(b, prefix, j);
      ViewAt(c, prefix, j);
      if prefix + j == prefix + k { PrefixInjective(prefix, j, k); }
    }
  }

  // ----------------------------------------------------------- bucket listing

  /** The bucket keys a listing that resumes after `cursor` still has to return. */
  predicate Remaining(r2Key: string, prefix: string, cursor: Option<string>) {
    prefix <= r2Key && (cursor.Some? ==> Before(cursor.value, r2Key))
  }

  function RemainingKeys(b: Bucket, prefix: string, cursor: Option<string>): set<string> {
    set r2Key | r2Key in b && Remaining(r2Key, prefix, cursor)
  }

  /** One page of a bucket listing: the first keys in order, and whether more follow. */
  ghost predicate IsPage(page: seq<string>, truncated: bool, keys: set<string>, limit: nat) {
    && Ascending(Before, page) && Elements(page) <= keys && |page| <= limit
    && (truncated <==> Elements(page) != keys)
    && (forall x, y :: x in page && y in keys && y !in page ==> Before(x, y))
    && (truncated ==> |page| == limit)
  }

  method ListBucket(b: Bucket, prefix: string, limit: nat, cursor: Option<string>)
    returns (page: seq<string>, truncated: bool)
    ensures IsPage(page, truncated, RemainingKeys(b, prefix, cursor), limit) && Distinct(page)
  {
    hide Before, Remaining;
    var keys := RemainingKeys(b, prefix, cursor);
    var listed: seq<string> := [];
    var todo := keys;
    while todo != {}
      invariant Distinct(listed) && todo <= keys
      invariant forall x :: x in listed <==> x in keys && x !in todo
      decreases |todo|
    {
      var x :| x in todo;
      listed := listed + [x];
      todo := todo - {x};
    }
    BeforeIsOrder();
    SortAscending(Before, listed);
    SortKeepsElements(Before, listed);
    var sorted := Sort(Before, listed);
    truncated := |sorted| > limit;
    page := if truncated then sorted[..limit] else sorted;
    FirstPage(sorted, keys, limit);
    assert forall i, j :: 0 <= i < j < |page| ==> Before(page[i], page[j]);
  }

  lemma FirstPage(sorted: seq<string>, keys: set<string>, limit: nat)
    requires StrictTotalOrder(Before) && Ascending(Before, sorted) && forall x :: x in sorted <==> x in keys
    ensures IsPage(if |sorted| > limit then sorted[..limit] else sorted, |sorted| > limit, keys, limit)
  {
    hide Before;
    if |sorted| > limit {
      var page := sorted[..limit];
      assert sorted[limit] in keys;
      assert sorted[limit] !in page;
      forall x, y | x in page && y in keys && y !in page ensures Before(x, y) {
        var i :| 0 <= i < limit && page[i] == x;
        var j :| 0 <= j < |sorted| && sorted[j] == y;
        assert forall n :: 0 <= n < limit ==> page[n] == sorted[n] && page[n] in page;
        assert sorted[i] == x;
      }
    } else {
      assert Elements(sorted) == keys;
    }
  }

  /** The next page starts where this one ended. */
  lemma NextPage(page: seq<string>, truncated: bool, b: Bucket, c: Bucket, prefix: string,
                 cursor: Option<string>, limit: nat)
    requires IsPage(page, truncated, RemainingKeys(b, prefix, cursor), limit) && page != []
    requires forall r2Key :: r2Key in c ==> r2Key in b
    requires forall r2Key :: r2Key in b && r2Key !in page ==> r2Key in c
    ensures RemainingKeys(c, prefix, Some(page[|page| - 1])) == RemainingKeys(b, prefix, cursor) - Elements(page)
  {
    hide Before;
    BeforeIsOrder();
    var last := page[|page| - 1];
    assert last in page && last in Elements(page);
    assert Remaining(last, prefix, cursor);
    assert forall i :: 0 <= i < |page| - 1 ==> Before(page[i], last);
    forall y | y in RemainingKeys(c, prefix, Some(last)) ensures y in RemainingKeys(b, prefix, cursor) && y !in page {
      assert Before(last, y) && !Before(last, last);
      assert cursor.Some? ==> Before(cursor.value, y);
    }
  }

  // ------------------------------------------------------------------ policy

  datatype PolicyEntry = PolicyEntry(r2Key: string, metadata: Metadata)

  predicate Describes(e: PolicyEntry, b: Bucket, prefix: string) {
    Held(b, prefix, e.r2Key) && e.metadata == ReadHeld(b, prefix, e.r2Key).metadata
  }

  /** The entries of all objects held, apart from those still to be listed. */
  ghost predicate EntriesOf(entries: seq<PolicyEntry>, b: Bucket, prefix: string, rest: set<string>) {
    Distinct(entries) && forall e :: e in entries <==> Describes(e, b, prefix) && e.r2Key !in rest
  }

  function EntryKey(e: PolicyEntry, prefix: string): string
    requires prefix <= e.r2Key
  {
    e.r2Key[|prefix|..]
  }

  // ------------------------------------------------------------- specification

  /** Prunes, then evicts; without a policy it does nothing. */
  ghost function AfterWrite(written: Records, p: Policy, now: nat): Records {
    if p.ttlSec.None? && p.maxBytes.None? then written else Evict(Live(written, p, now), p)
  }

  /** Writes first, and applies the policy after. */
  ghost function R2Put(rs: Records, p: Policy, now: nat, r: PutRequest): Records {
    AfterWrite(rs[StorageKey(r.kind, Trim(r.key)) := StoredFor(r, now)], p, now)
  }

  /** One call of the bucket store. */
  ghost function R2Step(rs: Records, p: Policy, now: nat, q: Request): (Records, Answer) {
    if EmptyKey(q) then (rs, Refused)
    else
      match q
      case Put(r) => (R2Put(rs, p, now, r), Written)
      case Get(kind, key) =>
        var k := StorageKey(kind, Trim(key));
        var found := Lookup(rs, p, now, k);
        (if found.None? then Without(rs, k) else rs, Found(found))
      case Delete(kind, key) =>
        var k := StorageKey(kind, Trim(key));
        (Without(rs, k), Deleted(Lookup(rs, p, now, k).Some?))
      case List(query) => (Live(rs, p, now), Listed(ListPageOf(Live(rs, p, now), query)))
  }

  const PAGE: nat := 1000

  class R2CacheStore {
    const prefix: string
    const policy: Policy
    var bucket: Bucket

    constructor (prefix: string, policy: Policy, bucket: Bucket)
      ensures this.prefix == prefix && this.policy == policy && this.bucket == bucket
    {
      this.prefix := prefix;
      this.policy := policy;
      this.bucket := bucket;
    }

    method ListPolicyEntries() returns (entries: seq<PolicyEntry>)
      ensures EntriesOf(entries, bucket, prefix, {})
    {
      hide Remaining, Describes;
      entries := [];
      var cursor: Option<string> := None;
      ghost var rest := RemainingKeys(bucket, prefix, None);
      NothingListed(bucket, prefix);
      var more := true;
      while more
        invariant EntriesOf(entries, bucket, prefix, rest)
        invariant rest == if more then RemainingKeys(bucket, prefix, cursor) else {}
        decreases |rest|, more
      {
        var page, truncated := ListBucket(bucket, prefix, PAGE, cursor);
        entries := AppendEntries(entries, page, rest);
        if page != [] {
          assert page[0] in Elements(page);
          NextPage(page, truncated, bucket, bucket, prefix, cursor, PAGE);
          cursor := Some(page[|page| - 1]);
        }
        rest := rest - Elements(page);
        more := truncated;
      }
    }

    method AppendEntries(entries: seq<PolicyEntry>, page: seq<string>, ghost rest: set<string>)
      returns (all: seq<PolicyEntry>)
      requires EntriesOf(entries, bucket, prefix, rest) && Distinct(page)
      requires Elements(page) <= rest <= bucket.Keys
      ensures EntriesOf(all, bucket, prefix, rest - Elements(page))
    {
      hide FromStorageKey, ReadR2Object;
      all := entries;
      for i := 0 to |page|
        invariant EntriesOf(all, bucket, prefix, rest - Elements(page[..i]))
      {
        assert page[i] in Elements(page);
        assert Elements(page[..i + 1]) == Elements(page[..i]) + {page[i]};
        assert page[i] !in page[..i];
        if Held(bucket, prefix, page[i]) {
          all := all + [PolicyEntry(page[i], ReadHeld(bucket, prefix, page[i]).metadata)];
        }
      }
      assert page[..|page|] == page;
    }

    method PruneExpiredPolicyEntries(entries: seq<PolicyEntry>, now: nat) returns (kept: seq<PolicyEntry>)
      requires EntriesOf(entries, bucket, prefix, {})
      modifies this
      ensures View(bucket, prefix) == Live(View(old(bucket), prefix), policy, now)
      ensures EntriesOf(kept, bucket, prefix, {}) && OthersKept(old(bucket), bucket, prefix)
    {
      hide View, ReadR2Object, FromStorageKey, Live;
      ghost var live := Live(View(bucket, prefix), policy, now);
      if policy.ttlSec.None? {
        NothingExpires(View(bucket, prefix), policy, now);
        return entries;
      }
      kept := [];
      for i := 0 to |entries|
        invariant Distinct(kept + entries[i..])
        invariant forall e :: e in kept + entries[i..] <==> Describes(e, bucket, prefix)
        invariant forall e :: e in kept ==> !Expired(e.metadata, policy, now)
        invariant Live(View(bucket, prefix), policy, now) == live
        invariant OthersKept(old(bucket), bucket, prefix)
      {
        var e := entries[i];
        assert entries[i..] == [e] + entries[i + 1..];
        assert (kept + entries[i..])[|kept|] == e;
        if Expired(e.metadata, policy, now) {
          DropExpired(bucket, prefix, e, policy, now);
          DropEntry(kept, e, entries[i + 1..], bucket, prefix);
          bucket := bucket - {e.r2Key};
        } else {
          ConcatAssociative(kept, [e], entries[i + 1..]);
          kept := kept + [e];
        }
      }
      assert kept + entries[|entries|..] == kept;
      AllLive(kept, bucket, prefix, policy, now);
    }

    method EnforceMaxBytesPolicy(entries: seq<PolicyEntry>)
      requires EntriesOf(entries, bucket, prefix, {})
      modifies this
      ensures View(bucket, prefix) == Evict(View(old(bucket), prefix), policy)
      ensures OthersKept(old(bucket), bucket, prefix)
    {
      if policy.maxBytes.None? {
        return;
      }
      hide View, Held, Describes, EvictFrom, EvictionOrder, Lists, Bytes, TotalSize, OthersKept, Sort;
      ghost var view := View(bucket, prefix);
      EntriesList(entries, bucket, prefix);
      TotalIsBytes(entries, view, prefix);
      var total := TotalBytes(entries);
      SortedIsEvictionOrder(entries, view, prefix);
      OrderKeys(view);
      DeleteOldest(Sort(EvictBefore, CandidatesOf(entries)), total, EvictionOrder(view));
    }

    method TotalBytes(entries: seq<PolicyEntry>) returns (total: nat)
      ensures total == TotalSize(entries)
    {
      total := 0;
      for i := 0 to |entries|
        invariant total == TotalSize(entries[..i])
      {
        assert entries[..i + 1][..i] == entries[..i];
        total := total + entries[i].metadata.size;
      }
      assert entries[..|entries|] == entries;
    }

    method DeleteOldest(sorted: seq<Candidate>, total: nat, ghost order: seq<Candidate>)
      requires policy.maxBytes.Some? && total == Bytes(View(bucket, prefix))
      requires |order| == |sorted|
      requires forall i :: 0 <= i < |order| ==> sorted[i].1 == prefix + order[i].1 && order[i].1 in View(bucket, prefix)
      requires forall i, j :: 0 <= i < j < |order| ==> order[i].1 != order[j].1
      modifies this
      ensures View(bucket, prefix) == EvictFrom(order, View(old(bucket), prefix), policy.maxBytes.value)
      ensures OthersKept(old(bucket), bucket, prefix)
    {
      hide Bytes, View, Held, OthersKept;
      KeptByItself(bucket, prefix);
      var max, left, i := policy.maxBytes.value, total, 0;
      while i < |sorted| && left > max
        invariant 0 <= i <= |sorted| && left == Bytes(View(bucket, prefix))
        invariant forall j :: i <= j < |order| ==> order[j].1 in View(bucket, prefix)
        invariant EvictFrom(order[i..], View(bucket, prefix), max) == EvictFrom(order, View(old(bucket), prefix), max)
        invariant OthersKept(old(bucket), bucket, prefix)
      {
        assert order[i..][1..] == order[i + 1..];
        DeleteOne(bucket, prefix, order[i].1);
        OthersKeptTransitive(old(bucket), bucket, bucket - {sorted[i].1}, prefix);
        left := left - |bucket[sorted[i].1].body|;
        bucket := bucket - {sorted[i].1};
        i := i + 1;
      }
    }

    method ApplyPolicyAfterWrite(now: nat)
      modifies this
      ensures View(bucket, prefix) == AfterWrite(View(old(bucket), prefix), policy, now)
      ensures OthersKept(old(bucket), bucket, prefix)
    {
      if policy.ttlSec.None? && policy.maxBytes.None? {
        return;
      }
      hide View, Held, Describes, EntriesOf, Live, Evict;
      var entries := ListPolicyEntries();
      entries := PruneExpiredPolicyEntries(entries, now);
      ghost var pruned := bucket;
      EnforceMaxBytesPolicy(entries);
      OthersKeptTransitive(old(bucket), pruned, bucket, prefix);
    }

    method Put(now: nat, r: PutRequest) returns (answer: Answer)
      modifies this
      ensures (View(bucket, prefix), answer) == R2Step(View(old(bucket), prefix), policy, now, Request.Put(r))
      ensures OthersKept(old(bucket), bucket, prefix)
    {
      if Trim(r.key) == "" {
        return Refused;
      }
      hide View, AfterWrite, R2ObjectFor, StoredFor, OthersKept;
      ViewWrite(bucket, prefix, r, now);
      WriteKeepsOthers(bucket, prefix, r.kind, Trim(r.key), R2ObjectFor(r, now));
      bucket := bucket[prefix + StorageKey(r.kind, Trim(r.key)) := R2ObjectFor(r, now)];
      ghost var written := bucket;
      ApplyPolicyAfterWrite(now);
      OthersKeptTransitive(old(bucket), written, bucket, prefix);
      answer := Written;
    }

    /** The record under a storage key, which is deleted when it has expired. */
    method Fetch(now: nat, kind: Kind, key: string) returns (found: Option<Stored>)
      requires key != ""
      modifies this
      ensures var k := StorageKey(kind, key);
        && found == Lookup(View(old(bucket), prefix), policy, now, k)
        && View(bucket, prefix)
             == if found.None? then Without(View(old(bucket), prefix), k) else View(old(bucket), prefix)
      ensures OthersKept(old(bucket), bucket, prefix)
    {
      hide View, ReadR2Object, StorageKey, FromStorageKey, OthersKept;
      KeptByItself(bucket, prefix);
      var k := StorageKey(kind, key);
      StorageKeyRoundTrip(kind, key);
      ViewAt(bucket, prefix, k);
      assert (prefix + k)[|prefix|..] == k;
      RemoveKeepsOthers(bucket, prefix, k);
      if prefix + k !in bucket {
        assert Without(View(bucket, prefix), k) == View(bucket, prefix);
        return None;
      }
      var read := ReadR2Object(kind, key, bucket[prefix + k]);
      if Expired(read.metadata, policy, now) {
        ViewRemove(bucket, prefix, k);
        bucket := bucket - {prefix + k};
        return None;
      }
      found := Some(read);
    }

    method Get(now: nat, kind: Kind, key: string) returns (answer: Answer)
      modifies this
      ensures (View(bucket, prefix), answer) == R2Step(View(old(bucket), prefix), policy, now, Request.Get(kind, key))
      ensures OthersKept(old(bucket), bucket, prefix)
    {
      if Trim(key) == "" {
        return Refused;
      }
      hide View, OthersKept, StorageKey;
      var found := Fetch(now, kind, Trim(key));
      answer := Found(found);
    }

    method Delete(now: nat, kind: Kind, key: string) returns (answer: Answer)
      modifies this
      ensures (View(bucket, prefix), answer)
         == R2Step(View(old(bucket), prefix), policy, now, Request.Delete(kind, key))
      ensures OthersKept(old(bucket), bucket, prefix)
    {
      if Trim(key) == "" {
        return Refused;
      }
      hide View, OthersKept, StorageKey, FromStorageKey, Owned, Trim;
      StorageKeyRoundTrip(kind, Trim(key));
      var existing := Fetch(now, kind, Trim(key));
      if existing.None? {
        return Deleted(false);
      }
      var k := StorageKey(kind, Trim(key));
      ViewAt(bucket, prefix, k);
      ViewRemove(bucket, prefix, k);
      RemoveKeepsOthers(bucket, prefix, k);
      ghost var fetched := bucket;
      bucket := bucket - {prefix + k};
      OthersKeptTransitive(old(bucket), fetched, bucket, prefix);
      answer := Deleted(true);
    }

    method List(now: nat, q: ListQuery) returns (answer: Answer)
      requires WellKeyed(View(bucket, prefix))
      modifies this
      ensures (View(bucket, prefix), answer) == R2Step(View(old(bucket), prefix), policy, now, Request.List(q))
      ensures OthersKept(old(bucket), bucket, prefix)
    {
      hide View, Held, Catalog, WellKeyed, OthersKept, Remaining, PageOf, Seen, Live;
      ghost var live := Live(View(bucket, prefix), policy, now);
      LiveWellKeyed(View(bucket, prefix), policy, now);
      var entries: map<Name, Metadata> := map[];
      var cursor: Option<string> := None;
      ghost var rest := RemainingKeys(bucket, prefix, None);
      NothingSeen(bucket, prefix, policy, now, q);
      KeptByItself(bucket, prefix);
      var more := true;
      while more
        invariant Swept(bucket, prefix, policy, now, live, rest)
        invariant rest == if more then RemainingKeys(bucket, prefix, cursor) else {}
        invariant entries == Catalog(Seen(live, prefix, rest), q)
        invariant OthersKept(old(bucket), bucket, prefix)
        decreases |rest|, more
      {
        ghost var before := bucket;
        var page, truncated := ListBucket(bucket, prefix, PAGE, cursor);
        entries := SweepPage(now, q, page, entries, live, rest);
        OthersKeptTransitive(old(bucket), before, bucket, prefix);
        if page != [] {
          assert page[0] in Elements(page);
          NextPage(page, truncated, before, bucket, prefix, cursor, PAGE);
          cursor := Some(page[|page| - 1]);
        }
        rest := rest - Elements(page);
        more := truncated;
      }
      AllSwept(bucket, prefix, policy, now, live);
      var page := PaginateMetadata(entries, q);
      answer := Listed(page);
    }

    /** Deletes the expired objects of a page and collects the entries that match. */
    method SweepPage(now: nat, q: ListQuery, page: seq<string>, entries: map<Name, Metadata>,
                     ghost live: Records, ghost rest: set<string>)
      returns (all: map<Name, Metadata>)
      requires Distinct(page) && Elements(page) <= rest <= bucket.Keys
      requires WellKeyed(live) && Swept(bucket, prefix, policy, now, live, rest)
      requires entries == Catalog(Seen(live, prefix, rest), q)
      modifies this
      ensures Swept(bucket, prefix, policy, now, live, rest - Elements(page))
      ensures all == Catalog(Seen(live, prefix, rest - Elements(page)), q)
      ensures OthersKept(old(bucket), bucket, prefix)
      ensures bucket.Keys <= old(bucket).Keys && forall k :: k in old(bucket) && k !in page ==> k in bucket
    {
      hide Owned, ReadHeld, Matches, Catalog, WellKeyed, Seen, Swept, Expired, NameOf, OthersKept;
      all := entries;
      ghost var left := rest;
      KeptByItself(bucket, prefix);
      for i := 0 to |page|
        invariant left == rest - Elements(page[..i])
        invariant Swept(bucket, prefix, policy, now, live, left)
        invariant all == Catalog(Seen(live, prefix, left), q)
        invariant OthersKept(old(bucket), bucket, prefix)
        invariant bucket.Keys <= old(bucket).Keys
        invariant forall k :: k in old(bucket) && k !in page[..i] ==> k in bucket
      {
        var r2Key := page[i];
        assert r2Key in Elements(page);
        assert Elements(page[..i + 1]) == Elements(page[..i]) + {r2Key};
        assert r2Key !in page[..i];
        SweepOne(bucket, prefix, policy, now, q, live, left, r2Key);
        OthersKeptTransitive(old(bucket), bucket, AfterSweep(bucket, prefix, policy, now, r2Key), prefix);
        if Held(bucket, prefix, r2Key) {
          var m := ReadHeld(bucket, prefix, r2Key).metadata;
          if Expired(m, policy, now) {
            bucket := bucket - {r2Key};
          } else if Matches(m, q) {
            all := all[NameOf(m) := m];
          }
        }
        left := left - {r2Key};
      }
      assert page[..|page|] == page;
    }
  }

  lemma NothingListed(b: Bucket, prefix: string)
    ensures EntriesOf([], b, prefix, RemainingKeys(b, prefix, None))
  {}

  /** Deleting a record's object removes the record and its size, and nothing else. */
  lemma DeleteOne(b: Bucket, prefix: string, k: string)
    requires k in View(b, prefix)
    ensures prefix + k in b && View(b - {prefix + k}, prefix) == View(b, prefix) - {k}
    ensures Bytes(View(b, prefix)) == |b[prefix + k].body| + Bytes(View(b, prefix) - {k})
    ensures OthersKept(b, b - {prefix + k}, prefix)
  {
    hide View, Bytes, FromStorageKey, OthersKept;
    ViewAt(b, prefix, k);
    assert (prefix + k)[|prefix|..] == k;
    BytesRemove(View(b, prefix), k);
    ViewRemove(b, prefix, k);
    RemoveKeepsOthers(b, prefix, k);
  }

  lemma NothingExpires(rs: Records, p: Policy, now: nat)
    requires p.ttlSec.None?
    ensures Live(rs, p, now) == rs
  {}

  lemma DropExpired(b: Bucket, prefix: string, e: PolicyEntry, p: Policy, now: nat)
    requires Describes(e, b, prefix) && Expired(e.metadata, p, now)
    ensures Live(View(b - {e.r2Key}, prefix), p, now) == Live(View(b, prefix), p, now)
  {
    hide View, ReadR2Object, FromStorageKey;
    HeldKey(b, prefix, e.r2Key);
    ViewRemove(b, prefix, EntryKey(e, prefix));
  }

  /** Deleting one object removes exactly its entry. */
  lemma DropEntry(kept: seq<PolicyEntry>, e: PolicyEntry, rest: seq<PolicyEntry>, b: Bucket, prefix: string)
    requires Distinct(kept + ([e] + rest))
    requires forall f :: f in kept + ([e] + rest) <==> Describes(f, b, prefix)
    ensures Distinct(kept + rest)
    ensures forall f :: f in kept + rest <==> Describes(f, b - {e.r2Key}, prefix)
  {
    hide ReadR2Object, FromStorageKey;
    var all := kept + ([e] + rest);
    forall f ensures f in kept + rest <==> f in all && f != e {
      assert f in all <==> f in kept || f == e || f in rest;
      assert all[|kept|] == e;
      assert e !in kept by { assert forall i :: 0 <= i < |kept| ==> all[i] == kept[i]; }
      assert e !in rest by { assert forall i :: 0 <= i < |rest| ==> all[|kept| + 1 + i] == rest[i]; }
    }
    forall i, j | 0 <= i < j < |kept + rest| ensures (kept + rest)[i] != (kept + rest)[j] {
      assert (kept + rest)[i] == all[if i < |kept| then i else i + 1];
      assert (kept + rest)[j] == all[if j < |kept| then j else j + 1];
    }
    assert Describes(e, b, prefix) by { assert all[|kept|] == e; }
    forall f ensures Describes(f, b - {e.r2Key}, prefix) <==> Describes(f, b, prefix) && f != e {
      assert f == PolicyEntry(f.r2Key, f.metadata) && e == PolicyEntry(e.r2Key, e.metadata);
    }
  }

  lemma AllLive(kept: seq<PolicyEntry>, b: Bucket, prefix: string, p: Policy, now: nat)
    requires forall e :: Describes(e, b, prefix) ==> e in kept
    requires forall e :: e in kept ==> !Expired(e.metadata, p, now)
    ensures Live(View(b, prefix), p, now) == View(b, prefix)
  {
    hide View, ReadR2Object, FromStorageKey;
    forall k | k in View(b, prefix) ensures !Expired(View(b, prefix)[k].metadata, p, now) {
      ViewAt(b, prefix, k);
      assert Describes(PolicyEntry(prefix + k, View(b, prefix)[k].metadata), b, prefix);
    }
  }

  // ---------------------------------------------------------------- eviction

  predicate Names(e: PolicyEntry, rs: Records, prefix: string) {
    && prefix <= e.r2Key && EntryKey(e, prefix) in rs
    && rs[EntryKey(e, prefix)].metadata == e.metadata
  }

  /** The entries name every record once, with its metadata. */
  ghost predicate Lists(entries: seq<PolicyEntry>, rs: Records, prefix: string) {
    && (forall i :: 0 <= i < |entries| ==> Names(entries[i], rs, prefix))
    && (forall i, j :: 0 <= i < j < |entries| ==> entries[i].r2Key != entries[j].r2Key)
    && (forall k :: k in rs ==> exists i :: 0 <= i < |entries| && entries[i].r2Key == prefix + k)
  }

  lemma EntriesList(entries: seq<PolicyEntry>, b: Bucket, prefix: string)
    requires EntriesOf(entries, b, prefix, {})
    ensures Lists(entries, View(b, prefix), prefix)
  {
    hide View, ReadR2Object, FromStorageKey;
    forall i | 0 <= i < |entries| ensures Names(entries[i], View(b, prefix), prefix) {
      assert Describes(entries[i], b, prefix);
      HeldKey(b, prefix, entries[i].r2Key);
    }
    forall i, j | 0 <= i < j < |entries| ensures entries[i].r2Key != entries[j].r2Key {
      assert Describes(entries[i], b, prefix) && Describes(entries[j], b, prefix);
      assert entries[i] == PolicyEntry(entries[i].r2Key, entries[i].metadata);
      assert entries[j] == PolicyEntry(entries[j].r2Key, entries[j].metadata);
    }
    forall k | k in View(b, prefix) ensures exists i :: 0 <= i < |entries| && entries[i].r2Key == prefix + k {
      ViewAt(b, prefix, k);
      assert PolicyEntry(prefix + k, ReadHeld(b, prefix, prefix + k).metadata) in entries;
    }
  }

  function TotalSize(entries: seq<PolicyEntry>): nat {
    if entries == [] then 0 else TotalSize(entries[..|entries| - 1]) + entries[|entries| - 1].metadata.size
  }

  lemma {:induction false} TotalIsBytes(entries: seq<PolicyEntry>, rs: Records, prefix: string)
    requires Lists(entries, rs, prefix)
    ensures TotalSize(entries) == Bytes(rs)
  {
    hide Bytes;
    if entries == [] {
      assert rs == map[] by { assert forall k :: k !in rs; }
      NoBytes();
    } else {
      var n := |entries| - 1;
      var k := EntryKey(entries[n], prefix);
      ListsInit(entries, rs, prefix);
      TotalIsBytes(entries[..n], rs - {k}, prefix);
      BytesRemove(rs, k);
    }
  }

  lemma NoBytes()
    ensures Bytes(map[]) == 0
  {}

  lemma ListsInit(entries: seq<PolicyEntry>, rs: Records, prefix: string)
    requires Lists(entries, rs, prefix) && entries != []
    ensures Lists(entries[..|entries| - 1], rs - {EntryKey(entries[|entries| - 1], prefix)}, prefix)
  {
    var n := |entries| - 1;
    var k, init := EntryKey(entries[n], prefix), entries[..n];
    assert Names(entries[n], rs, prefix) && prefix + k == entries[n].r2Key;
    hide Names, EntryKey;
    forall i | 0 <= i < n ensures Names(init[i], rs - {k}, prefix) {
      StillNames(entries[i], rs, prefix, k);
    }
    InitCovers(entries, rs, prefix, k);
  }

  lemma StillNames(e: PolicyEntry, rs: Records, prefix: string, k: string)
    requires Names(e, rs, prefix) && e.r2Key != prefix + k
    ensures Names(e, rs - {k}, prefix)
  {
    assert prefix + EntryKey(e, prefix) == e.r2Key;
  }

  lemma InitCovers(entries: seq<PolicyEntry>, rs: Records, prefix: string, k: string)
    requires Lists(entries, rs, prefix) && entries != [] && entries[|entries| - 1].r2Key == prefix + k
    ensures var init := entries[..|entries| - 1];
      forall j :: j in rs && j != k ==> exists i :: 0 <= i < |init| && init[i].r2Key == prefix + j
  {
    hide Names;
    var n := |entries| - 1;
    var init := entries[..n];
    forall j | j in rs && j != k ensures exists i :: 0 <= i < n && init[i].r2Key == prefix + j {
      var i :| 0 <= i < |entries| && entries[i].r2Key == prefix + j;
      if i == n { PrefixInjective(prefix, j, k); }
      assert init[i].r2Key == prefix + j;
    }
  }

  /** The eviction candidates, under their bucket keys. */
  function CandidatesOf(entries: seq<PolicyEntry>): (candidates: seq<Candidate>)
    ensures |candidates| == |entries|
  {
    seq(|entries|, i requires 0 <= i < |entries| => (entries[i].metadata.updatedAt, entries[i].r2Key))
  }

  /** Sorting by bucket key is sorting by storage key. */
  lemma SortedIsEvictionOrder(entries: seq<PolicyEntry>, rs: Records, prefix: string)
    requires Lists(entries, rs, prefix)
    ensures var sorted, order := Sort(EvictBefore, CandidatesOf(entries)), EvictionOrder(rs);
      |sorted| == |order| && forall i :: 0 <= i < |order| ==> sorted[i].1 == prefix + order[i].1
  {
    hide EvictBefore, Lists, CandidatesOf, Candidates, Sort;
    var candidates := CandidatesOf(entries);
    EvictBeforeIsOrder();
    CandidatesDistinct(entries, rs, prefix);
    SortAscending(EvictBefore, candidates);
    SortKeepsElements(EvictBefore, candidates);
    var sorted := Sort(EvictBefore, candidates);
    forall i | 0 <= i < |sorted| ensures prefix <= sorted[i].1 {
      assert sorted[i] in sorted;
    }
    var bare := seq(|sorted|, i requires 0 <= i < |sorted| => (sorted[i].0, sorted[i].1[|prefix|..]));
    forall i | 0 <= i < |bare| ensures sorted[i] == (bare[i].0, prefix + bare[i].1) {
      assert prefix + sorted[i].1[|prefix|..] == sorted[i].1;
      assert sorted[i] == (sorted[i].0, sorted[i].1);
    }
    BareAscending(sorted, bare, prefix);
    forall c ensures c in bare <==> c in Candidates(rs) {
      BareCandidate(entries, sorted, bare, rs, prefix, c);
    }
    AscendingUnique(EvictBefore, bare, EvictionOrder(rs));
  }

  lemma CandidatesDistinct(entries: seq<PolicyEntry>, rs: Records, prefix: string)
    requires Lists(entries, rs, prefix)
    ensures Distinct(CandidatesOf(entries))
    ensures forall c :: c in CandidatesOf(entries) ==> prefix <= c.1
  {}

  lemma BareAscending(sorted: seq<Candidate>, bare: seq<Candidate>, prefix: string)
    requires Ascending(EvictBefore, sorted) && |bare| == |sorted|
    requires forall i :: 0 <= i < |bare| ==> sorted[i] == (bare[i].0, prefix + bare[i].1)
    ensures Ascending(EvictBefore, bare)
  {
    hide Before;
    forall i, j | 0 <= i < j < |bare| ensures EvictBefore(bare[i], bare[j]) {
      assert EvictBefore(sorted[i], sorted[j]);
      BeforePrefix(prefix, bare[i].1, bare[j].1);
    }
  }

  lemma BareCandidate(entries: seq<PolicyEntry>, sorted: seq<Candidate>, bare: seq<Candidate>, rs: Records,
                      prefix: string, c: Candidate)
    requires Lists(entries, rs, prefix)
    requires forall x :: x in sorted <==> x in CandidatesOf(entries)
    requires |bare| == |sorted|
    requires forall i :: 0 <= i < |bare| ==> sorted[i] == (bare[i].0, prefix + bare[i].1)
    ensures c in bare <==> c in Candidates(rs)
  {
    if c in bare {
      var i :| 0 <= i < |bare| && bare[i] == c;
      assert sorted[i] in CandidatesOf(entries);
      var j :| 0 <= j < |entries| && CandidatesOf(entries)[j] == sorted[i];
      assert entries[j].r2Key == prefix + c.1;
      assert EntryKey(entries[j], prefix) == c.1;
      assert c == (rs[c.1].metadata.updatedAt, c.1);
    }
    if c in Candidates(rs) {
      var j :| 0 <= j < |entries| && entries[j].r2Key == prefix + c.1;
      assert EntryKey(entries[j], prefix) == c.1;
      assert CandidatesOf(entries)[j] == (c.0, prefix + c.1);
      assert CandidatesOf(entries)[j] in sorted;
      var i :| 0 <= i < |sorted| && sorted[i] == (c.0, prefix + c.1);
      PrefixInjective(prefix, bare[i].1, c.1);
      assert bare[i] == c;
    }
  }

  // ------------------------------------------------------------------ frames

  lemma KeptByItself(b: Bucket, prefix: string)
    ensures OthersKept(b, b, prefix)
  {}

  lemma OthersKeptTransitive(b: Bucket, c: Bucket, d: Bucket, prefix: string)
    requires OthersKept(b, c, prefix) && OthersKept(c, d, prefix)
    ensures OthersKept(b, d, prefix)
  {
    hide Owned;
  }

  lemma WriteKeepsOthers(b: Bucket, prefix: string, kind: Kind, key: string, o: R2Object)
    requires key != ""
    ensures OthersKept(b, b[prefix + StorageKey(kind, key) := o], prefix)
  {
    hide StorageKey, FromStorageKey;
    StorageKeyRoundTrip(kind, key);
    var r2Key := prefix + StorageKey(kind, key);
    assert r2Key[|prefix|..] == StorageKey(kind, key);
    assert Owned(prefix, r2Key);
  }

  lemma RemoveKeepsOthers(b: Bucket, prefix: string, k: string)
    requires FromStorageKey(k).Some?
    ensures OthersKept(b, b - {prefix + k}, prefix)
  {
    hide FromStorageKey;
    assert (prefix + k)[|prefix|..] == k;
    assert Owned(prefix, prefix + k);
  }

  // ----------------------------------------------------------------- listing

  /** The live records whose objects have been listed. */
  function Seen(live: Records, prefix: string, rest: set<string>): Records {
    map k | k in live && prefix + k !in rest :: live[k]
  }

  lemma LiveWellKeyed(rs: Records, p: Policy, now: nat)
    requires WellKeyed(rs)
    ensures WellKeyed(Live(rs, p, now))
  {}

  /** Sweeping removes expired records only, and none is left among those already listed. */
  ghost predicate Swept(b: Bucket, prefix: string, p: Policy, now: nat, live: Records, rest: set<string>) {
    && Live(View(b, prefix), p, now) == live
    && forall k :: k in View(b, prefix) && prefix + k !in rest ==> k in live
  }

  function AfterSweep(b: Bucket, prefix: string, p: Policy, now: nat, r2Key: string): Bucket {
    if Held(b, prefix, r2Key) && Expired(ReadHeld(b, prefix, r2Key).metadata, p, now) then b - {r2Key} else b
  }

  lemma SeenWellKeyed(live: Records, prefix: string, rest: set<string>)
    requires WellKeyed(live)
    ensures WellKeyed(Seen(live, prefix, rest))
  {}

  lemma NothingSeen(b: Bucket, prefix: string, p: Policy, now: nat, q: ListQuery)
    ensures var rest, live := RemainingKeys(b, prefix, None), Live(View(b, prefix), p, now);
      Seen(live, prefix, rest) == map[] && WellKeyed(map[]) && Catalog(map[], q) == map[]
      && Swept(b, prefix, p, now, live, rest)
  {
    hide View, ReadHeld, Catalog;
    forall k | k in View(b, prefix) ensures prefix + k in RemainingKeys(b, prefix, None) {
      ViewAt(b, prefix, k);
    }
    EmptyCatalog(q);
  }

  lemma AllSwept(b: Bucket, prefix: string, p: Policy, now: nat, live: Records)
    requires Swept(b, prefix, p, now, live, {})
    ensures View(b, prefix) == live && Seen(live, prefix, {}) == live
  {
    hide View;
  }

  /** What one listed object does to the bucket's live records and to the entries collected so far. */
  lemma SweepOne(b: Bucket, prefix: string, p: Policy, now: nat, q: ListQuery, live: Records, left: set<string>,
                 r2Key: string)
    requires WellKeyed(live) && Swept(b, prefix, p, now, live, left) && r2Key in left
    ensures Swept(AfterSweep(b, prefix, p, now, r2Key), prefix, p, now, live, left - {r2Key})
    ensures OthersKept(b, AfterSweep(b, prefix, p, now, r2Key), prefix)
    ensures WellKeyed(Seen(live, prefix, left)) && WellKeyed(Seen(live, prefix, left - {r2Key}))
    ensures var seen, after := Catalog(Seen(live, prefix, left), q), Catalog(Seen(live, prefix, left - {r2Key}), q);
      if !Held(b, prefix, r2Key) then after == seen
      else
        var m := ReadHeld(b, prefix, r2Key).metadata;
        after == if !Expired(m, p, now) && Matches(m, q) then seen[NameOf(m) := m] else seen
  {
    hide View, ReadHeld, Catalog, Matches, NameOf, Swept, OthersKept;
    SeenWellKeyed(live, prefix, left);
    SeenWellKeyed(live, prefix, left - {r2Key});
    KeptByItself(b, prefix);
    if !Held(b, prefix, r2Key) {
      SweepForeign(b, prefix, p, now, live, left, r2Key);
    } else if Expired(ReadHeld(b, prefix, r2Key).metadata, p, now) {
      SweepExpired(b, prefix, p, now, live, left, r2Key);
    } else {
      SweepLive(b, prefix, p, now, live, left, r2Key);
      CatalogGrows(Seen(live, prefix, left), live, r2Key[|prefix|..], q);
    }
  }

  lemma SweepForeign(b: Bucket, prefix: string, p: Policy, now: nat, live: Records, left: set<string>, r2Key: string)
    requires Swept(b, prefix, p, now, live, left) && !Held(b, prefix, r2Key)
    ensures Seen(live, prefix, left - {r2Key}) == Seen(live, prefix, left)
    ensures Swept(b, prefix, p, now, live, left - {r2Key})
  {
    hide View, ReadHeld;
    forall k | k in View(b, prefix) ensures prefix + k != r2Key { ViewAt(b, prefix, k); }
  }

  lemma SweepExpired(b: Bucket, prefix: string, p: Policy, now: nat, live: Records, left: set<string>, r2Key: string)
    requires Swept(b, prefix, p, now, live, left)
    requires Held(b, prefix, r2Key) && Expired(ReadHeld(b, prefix, r2Key).metadata, p, now)
    ensures Seen(live, prefix, left - {r2Key}) == Seen(live, prefix, left)
    ensures Swept(b - {r2Key}, prefix, p, now, live, left - {r2Key}) && OthersKept(b, b - {r2Key}, prefix)
  {
    hide View, ReadHeld, FromStorageKey;
    var k := r2Key[|prefix|..];
    HeldKey(b, prefix, r2Key);
    ViewRemove(b, prefix, k);
    forall j | j in live ensures prefix + j != r2Key {
      if prefix + j == r2Key { PrefixInjective(prefix, j, k); }
    }
    forall j | j in View(b, prefix) && prefix + j == r2Key ensures j == k { PrefixInjective(prefix, j, k); }
  }

  lemma SweepLive(b: Bucket, prefix: string, p: Policy, now: nat, live: Records, left: set<string>, r2Key: string)
    requires Swept(b, prefix, p, now, live, left) && r2Key in left
    requires Held(b, prefix, r2Key) && !Expired(ReadHeld(b, prefix, r2Key).metadata, p, now)
    ensures var k, seen := r2Key[|prefix|..], Seen(live, prefix, left);
      && k in live && k !in seen && live[k] == ReadHeld(b, prefix, r2Key)
      && (forall j :: j in seen ==> j in live && seen[j] == live[j])
      && Seen(live, prefix, left - {r2Key}) == seen[k := live[k]]
    ensures Swept(b, prefix, p, now, live, left - {r2Key})
  {
    hide View, ReadHeld, FromStorageKey;
    var k := r2Key[|prefix|..];
    HeldKey(b, prefix, r2Key);
    forall j | j in View(b, prefix) && prefix + j == r2Key ensures j == k { PrefixInjective(prefix, j, k); }
  }
}
