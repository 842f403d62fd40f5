/** The two cache stores behave alike (src/cache_store.ts), although one prunes before it writes and
    the other after: over any run with a clock that never goes back they give the same answers, except
    that deleting an expired record is reported differently. */
module StoreEquivalence {
  import opened Options
  import opened Ordering
  import opened Text
  import opened CacheStore
  import opened R2CacheStore

  /** The stores hold the same records, apart from expired ones. */
  ghost predicate Alike(m: Records, b: Records, p: Policy, now: nat) {
    Live(m, p, now) == Live(b, p, now)
  }

  lemma LiveTwice(rs: Records, p: Policy, earlier: nat, now: nat)
    requires earlier <= now
    ensures Live(Live(rs, p, earlier), p, now) == Live(rs, p, now)
  {}

  /** Time passing keeps the stores alike. */
  lemma TimePasses(m: Records, b: Records, p: Policy, earlier: nat, now: nat)
    requires earlier <= now && Alike(m, b, p, earlier)
    ensures Alike(m, b, p, now)
  {
    LiveTwice(m, p, earlier, now);
    LiveTwice(b, p, earlier, now);
  }

  // -------------------------------------------------------------------- puts

  /** A record that is expired when it is written is older than every live record. */
  lemma ExpiredIsFirst(live: Records, k: string, s: Stored, p: Policy, now: nat)
    requires Live(live, p, now) == live && Expired(s.metadata, p, now)
    ensures EvictionOrder(live[k := s]) == [(s.metadata.updatedAt, k)] + EvictionOrder(live - {k})
  {
    hide Before;
    EvictBeforeIsOrder();
    var first := (s.metadata.updatedAt, k);
    var order := [first] + EvictionOrder(live - {k});
    assert forall c :: c in Candidates(live - {k}) ==> EvictBefore(first, c);
    forall i, j | 0 <= i < j < |order| ensures EvictBefore(order[i], order[j]) {
      assert order[j] in EvictionOrder(live - {k});
    }
    forall c ensures c in order <==> c in Candidates(live[k := s]) {
      OneMoreCandidate(live, k, s, c);
      assert c in order <==> c == first || c in EvictionOrder(live - {k});
    }
    AscendingUnique(EvictBefore, EvictionOrder(live[k := s]), order);
  }

  lemma CandidateAt(rs: Records, c: Candidate)
    ensures c in Candidates(rs) <==> c.1 in rs && c.0 == rs[c.1].metadata.updatedAt
  {
    assert c == (c.0, c.1);
  }

  lemma OneMoreCandidate(rs: Records, k: string, s: Stored, c: Candidate)
    ensures c in Candidates(rs[k := s]) <==> c == (s.metadata.updatedAt, k) || c in Candidates(rs - {k})
  {
    hide Candidates;
    CandidateAt(rs[k := s], c);
    CandidateAt(rs - {k}, c);
    assert c == (c.0, c.1);
  }

  /** Eviction only removes records. */
  lemma {:induction false} EvictFromRemoves(order: seq<Candidate>, rs: Records, max: nat)
    ensures forall k :: k in EvictFrom(order, rs, max) ==> k in rs && EvictFrom(order, rs, max)[k] == rs[k]
  {
    if order != [] && Bytes(rs) > max {
      EvictFromRemoves(order[1..], rs - {order[0].1}, max);
    }
  }

  lemma EvictRemoves(rs: Records, p: Policy)
    ensures forall k :: k in Evict(rs, p) ==> k in rs && Evict(rs, p)[k] == rs[k]
  {
    if p.maxBytes.Some? { EvictFromRemoves(EvictionOrder(rs), rs, p.maxBytes.value); }
  }

  lemma NothingEvicted(order: seq<Candidate>, rs: Records, max: nat)
    requires Bytes(rs) <= max
    ensures EvictFrom(order, rs, max) == rs
  {}

  lemma FirstEvicted(first: Candidate, rest: seq<Candidate>, rs: Records, max: nat)
    requires Bytes(rs) > max
    ensures EvictFrom([first] + rest, rs, max) == EvictFrom(rest, rs - {first.1}, max)
  {
    assert ([first] + rest)[1..] == rest;
  }

  /** Writing an expired record among live ones evicts what would be evicted without it. */
  lemma ExpiredPutEvicts(live: Records, k: string, s: Stored, p: Policy, now: nat)
    requires Live(live, p, now) == live && Expired(s.metadata, p, now)
    ensures Alike(Evict(live[k := s], p), Evict(live - {k}, p), p, now)
  {
    hide Bytes, EvictionOrder, EvictFrom, Live, Expired;
    var after := live[k := s];
    LiveWithExpired(live, k, s, p, now);
    if p.maxBytes.Some? {
      var max, rest := p.maxBytes.value, EvictionOrder(live - {k});
      ExpiredIsFirst(live, k, s, p, now);
      assert after - {k} == live - {k};
      if Bytes(after) > max {
        FirstEvicted((s.metadata.updatedAt, k), rest, after, max);
      } else {
        BytesSubset(after, live - {k});
        NothingEvicted(EvictionOrder(after), after, max);
        NothingEvicted(rest, live - {k}, max);
      }
    }
  }

  lemma LiveWithExpired(live: Records, k: string, s: Stored, p: Policy, now: nat)
    requires Live(live, p, now) == live && Expired(s.metadata, p, now)
    ensures Live(live[k := s], p, now) == live - {k} == Live(live - {k}, p, now)
  {}

  lemma LiveWrite(rs: Records, k: string, s: Stored, p: Policy, now: nat)
    ensures Live(rs[k := s], p, now)
         == if Expired(s.metadata, p, now) then Live(rs, p, now) - {k} else Live(rs, p, now)[k := s]
  {}

  lemma NoPolicy(rs: Records, p: Policy, now: nat)
    requires p.ttlSec.None? && p.maxBytes.None?
    ensures Evict(Live(rs, p, now), p) == rs
  {
    assert Live(rs, p, now) == rs;
  }

  /** Pruning before a write or after it makes no difference to the live records. */
  lemma PutsAlike(m: Records, b: Records, p: Policy, now: nat, r: PutRequest)
    requires Alike(m, b, p, now)
    ensures Alike(MemoryPut(m, p, now, r), R2Put(b, p, now, r), p, now)
  {
    hide Evict, Live, Expired, StoredFor, StorageKey;
    var k, s := StorageKey(r.kind, Trim(r.key)), StoredFor(r, now);
    var live := Live(m, p, now);
    LiveTwice(m, p, now, now);
    LiveWrite(b, k, s, p, now);
    if p.ttlSec.None? && p.maxBytes.None? { NoPolicy(b[k := s], p, now); }
    if Expired(s.metadata, p, now) {
      ExpiredPutEvicts(live, k, s, p, now);
    }
  }

  // -------------------------------------------------------------------- runs

  type Timed = (nat, Request)

  predicate ClockNeverBack(run: seq<Timed>, from: nat) {
    run == [] || (from <= run[0].0 && ClockNeverBack(run[1..], run[0].0))
  }

  ghost function MemoryRun(rs: Records, p: Policy, run: seq<Timed>): (answers: seq<Answer>)
    ensures |answers| == |run|
    decreases |run|
  {
    if run == [] then []
    else
      var (after, answer) := MemoryStep(rs, p, run[0].0, run[0].1);
      [answer] + MemoryRun(after, p, run[1..])
  }

  ghost function R2Run(rs: Records, p: Policy, run: seq<Timed>): (answers: seq<Answer>)
    ensures |answers| == |run|
    decreases |run|
  {
    if run == [] then []
    else
      var (after, answer) := R2Step(rs, p, run[0].0, run[0].1);
      [answer] + R2Run(after, p, run[1..])
  }

  /** Only the report of a deletion may differ. */
  predicate SameAnswer(a: Answer, b: Answer) {
    a == b || (a.Deleted? && b.Deleted?)
  }

  lemma LookupLive(rs: Records, p: Policy, now: nat, k: string)
    ensures var live := Live(rs, p, now);
            Lookup(rs, p, now, k) == (if k in live then Some(live[k]) else None)
            && Live(Without(rs, k), p, now) == live - {k}
  {}

  /** One request keeps the stores alike and gets the same answer; a deletion is reported differently
      exactly when the memory store still held the record although it had expired. */
  lemma StepAlike(m: Records, b: Records, p: Policy, now: nat, q: Request)
    requires Alike(m, b, p, now)
    ensures var (m', a) := MemoryStep(m, p, now, q);
            var (b', c) := R2Step(b, p, now, q);
            Alike(m', b', p, now) && SameAnswer(a, c) && (a != c <==> DeletesExpired(m, p, now, q))
  {
    hide Live, MemoryPut, R2Put, ListPageOf, Trim, StorageKey, Lookup, Without;
    match q
    case Put(r) => PutsAlike(m, b, p, now, r);
    case Get(kind, key) =>
      var k := StorageKey(kind, Trim(key));
      LookupLive(m, p, now, k);
      LookupLive(b, p, now, k);
      if k !in Live(m, p, now) { assert Live(m, p, now) - {k} == Live(m, p, now); }
    case Delete(kind, key) =>
      var k := StorageKey(kind, Trim(key));
      LookupLive(m, p, now, k);
      LookupLive(b, p, now, k);
      LookupIs(m, p, now, k);
    case List(_) =>
      LiveTwice(m, p, now, now);
      LiveTwice(b, p, now, now);
  }

  lemma LookupIs(rs: Records, p: Policy, now: nat, k: string)
    ensures Lookup(rs, p, now, k).Some? <==> k in rs && !Expired(rs[k].metadata, p, now)
  {}

  predicate DeletesExpired(m: Records, p: Policy, now: nat, q: Request) {
    q.Delete? && !EmptyKey(q) &&
    var k := StorageKey(q.kind, Trim(q.key));
    k in m && Expired(m[k].metadata, p, now)
  }

  /** The same puts, gets, deletes and lists get the same answers from both stores. */
  lemma {:induction false} StoresAgree(m: Records, b: Records, p: Policy, run: seq<Timed>, from: nat)
    requires Alike(m, b, p, from) && ClockNeverBack(run, from)
    ensures forall i :: 0 <= i < |run| ==> SameAnswer(MemoryRun(m, p, run)[i], R2Run(b, p, run)[i])
    decreases |run|
  {
    hide MemoryStep, R2Step, Alike, SameAnswer;
    if run != [] {
      var (now, q) := run[0];
      TimePasses(m, b, p, from, now);
      StepAlike(m, b, p, now, q);
      var (m', a) := MemoryStep(m, p, now, q);
      var (b', c) := R2Step(b, p, now, q);
      StoresAgree(m', b', p, run[1..], now);
    }
  }

  // -------------------------------------------------------- reachable states

  /** Records are stored under their own keys and fit the byte limit. */
  ghost predicate StoreOk(rs: Records, p: Policy) {
    WellKeyed(rs) && (p.maxBytes.Some? ==> Bytes(rs) <= p.maxBytes.value)
  }

  lemma FewerOk(rs: Records, fewer: Records, p: Policy)
    requires StoreOk(rs, p) && forall k :: k in fewer ==> k in rs && fewer[k] == rs[k]
    ensures StoreOk(fewer, p)
  {
    BytesSubset(rs, fewer);
  }

  lemma EvictedOk(rs: Records, p: Policy)
    requires WellKeyed(rs)
    ensures StoreOk(Evict(rs, p), p)
  {
    hide Bytes;
    EvictRemoves(rs, p);
    if p.maxBytes.Some? { EvictExact(rs, p); }
  }

  lemma WrittenKeyed(rs: Records, r: PutRequest, now: nat)
    requires WellKeyed(rs) && Trim(r.key) != ""
    ensures WellKeyed(rs[StorageKey(r.kind, Trim(r.key)) := StoredFor(r, now)])
  {}

  lemma StepsKeepOk(rs: Records, p: Policy, now: nat, q: Request)
    requires StoreOk(rs, p)
    ensures StoreOk(MemoryStep(rs, p, now, q).0, p) && StoreOk(R2Step(rs, p, now, q).0, p)
  {
    hide Bytes, WellKeyed, Evict, StorageKey, Trim, StoredFor, ListPageOf;
    assert WellKeyed(rs);
    LiveWellKeyed(rs, p, now);
    FewerOk(rs, Live(rs, p, now), p);
    if EmptyKey(q) {
    } else {
      match q
      case Put(r) => PutsOk(rs, p, now, r);
      case Get(kind, key) => FewerOk(rs, Without(rs, StorageKey(kind, Trim(key))), p);
      case Delete(kind, key) => FewerOk(rs, Without(rs, StorageKey(kind, Trim(key))), p);
      case List(_) =>
    }
  }

  lemma PutsOk(rs: Records, p: Policy, now: nat, r: PutRequest)
    requires WellKeyed(rs) && Trim(r.key) != ""
    ensures StoreOk(MemoryPut(rs, p, now, r), p) && StoreOk(R2Put(rs, p, now, r), p)
  {
    hide Bytes, WellKeyed, Evict, StorageKey, Trim, StoredFor, Live;
    var k, s := StorageKey(r.kind, Trim(r.key)), StoredFor(r, now);
    LiveWellKeyed(rs, p, now);
    WrittenKeyed(Live(rs, p, now), r, now);
    EvictedOk(Live(rs, p, now)[k := s], p);
    WrittenKeyed(rs, r, now);
    LiveWellKeyed(rs[k := s], p, now);
    EvictedOk(Live(rs[k := s], p, now), p);
  }

  ghost function MemoryAfter(rs: Records, p: Policy, run: seq<Timed>): Records
    decreases |run|
  {
    if run == [] then rs else MemoryAfter(MemoryStep(rs, p, run[0].0, run[0].1).0, p, run[1..])
  }

  ghost function R2After(rs: Records, p: Policy, run: seq<Timed>): Records
    decreases |run|
  {
    if run == [] then rs else R2After(R2Step(rs, p, run[0].0, run[0].1).0, p, run[1..])
  }

  /** No run, whatever its clock, takes either store over its byte limit. */
  lemma {:induction false} ReachableFits(m: Records, b: Records, p: Policy, run: seq<Timed>)
    requires StoreOk(m, p) && StoreOk(b, p)
    ensures StoreOk(MemoryAfter(m, p, run), p) && StoreOk(R2After(b, p, run), p)
    decreases |run|
  {
    hide StoreOk, MemoryStep, R2Step;
    if run != [] {
      StepsKeepOk(m, p, run[0].0, run[0].1);
      StepsKeepOk(b, p, run[0].0, run[0].1);
      ReachableFits(MemoryStep(m, p, run[0].0, run[0].1).0, R2Step(b, p, run[0].0, run[0].1).0, p, run[1..]);
    }
  }
}
