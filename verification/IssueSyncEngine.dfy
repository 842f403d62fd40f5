/** The issue sync engine's memory of deliveries and its dead-letter queue (src/issue_sync_engine.ts): a map of entries
    beside the list of their ids. Applying a delivery awaits its publication, so it is cut in two there; any
    interleaving of the parts is a run. */
module IssueSyncEngine {
  import opened Arithmetic
  import opened Options
  import opened Ordering
  import opened Sequences
  import opened Text

  // -------------------------------------------------------------------- data

  datatype Entry = Entry(
    deliveryId: string, event: string, body: string, createdAt: nat, updatedAt: nat,
    retryCount: nat, nextRetryAt: nat, lastError: string)

  datatype Failure = Failure(deliveryId: string, event: string, body: string, error: string, incrementRetry: bool)

  /** `protoSetter`: the runtime's plain objects inherit a setter for `__proto__`, which swallows the key. */
  datatype Settings = Settings(maxDeliveryIds: nat, maxDlqEntries: nat, retryBaseSec: nat, protoSetter: bool)

  /** `deliveries` is in the order the ids were first remembered; `flying` holds the ids whose publication is
      awaited. */
  datatype Engine = Engine(
    deliveries: seq<(string, nat)>, dlq: map<string, Entry>, order: seq<string>, flying: multiset<string>)

  const EMPTY_ENGINE := Engine([], map[], [], multiset{})

  // --------------------------------------------------------------- deliveries

  predicate HasDelivery(ds: seq<(string, nat)>, id: string) {
    exists i :: 0 <= i < |ds| && ds[i].0 == id
  }

  /** Sets the time of an id, in place if it is known. */
  function SetDelivery(ds: seq<(string, nat)>, id: string, ts: nat): seq<(string, nat)> {
    if ds == [] then [(id, ts)]
    else if ds[0].0 == id then [(id, ts)] + ds[1..]
    else [ds[0]] + SetDelivery(ds[1..], id, ts)
  }

  function Remember(ds: seq<(string, nat)>, id: string, ts: nat, max: nat): seq<(string, nat)> {
    Newest(SetDelivery(ds, id, ts), max)
  }

  // ------------------------------------------------------------------- queue

  function NextRetryAt(s: Settings, now: nat, retryCount: nat): nat {
    now + Min(3600, s.retryBaseSec * Pow2(retryCount))
  }

  function EntryFor(x: Engine, s: Settings, f: Failure, now: nat): Entry {
    var known := f.deliveryId in x.dlq;
    var retries := (if known then x.dlq[f.deliveryId].retryCount else 0) + if f.incrementRetry then 1 else 0;
    Entry(f.deliveryId, f.event, f.body, if known then x.dlq[f.deliveryId].createdAt else now, now,
          retries, NextRetryAt(s, now, retries), f.error)
  }

  /** Each further retry waits twice as long, up to an hour. */
  lemma RetryBackoff(s: Settings, now: nat, retryCount: nat)
    ensures NextRetryAt(s, now, retryCount + 1) - now == Min(3600, 2 * (NextRetryAt(s, now, retryCount) - now))
  {
    assert s.retryBaseSec * (2 * Pow2(retryCount)) == 2 * (s.retryBaseSec * Pow2(retryCount));
  }

  /** The first try waits the base, up to an hour. */
  lemma FirstRetry(s: Settings, now: nat)
    ensures NextRetryAt(s, now, 0) == now + if s.retryBaseSec < 3600 then s.retryBaseSec else 3600
  {
    assert Pow2(0) == 1;
  }

  /** Drops ids from the front; an empty id ends the loop after it has been taken off. */
  function Shift(dlq: map<string, Entry>, order: seq<string>, count: nat): (map<string, Entry>, seq<string>)
    requires count <= |order|
    decreases count
  {
    if count == 0 then (dlq, order)
    else if order[0] == "" then (dlq, order[1..])
    else Shift(dlq - {order[0]}, order[1..], count - 1)
  }

  function Joined(x: Engine, id: string): seq<string> {
    if id in x.dlq then x.order else x.order + [id]
  }

  function Excess(order: seq<string>, max: nat): (n: nat)
    ensures n <= |order|
  {
    if |order| > max then |order| - max else 0
  }

  function Enqueue(x: Engine, s: Settings, f: Failure, now: nat): Engine {
    var order := Joined(x, f.deliveryId);
    var (left, rest) := Shift(x.dlq[f.deliveryId := EntryFor(x, s, f, now)], order, Excess(order, s.maxDlqEntries));
    x.(dlq := left, order := rest)
  }

  function Without(order: seq<string>, id: string): seq<string> {
    if order == [] then []
    else if order[0] == id then order[1..]
    else [order[0]] + Without(order[1..], id)
  }

  function RemoveEntry(x: Engine, id: string): Engine {
    if id in x.dlq then x.(dlq := x.dlq - {id}, order := Without(x.order, id)) else x
  }

  // --------------------------------------------------------------- invariant

  /** The list names each queued delivery once, within the limit. */
  predicate QueueOk(x: Engine, max: nat) {
    && Distinct(x.order) && |x.order| <= max
    && (forall id :: id in x.order ==> id in x.dlq) && (forall id :: id in x.dlq ==> id in x.order)
    && (forall id :: id in x.dlq ==> x.dlq[id].deliveryId == id && IsId(id))
  }

  /** Each delivery is remembered once, within the limit. */
  predicate DeliveriesOk(ds: seq<(string, nat)>, max: nat) {
    && |ds| <= max
    && (forall i, j :: 0 <= i < j < |ds| ==> ds[i].0 != ds[j].0)
    && (forall i :: 0 <= i < |ds| ==> IsId(ds[i].0))
  }

  ghost predicate EngineOk(x: Engine, s: Settings) {
    QueueOk(x, s.maxDlqEntries) && DeliveriesOk(x.deliveries, s.maxDeliveryIds) && FlyingOk(x.flying)
  }

  ghost predicate FlyingOk(flying: multiset<string>) {
    forall id :: id in flying ==> IsId(id)
  }

  /** Ids are trimmed and not empty. */
  predicate IsId(id: string) { id != "" && Trimmed(id) }

  lemma {:induction false} ShiftDrops(dlq: map<string, Entry>, order: seq<string>, count: nat)
    requires count <= |order| && Distinct(order) && "" !in order
    requires forall id :: id in dlq <==> id in order
    ensures var (left, rest) := Shift(dlq, order, count);
      && rest == order[count..]
      && (forall id :: id in left <==> id in rest)
      && (forall id :: id in left ==> id in dlq && left[id] == dlq[id])
    decreases count
  {
    if count > 0 {
      assert order[0] in order;
      assert forall id :: id in order <==> id == order[0] || id in order[1..];
      assert order[0] !in order[1..];
      ShiftDrops(dlq - {order[0]}, order[1..], count - 1);
      assert order[1..][count - 1..] == order[count..];
    }
  }

  lemma JoinedOk(x: Engine, s: Settings, id: string)
    requires EngineOk(x, s) && IsId(id)
    ensures var order := Joined(x, id);
      Distinct(order) && "" !in order && order != [] && forall j :: j in order <==> j in x.order || j == id
    ensures s.maxDlqEntries > 0 ==> id in Joined(x, id)[Excess(Joined(x, id), s.maxDlqEntries)..]
  {
    var order := Joined(x, id);
    if id !in x.dlq { assert order[|order| - 1] == id; }
    assert forall j :: j in x.order ==> x.dlq[j].deliveryId == j && IsId(j);
    assert id in x.dlq ==> id in x.order;
  }

  /** A failure joins the end of the queue unless it is queued already; the oldest give way. */
  lemma EnqueueKeeps(x: Engine, s: Settings, f: Failure, now: nat)
    requires EngineOk(x, s) && IsId(f.deliveryId) && s.maxDlqEntries > 0
    ensures var y := Enqueue(x, s, f, now);
      && EngineOk(y, s)
      && y.order == Newest(Joined(x, f.deliveryId), s.maxDlqEntries)
      && f.deliveryId in y.dlq && y.dlq[f.deliveryId] == EntryFor(x, s, f, now)
      && (forall id :: id in y.dlq && id != f.deliveryId ==> id in x.dlq && y.dlq[id] == x.dlq[id])
  {
    hide Shift, NextRetryAt, Joined, DeliveriesOk, IsId;
    var order := Joined(x, f.deliveryId);
    var dlq := x.dlq[f.deliveryId := EntryFor(x, s, f, now)];
    JoinedOk(x, s, f.deliveryId);
    ShiftDrops(dlq, order, Excess(order, s.maxDlqEntries));
    var y := Enqueue(x, s, f, now);
    assert y.order == order[Excess(order, s.maxDlqEntries)..];
    StillQueued(order, Excess(order, s.maxDlqEntries));
    assert forall id :: id in y.dlq ==> y.dlq[id] == dlq[id] && id in order;
  }

  /** The entry of a failure: its first failure is kept, its retries counted, and everything else is of the last one. */
  lemma EntryIs(x: Engine, s: Settings, f: Failure, now: nat)
    requires EngineOk(x, s) && IsId(f.deliveryId) && s.maxDlqEntries > 0
    ensures var y, id := Enqueue(x, s, f, now), f.deliveryId;
      && id in y.dlq
      && var e := y.dlq[id];
         && e.deliveryId == id && e.event == f.event && e.body == f.body && e.lastError == f.error && e.updatedAt == now
         && e.createdAt == (if id in x.dlq then x.dlq[id].createdAt else now)
         && e.retryCount == (if id in x.dlq then x.dlq[id].retryCount else 0) + (if f.incrementRetry then 1 else 0)
         && e.nextRetryAt == NextRetryAt(s, now, e.retryCount)
  {
    hide NextRetryAt, EngineOk, IsId, Enqueue;
    EnqueueKeeps(x, s, f, now);
  }

  lemma StillQueued(order: seq<string>, count: nat)
    requires Distinct(order) && count <= |order|
    ensures Distinct(order[count..]) && forall id :: id in order[count..] ==> id in order
  {}

  lemma {:induction false} WithoutOne(order: seq<string>, id: string)
    requires Distinct(order)
    ensures Distinct(Without(order, id)) && forall j :: j in Without(order, id) <==> j in order && j != id
    ensures |Without(order, id)| <= |order|
  {
    if order != [] {
      assert order[0] !in order[1..];
      assert forall j :: j in order <==> j == order[0] || j in order[1..];
      WithoutOne(order[1..], id);
    }
  }

  lemma RemoveKeeps(x: Engine, s: Settings, id: string)
    requires EngineOk(x, s)
    ensures EngineOk(RemoveEntry(x, id), s) && id !in RemoveEntry(x, id).dlq
  {
    WithoutOne(x.order, id);
  }

  /** Were an empty id queued, its entry would outlive its place in the list once overflow reaches it. Both callers
      refuse an empty id. */
  lemma EmptyIdLeaks(x: Engine, s: Settings, g: Failure, now: nat)
    requires |x.order| == s.maxDlqEntries > 0 && Distinct(x.order) && x.order[0] == "" && "" in x.dlq
    requires g.deliveryId != "" && g.deliveryId !in x.dlq
    ensures var y := Enqueue(x, s, g, now);
            "" in y.dlq && "" !in y.order && y.order == x.order[1..] + [g.deliveryId]
  {
    hide EntryFor;
    var order := Joined(x, g.deliveryId);
    assert Excess(order, s.maxDlqEntries) == 1 && order[0] == "" && order[1..] == x.order[1..] + [g.deliveryId];
  }

  // ---------------------------------------------------------------- deliveries applied

  /** A delivery: whether its body is a JSON object and whether it maps to an envelope. */
  datatype Delivery = Delivery(event: string, deliveryId: string, json: bool, maps: bool)

  /** What a publication answers. */
  datatype Published = Published(status: nat, accepted: bool)

  datatype Applied = Missing | Known | Malformed | Unmapped | Unpublished | Done(accepted: bool)

  /** Up to the await of the publication; no answer yet while it is awaited. */
  function Begin(x: Engine, d: Delivery): (Engine, Option<Applied>) {
    var id := Trim(d.deliveryId);
    if Trim(d.event) == "" || id == "" then (x, Some(Missing))
    else if HasDelivery(x.deliveries, id) then (x, Some(Known))
    else if !d.json then (x, Some(Malformed))
    else if !d.maps then (x, Some(Unmapped))
    else (x.(flying := x.flying + multiset{id}), None)
  }

  /** From the answer of the publication on. */
  function Finish(x: Engine, s: Settings, id: string, p: Published, now: nat): (Engine, Applied) {
    var landed := x.(flying := x.flying - multiset{id});
    if p.status != 200 then (landed, Unpublished)
    else
      var known := landed.(deliveries := Remember(x.deliveries, id, now, s.maxDeliveryIds));
      (if p.accepted then RemoveEntry(known, id) else known, Done(p.accepted))
  }

  /** What a delivery is answered before its publication, by the first thing that is wrong with it. */
  lemma BeginIs(x: Engine, d: Delivery)
    ensures var (y, refused) := Begin(x, d);
      var id := Trim(d.deliveryId);
      if Trim(d.event) == "" || id == "" then refused == Some(Missing) && y == x
      else if exists i :: 0 <= i < |x.deliveries| && x.deliveries[i].0 == id then refused == Some(Known) && y == x
      else if !d.json then refused == Some(Malformed) && y == x
      else if !d.maps then refused == Some(Unmapped) && y == x
      else refused == None && y == x.(flying := x.flying + multiset{id})
  {
    hide Trim;
  }

  /** And after it: only a publication with status 200 is remembered, and only an accepted one leaves the queue. */
  lemma FinishIs(x: Engine, s: Settings, id: string, p: Published, now: nat)
    requires EngineOk(x, s) && IsId(id) && s.maxDeliveryIds > 0
    ensures var (y, answer) := Finish(x, s, id, p, now);
      && y.flying == x.flying - multiset{id}
      && if p.status != 200 then
           answer == Unpublished && y.deliveries == x.deliveries && y.dlq == x.dlq && y.order == x.order
         else
           && answer == Done(p.accepted) && HasDelivery(y.deliveries, id)
           && (forall j :: j in y.dlq <==> j in x.dlq && !(p.accepted && j == id))
           && (forall j :: j in y.dlq ==> y.dlq[j] == x.dlq[j])
  {
    hide QueueOk, Without, IsId, FlyingOk;
    if p.status == 200 { RememberedAfter(x.deliveries, id, now, s.maxDeliveryIds); }
  }

  lemma RememberedAfter(ds: seq<(string, nat)>, id: string, ts: nat, max: nat)
    requires DeliveriesOk(ds, max) && max > 0
    ensures HasDelivery(Remember(ds, id, ts, max), id)
  {
    var all := SetDelivery(ds, id, ts);
    if HasDelivery(ds, id) {
      SetKnown(ds, id, ts);
      var i :| 0 <= i < |ds| && ds[i].0 == id;
      assert all[i].0 == id && |all| <= max;
    } else {
      SetNew(ds, id, ts);
      NewestIsSuffix(all, max);
      var kept := Newest(all, max);
      assert kept[|kept| - 1] == all[|all| - 1] == (id, ts);
    }
  }

  lemma {:induction false} SetNew(ds: seq<(string, nat)>, id: string, ts: nat)
    requires !HasDelivery(ds, id)
    ensures SetDelivery(ds, id, ts) == ds + [(id, ts)]
  {
    if ds != [] {
      assert ds[0].0 != id;
      forall i | 0 <= i < |ds[1..]| ensures ds[1..][i].0 != id { assert ds[i + 1].0 != id; }
      SetNew(ds[1..], id, ts);
      assert ds == [ds[0]] + ds[1..];
    }
  }

  lemma {:induction false} SetKnown(ds: seq<(string, nat)>, id: string, ts: nat)
    requires HasDelivery(ds, id)
    ensures |SetDelivery(ds, id, ts)| == |ds|
    ensures forall i :: 0 <= i < |ds| ==> SetDelivery(ds, id, ts)[i].0 == ds[i].0
  {
    if ds[0].0 != id {
      var i :| 0 <= i < |ds| && ds[i].0 == id;
      assert ds[1..][i - 1].0 == id;
      SetKnown(ds[1..], id, ts);
    }
  }

  lemma BeginKeeps(x: Engine, s: Settings, d: Delivery)
    requires EngineOk(x, s)
    ensures EngineOk(Begin(x, d).0, s)
  {
    hide QueueOk, DeliveriesOk;
    SameQueueOk(x, Begin(x, d).0, s.maxDlqEntries);
  }

  lemma FinishKeeps(x: Engine, s: Settings, id: string, p: Published, now: nat)
    requires EngineOk(x, s) && IsId(id)
    ensures EngineOk(Finish(x, s, id, p, now).0, s)
  {
    hide QueueOk, RemoveEntry, Remember, DeliveriesOk, IsId;
    var landed := x.(flying := x.flying - multiset{id});
    SameQueueOk(x, landed, s.maxDlqEntries);
    RememberStays(x.deliveries, id, now, s.maxDeliveryIds);
    var known := landed.(deliveries := Remember(x.deliveries, id, now, s.maxDeliveryIds));
    SameQueueOk(x, known, s.maxDlqEntries);
    RemoveKeeps(known, s, id);
  }

  /** Whether the id is new or known. */
  lemma RememberStays(ds: seq<(string, nat)>, id: string, ts: nat, max: nat)
    requires DeliveriesOk(ds, max) && IsId(id)
    ensures DeliveriesOk(Remember(ds, id, ts, max), max)
  {
    if HasDelivery(ds, id) {
      SetKnown(ds, id, ts);
    } else {
      RememberKeeps(ds, id, ts, max);
    }
  }

  lemma SameQueueOk(x: Engine, y: Engine, max: nat)
    requires QueueOk(x, max) && x.dlq == y.dlq && x.order == y.order
    ensures QueueOk(y, max)
  {}

  /** A new id joins the end of the memory; the oldest give way. */
  lemma RememberKeeps(ds: seq<(string, nat)>, id: string, ts: nat, max: nat)
    requires DeliveriesOk(ds, max) && IsId(id) && !HasDelivery(ds, id)
    ensures DeliveriesOk(Remember(ds, id, ts, max), max) && Remember(ds, id, ts, max) == Newest(ds + [(id, ts)], max)
  {
    SetNew(ds, id, ts);
    NewestOk(ds, id, ts, max);
  }

  lemma NewestOk(ds: seq<(string, nat)>, id: string, ts: nat, max: nat)
    requires DeliveriesOk(ds, max) && IsId(id) && !HasDelivery(ds, id)
    ensures DeliveriesOk(Newest(ds + [(id, ts)], max), max)
  {
    hide IsId, Newest;
    var all := ds + [(id, ts)];
    var kept := Newest(all, max);
    var off := |all| - |kept|;
    NewestIsSuffix(all, max);
    assert forall i :: 0 <= i < |ds| ==> all[i] == ds[i] && ds[i].0 != id;
    forall i | 0 <= i < |kept| ensures kept[i] == all[off + i] && IsId(kept[i].0) {}
    forall i, j | 0 <= i < j < |kept| ensures kept[i].0 != kept[j].0 {
      assert kept[i] == all[off + i] && kept[j] == all[off + j];
    }
  }

  // --------------------------------------------------------------------- runs

  datatype Op = Begins(d: Delivery) | Finishes(id: string, p: Published) | Fail(f: Failure) | Remove(id: string)

  type Timed = (nat, Op)

  function Do(x: Engine, s: Settings, op: Timed): Engine {
    match op.1
    case Begins(d) => Begin(x, d).0
    case Finishes(id, p) => Finish(x, s, id, p, op.0).0
    case Fail(f) => Enqueue(x, s, f, op.0)
    case Remove(id) => RemoveEntry(x, id)
  }

  function Run(x: Engine, s: Settings, ops: seq<Timed>): Engine
    decreases |ops|
  {
    if ops == [] then x else Run(Do(x, s, ops[0]), s, ops[1..])
  }

  /** A publication that answers was awaited; failures are reported under ids. */
  predicate Enabled(x: Engine, op: Op) {
    match op
    case Finishes(id, _) => id in x.flying
    case Fail(f) => IsId(f.deliveryId)
    case _ => true
  }

  /** Each operation can happen, and the clock does not go back. */
  predicate IsRun(x: Engine, s: Settings, ops: seq<Timed>, from: nat)
    decreases |ops|
  {
    ops == [] || (from <= ops[0].0 && Enabled(x, ops[0].1) && IsRun(Do(x, s, ops[0]), s, ops[1..], ops[0].0))
  }

  function CreatedAt(x: Engine, id: string): nat {
    if id in x.dlq then x.dlq[id].createdAt else 0
  }

  /** The list is in the order of the deliveries' first failures. */
  predicate FirstFailureOrder(x: Engine, now: nat) {
    && (forall i, j :: 0 <= i < j < |x.order| ==> CreatedAt(x, x.order[i]) <= CreatedAt(x, x.order[j]))
    && (forall i :: 0 <= i < |x.order| ==> CreatedAt(x, x.order[i]) <= now)
  }

  lemma CreatedKept(x: Engine, s: Settings, f: Failure, now: nat, id: string)
    requires EngineOk(x, s) && IsId(f.deliveryId) && s.maxDlqEntries > 0 && id in Enqueue(x, s, f, now).dlq
    ensures CreatedAt(Enqueue(x, s, f, now), id) == if id in x.dlq then CreatedAt(x, id) else now
  {
    hide Enqueue, EngineOk, NextRetryAt, Joined;
    EnqueueKeeps(x, s, f, now);
  }

  lemma EnqueueInOrder(x: Engine, s: Settings, f: Failure, from: nat, now: nat)
    requires EngineOk(x, s) && IsId(f.deliveryId) && s.maxDlqEntries > 0 && FirstFailureOrder(x, from) && from <= now
    ensures EngineOk(Enqueue(x, s, f, now), s) && FirstFailureOrder(Enqueue(x, s, f, now), now)
  {
    hide Enqueue, EngineOk, EntryFor, CreatedAt, IsId, Joined;
    EnqueueKeeps(x, s, f, now);
    var y := Enqueue(x, s, f, now);
    var n := |Joined(x, f.deliveryId)| - |y.order|;
    forall i | 0 <= i < |y.order|
      ensures CreatedAt(y, y.order[i]) == if n + i < |x.order| then CreatedAt(x, x.order[n + i]) else now {
      CreatedIn(x, s, f, now, i);
    }
  }

  lemma CreatedIn(x: Engine, s: Settings, f: Failure, now: nat, i: nat)
    requires EngineOk(x, s) && IsId(f.deliveryId) && s.maxDlqEntries > 0 && i < |Enqueue(x, s, f, now).order|
    ensures var y := Enqueue(x, s, f, now);
      var n := |Joined(x, f.deliveryId)| - |y.order|;
      n >= 0 && CreatedAt(y, y.order[i]) == if n + i < |x.order| then CreatedAt(x, x.order[n + i]) else now
  {
    hide Enqueue, EngineOk, EntryFor, CreatedAt, IsId, Newest, Joined;
    EnqueueKeeps(x, s, f, now);
    var y, all := Enqueue(x, s, f, now), Joined(x, f.deliveryId);
    var n := |all| - |y.order|;
    Listed(x, s);
    Listed(y, s);
    NewestIsSuffix(all, s.maxDlqEntries);
    assert y.order[i] in y.order && y.order[i] == all[n + i];
    CreatedKept(x, s, f, now, y.order[i]);
    JoinedAt(x, s, f.deliveryId, n + i);
  }

  lemma JoinedAt(x: Engine, s: Settings, id: string, k: nat)
    requires EngineOk(x, s) && k < |Joined(x, id)|
    ensures if k < |x.order| then Joined(x, id)[k] == x.order[k] && x.order[k] in x.dlq else Joined(x, id)[k] !in x.dlq
  {
    assert k < |x.order| ==> x.order[k] in x.order;
  }

  lemma Listed(x: Engine, s: Settings)
    requires EngineOk(x, s)
    ensures forall id :: id in x.order <==> id in x.dlq
  {}

  lemma {:induction false} WithoutInOrder(x: Engine, order: seq<string>, id: string)
    requires Distinct(order)
    requires forall i, j :: 0 <= i < j < |order| ==> CreatedAt(x, order[i]) <= CreatedAt(x, order[j])
    ensures var rest := Without(order, id);
      && (forall j :: j in rest ==> j in order)
      && (forall i, j :: 0 <= i < j < |rest| ==> CreatedAt(x, rest[i]) <= CreatedAt(x, rest[j]))
  {
    hide CreatedAt;
    if order != [] {
      WithoutInOrder(x, order[1..], id);
      var rest := Without(order[1..], id);
      forall i | 0 <= i < |rest| ensures CreatedAt(x, order[0]) <= CreatedAt(x, rest[i]) {
        assert rest[i] in order[1..];
        var k :| 0 <= k < |order[1..]| && order[1..][k] == rest[i];
        assert order[k + 1] == rest[i];
      }
    }
  }

  lemma RemoveInOrder(x: Engine, s: Settings, id: string, now: nat)
    requires EngineOk(x, s) && FirstFailureOrder(x, now)
    ensures EngineOk(RemoveEntry(x, id), s) && FirstFailureOrder(RemoveEntry(x, id), now)
  {
    hide DeliveriesOk, IsId, Without;
    RemoveKeeps(x, s, id);
    WithoutInOrder(x, x.order, id);
    WithoutOne(x.order, id);
    var y := RemoveEntry(x, id);
    forall i | 0 <= i < |y.order| ensures CreatedAt(y, y.order[i]) == CreatedAt(x, y.order[i]) <= now {
      assert y.order[i] in y.order;
      assert y.order[i] in x.order && (id in x.dlq ==> y.order[i] != id);
    }
  }

  lemma DoKeeps(x: Engine, s: Settings, op: Timed, from: nat)
    requires EngineOk(x, s) && FirstFailureOrder(x, from) && from <= op.0 && s.maxDlqEntries > 0 && Enabled(x, op.1)
    ensures EngineOk(Do(x, s, op), s) && FirstFailureOrder(Do(x, s, op), op.0)
  {
    hide Enqueue, RemoveEntry, Remember, EngineOk, FirstFailureOrder, Begin, Finish, IsId;
    match op.1
    case Begins(d) =>
      BeginKeeps(x, s, d);
      BeginQueue(x, d);
      LaterOrder(x, from, op.0);
      SameQueue(x, Begin(x, d).0, s, op.0);
    case Finishes(id, p) =>
      LaterOrder(x, from, op.0);
      FlyingIds(x, s);
      FinishInOrder(x, s, id, p, op.0);
    case Fail(f) => EnqueueInOrder(x, s, f, from, op.0);
    case Remove(id) =>
      LaterOrder(x, from, op.0);
      RemoveInOrder(x, s, id, op.0);
  }

  lemma LaterOrder(x: Engine, from: nat, now: nat)
    requires FirstFailureOrder(x, from) && from <= now
    ensures FirstFailureOrder(x, now)
  {}

  lemma BeginQueue(x: Engine, d: Delivery)
    ensures var y := Begin(x, d).0; y.dlq == x.dlq && y.order == x.order && y.deliveries == x.deliveries
  {}

  lemma FlyingIds(x: Engine, s: Settings)
    requires EngineOk(x, s)
    ensures forall id :: id in x.flying ==> IsId(id)
  {}

  lemma FinishInOrder(x: Engine, s: Settings, id: string, p: Published, now: nat)
    requires EngineOk(x, s) && FirstFailureOrder(x, now) && IsId(id)
    ensures var y := Finish(x, s, id, p, now).0; EngineOk(y, s) && FirstFailureOrder(y, now)
  {
    hide Remember, EngineOk, RemoveEntry, FirstFailureOrder, Finish;
    FinishKeeps(x, s, id, p, now);
    RemoveInOrder(x, s, id, now);
    QueueOnly(x, s, id, p, now);
    var z, y := RemoveEntry(x, id), Finish(x, s, id, p, now).0;
    SameQueue(x, y, s, now);
    SameQueue(z, y, s, now);
  }

  lemma SameQueue(x: Engine, y: Engine, s: Settings, now: nat)
    requires EngineOk(x, s) && EngineOk(y, s) && FirstFailureOrder(x, now)
    ensures x.dlq == y.dlq && x.order == y.order ==> FirstFailureOrder(y, now)
  {}

  lemma QueueOnly(x: Engine, s: Settings, id: string, p: Published, now: nat)
    ensures var y, z := Finish(x, s, id, p, now).0, RemoveEntry(x, id);
      (y.dlq == x.dlq && y.order == x.order) || (y.dlq == z.dlq && y.order == z.order)
  {
    hide Remember, Without;
  }

  /** Over every run the map and the list agree, in first-failure order and within the limits. */
  lemma {:induction false} RunKeeps(x: Engine, s: Settings, ops: seq<Timed>, from: nat)
    requires EngineOk(x, s) && FirstFailureOrder(x, from) && IsRun(x, s, ops, from) && s.maxDlqEntries > 0
    ensures EngineOk(Run(x, s, ops), s)
    ensures exists now: nat :: FirstFailureOrder(Run(x, s, ops), now)
    decreases |ops|
  {
    hide EngineOk, Do, FirstFailureOrder, Enabled;
    if ops == [] {
      assert FirstFailureOrder(Run(x, s, ops), from);
    } else {
      DoKeeps(x, s, ops[0], from);
      RunKeeps(Do(x, s, ops[0]), s, ops[1..], ops[0].0);
    }
  }

  // ------------------------------------------------------ a delivery counts once

  /** The id is remembered, with at most `after` ids remembered since. */
  ghost predicate Kept(ds: seq<(string, nat)>, id: string, after: nat) {
    exists i :: 0 <= i < |ds| && ds[i].0 == id && |ds| - 1 - i <= after
  }

  lemma RememberAfter(ds: seq<(string, nat)>, id: string, other: string, ts: nat, after: nat, max: nat)
    requires DeliveriesOk(ds, max) && IsId(other) && Kept(ds, id, after)
    ensures after + 1 < max ==> Kept(Remember(ds, other, ts, max), id, after + 1)
    ensures HasDelivery(ds, other) ==> Kept(Remember(ds, other, ts, max), id, after)
  {
    WithinLimit(ds, max);
    hide DeliveriesOk, IsId, Kept;
    if HasDelivery(ds, other) {
      KeptInPlace(ds, id, other, ts, after, max);
    } else if after + 1 < max {
      RememberKeeps(ds, other, ts, max);
      hide Remember, HasDelivery;
      KeptAppended(ds, id, (other, ts), after, max);
    }
  }

  lemma WithinLimit(ds: seq<(string, nat)>, max: nat)
    requires DeliveriesOk(ds, max)
    ensures |ds| <= max
  {}

  lemma KeptInPlace(ds: seq<(string, nat)>, id: string, other: string, ts: nat, after: nat, max: nat)
    requires |ds| <= max && HasDelivery(ds, other) && Kept(ds, id, after)
    ensures var kept := Remember(ds, other, ts, max); Kept(kept, id, after) && Kept(kept, id, after + 1)
  {
    hide SetDelivery, HasDelivery;
    var i :| 0 <= i < |ds| && ds[i].0 == id && |ds| - 1 - i <= after;
    SetKnown(ds, other, ts);
    assert Remember(ds, other, ts, max)[i].0 == id;
  }

  lemma KeptAppended(ds: seq<(string, nat)>, id: string, d: (string, nat), after: nat, max: nat)
    requires Kept(ds, id, after) && after + 1 < max
    ensures Kept(Newest(ds + [d], max), id, after + 1)
  {
    var i :| 0 <= i < |ds| && ds[i].0 == id && |ds| - 1 - i <= after;
    var all := ds + [d];
    var kept := Newest(all, max);
    assert all[i] == ds[i];
    assert kept[i - (|all| - |kept|)] == all[i];
  }

  /** How many deliveries of a run are published. */
  function DoneCount(ops: seq<Timed>): nat {
    if ops == [] then 0 else DoneCount(ops[..|ops| - 1]) + if IsDone(ops[|ops| - 1]) then 1 else 0
  }

  predicate IsDone(op: Timed) { op.1.Finishes? && op.1.p.status == 200 }

  predicate DoneOf(op: Timed, id: string) { IsDone(op) && op.1.id == id }

  lemma {:induction false} DoneCountFirst(op: Timed, rest: seq<Timed>)
    ensures DoneCount([op] + rest) == (if IsDone(op) then 1 else 0) + DoneCount(rest)
  {
    var ops := [op] + rest;
    if rest == [] {
      assert ops[..0] == [];
      assert DoneCount(ops[..0]) == 0;
    } else {
      assert ops[..|ops| - 1] == [op] + rest[..|rest| - 1];
      DoneCountFirst(op, rest[..|rest| - 1]);
    }
  }

  /** While an id is remembered no delivery of it begins, and others push it out one by one. */
  lemma DoRemembers(x: Engine, s: Settings, op: Timed, id: string, after: nat)
    requires EngineOk(x, s) && Kept(x.deliveries, id, after) && after < s.maxDeliveryIds && Enabled(x, op.1)
    requires id !in x.flying
    ensures !DoneOf(op, id) && id !in Do(x, s, op).flying
    ensures if IsDone(op) then after + 1 == s.maxDeliveryIds || Kept(Do(x, s, op).deliveries, id, after + 1)
            else Kept(Do(x, s, op).deliveries, id, after)
  {
    hide QueueOk, DeliveriesOk, Remember, Trim, Kept, IsId, Without;
    KeptIsKnown(x.deliveries, id, after);
    if op.1.Finishes? { RememberAfter(x.deliveries, id, op.1.id, op.0, after, s.maxDeliveryIds); }
  }

  lemma KeptIsKnown(ds: seq<(string, nat)>, id: string, after: nat)
    requires Kept(ds, id, after)
    ensures HasDelivery(ds, id)
  {}

  /** A delivery that is remembered and not in flight is published again only after as many others as the memory
      holds. */
  lemma {:induction false} DeliveredOnce(x: Engine, s: Settings, ops: seq<Timed>, id: string, after: nat, from: nat)
    requires EngineOk(x, s) && FirstFailureOrder(x, from) && IsRun(x, s, ops, from) && s.maxDlqEntries > 0
    requires (Kept(x.deliveries, id, after) && id !in x.flying) || after >= s.maxDeliveryIds
    requires ops != [] && DoneOf(ops[|ops| - 1], id)
    ensures after + DoneCount(ops[..|ops| - 1]) >= s.maxDeliveryIds
    decreases |ops|
  {
    hide EngineOk, Kept, Do, IsDone, FirstFailureOrder, DoneOf, Enabled;
    var op, n := ops[0], |ops| - 1;
    if after < s.maxDeliveryIds { DoRemembers(x, s, op, id, after); }
    if n > 0 {
      var rest := ops[1..];
      assert ops[..n] == [op] + rest[..n - 1];
      DoneCountFirst(op, rest[..n - 1]);
      DoKeeps(x, s, op, from);
      DeliveredOnce(Do(x, s, op), s, rest, id, if IsDone(op) then after + 1 else after, op.0);
    } else {
      assert ops[..0] == [];
    }
  }

  // ------------------------------------------------------- deliveries in flight

  /** No delivery is in flight twice, or both in flight and remembered. */
  ghost predicate Single(x: Engine) {
    forall id :: id in x.flying ==> x.flying[id] == 1 && !HasDelivery(x.deliveries, id)
  }

  /** A delivery begins to be published while one of the same id is. */
  predicate Doubles(x: Engine, op: Op) {
    op.Begins? && Begin(x, op.d).1.None? && Trim(op.d.deliveryId) in x.flying
  }

  /** That is the one thing that breaks it. */
  lemma StaysSingleIff(x: Engine, s: Settings, op: Timed)
    requires EngineOk(x, s) && Single(x) && Enabled(x, op.1)
    ensures Single(Do(x, s, op)) <==> !Doubles(x, op.1)
  {
    hide QueueOk, Trim, Without, DeliveriesOk, Remember, Shift, EntryFor, Joined;
    match op.1
    case Begins(d) =>
      var id, y := Trim(d.deliveryId), Do(x, s, op);
      if Begin(x, d).1.None? {
        assert y.flying[id] == x.flying[id] + 1;
        assert forall j :: j in y.flying && j != id ==> j in x.flying && y.flying[j] == x.flying[j];
      }
    case Finishes(id, p) =>
      var y := Do(x, s, op);
      assert x.flying[id] == 1;
      forall j | j in y.flying ensures y.flying[j] == 1 && !HasDelivery(y.deliveries, j) {
        assert j != id && j in x.flying && y.flying[j] == x.flying[j];
        if IsDone(op) { RememberOnly(x.deliveries, id, op.0, s.maxDeliveryIds, j); }
      }
    case _ =>
  }

  /** Remembering one id makes no other known. */
  lemma RememberOnly(ds: seq<(string, nat)>, id: string, ts: nat, max: nat, other: string)
    requires other != id && !HasDelivery(ds, other)
    ensures !HasDelivery(Remember(ds, id, ts, max), other)
  {
    var all := SetDelivery(ds, id, ts);
    if HasDelivery(ds, id) { SetKnown(ds, id, ts); } else { SetNew(ds, id, ts); }
    NewestIsSuffix(all, max);
    assert forall i :: 0 <= i < |all| ==> all[i].0 != other;
  }

  predicate NoneDoubles(x: Engine, s: Settings, ops: seq<Timed>)
    decreases |ops|
  {
    ops == [] || (!Doubles(x, ops[0].1) && NoneDoubles(Do(x, s, ops[0]), s, ops[1..]))
  }

  ghost predicate AlwaysSingle(x: Engine, s: Settings, ops: seq<Timed>)
    decreases |ops|
  {
    Single(x) && (ops != [] ==> AlwaysSingle(Do(x, s, ops[0]), s, ops[1..]))
  }

  /** Along a run no delivery is ever in flight twice exactly when none begins while one of its id is in flight. */
  lemma {:induction false} RunsSingleIff(x: Engine, s: Settings, ops: seq<Timed>, from: nat)
    requires EngineOk(x, s) && FirstFailureOrder(x, from) && IsRun(x, s, ops, from) && s.maxDlqEntries > 0 && Single(x)
    ensures AlwaysSingle(x, s, ops) <==> NoneDoubles(x, s, ops)
    decreases |ops|
  {
    hide EngineOk, FirstFailureOrder, Do, Doubles, Enabled, Single;
    if ops != [] {
      StaysSingleIff(x, s, ops[0]);
      DoKeeps(x, s, ops[0], from);
      if !Doubles(x, ops[0].1) { RunsSingleIff(Do(x, s, ops[0]), s, ops[1..], ops[0].0); }
    }
  }

  /** Just published and not in flight again, an id is remembered last. */
  lemma FinishRemembers(x: Engine, s: Settings, op: Timed, id: string)
    requires Single(x) && Enabled(x, op.1) && DoneOf(op, id) && s.maxDeliveryIds > 0
    ensures var y := Do(x, s, op); Kept(y.deliveries, id, 0) && id !in y.flying
  {
    hide Without;
    SetNew(x.deliveries, id, op.0);
    var all := SetDelivery(x.deliveries, id, op.0);
    var kept := Newest(all, s.maxDeliveryIds);
    NewestIsSuffix(all, s.maxDeliveryIds);
    assert kept[|kept| - 1] == all[|all| - 1];
    assert x.flying[id] == 1;
  }

  /** Once no delivery is in flight twice, one that has been published is published again only after as many others as
      the memory holds. */
  lemma PublishedOnce(x: Engine, s: Settings, op: Timed, ops: seq<Timed>, id: string, from: nat)
    requires EngineOk(x, s) && FirstFailureOrder(x, from) && s.maxDlqEntries > 0 && s.maxDeliveryIds > 0 && Single(x)
    requires from <= op.0 && Enabled(x, op.1) && DoneOf(op, id) && IsRun(Do(x, s, op), s, ops, op.0)
    requires ops != [] && DoneOf(ops[|ops| - 1], id)
    ensures DoneCount(ops[..|ops| - 1]) >= s.maxDeliveryIds
  {
    hide EngineOk, FirstFailureOrder, Do, DoneOf, Enabled, Single, Kept;
    FinishRemembers(x, s, op, id);
    DoKeeps(x, s, op, from);
    DeliveredOnce(Do(x, s, op), s, ops, id, 0, op.0);
  }

  /** While an id is in flight and not yet remembered, a second delivery of it passes the check, and both are published
      with none in between. */
  lemma PublishedTwice(x: Engine, s: Settings, d: Delivery, p: Published, q: Published, now: nat)
    requires Doubles(x, Begins(d)) && p.status == q.status == 200
    ensures var id := Trim(d.deliveryId);
      var begins, first, second: Timed := (now, Begins(d)), (now, Finishes(id, p)), (now, Finishes(id, q));
      IsRun(x, s, [begins] + ([first] + ([second] + [])), now) && DoneOf(first, id) && DoneOf(second, id)
  {
    hide IsRun, Finish, Doubles;
    var id := Trim(d.deliveryId);
    var begins, first, second: Timed := (now, Begins(d)), (now, Finishes(id, p)), (now, Finishes(id, q));
    DoubleFlight(x, d);
    var x1 := Do(x, s, begins);
    var x2 := Do(x1, s, first);
    OneFewer(x1, s, id, p, now);
    NoSteps(Do(x2, s, second), s, now);
    hide Do;
    RunFrom(x2, s, second, [], now);
    RunFrom(x1, s, first, [second] + [], now);
    RunFrom(x, s, begins, [first] + ([second] + []), now);
  }

  lemma DoubleFlight(x: Engine, d: Delivery)
    requires Doubles(x, Begins(d))
    ensures Begin(x, d).0.flying[Trim(d.deliveryId)] >= 2
  {
    hide Trim, HasDelivery;
  }

  lemma OneFewer(x: Engine, s: Settings, id: string, p: Published, now: nat)
    requires x.flying[id] >= 2
    ensures id in Finish(x, s, id, p, now).0.flying
  {
    hide Remember, Without;
  }

  lemma NoSteps(x: Engine, s: Settings, now: nat)
    ensures IsRun(x, s, [], now)
  {}

  lemma RunFrom(x: Engine, s: Settings, op: Timed, rest: seq<Timed>, from: nat)
    requires from <= op.0 && Enabled(x, op.1) && IsRun(Do(x, s, op), s, rest, op.0)
    ensures IsRun(x, s, [op] + rest, from)
  {
    hide Do, Enabled;
    assert ([op] + rest)[1..] == rest;
  }

  // ------------------------------------------------------------------ listing

  function EntriesOf(dlq: map<string, Entry>, ids: seq<string>): (entries: seq<Entry>)
    ensures |entries| <= |ids|
    ensures (forall id :: id in ids ==> id in dlq) ==> |entries| == |ids|
  {
    if ids == [] then []
    else
      var rest := EntriesOf(dlq, ids[1..]);
      if ids[0] in dlq then [dlq[ids[0]]] + rest else rest
  }

  datatype Page = Page(entries: seq<Entry>, nextCursor: nat)

  function ListDlq(x: Engine, after: nat, limit: nat): Page {
    var ids := Slice(x.order, after, limit);
    var entries := EntriesOf(x.dlq, ids);
    Page(entries, if after + |ids| < |x.order| then after + |ids| else after + |entries|)
  }

  lemma {:induction false} EntriesConcat(dlq: map<string, Entry>, a: seq<string>, b: seq<string>)
    ensures EntriesOf(dlq, a + b) == EntriesOf(dlq, a) + EntriesOf(dlq, b)
  {
    if a == [] {
      assert a + b == b;
    } else {
      assert (a + b)[1..] == a[1..] + b;
      EntriesConcat(dlq, a[1..], b);
    }
  }

  /** All entries a reader gets by following the cursors from `after` until a page is empty. */
  function DrainDlq(x: Engine, after: nat, limit: nat): seq<Entry>
    requires limit > 0
    decreases if after < |x.order| then |x.order| - after else 0
  {
    var page := ListDlq(x, after, limit);
    if page.entries == [] || page.nextCursor <= after then [] else page.entries + DrainDlq(x, page.nextCursor, limit)
  }

  /** The pages tile the queue. */
  lemma {:induction false} PagesTile(x: Engine, s: Settings, after: nat, limit: nat)
    requires EngineOk(x, s) && limit > 0 && after <= |x.order|
    ensures DrainDlq(x, after, limit) == EntriesOf(x.dlq, x.order[after..])
    decreases |x.order| - after
  {
    hide EngineOk, EntriesOf;
    var ids := Slice(x.order, after, limit);
    var next := after + |ids|;
    assert x.order[after..] == ids + x.order[next..];
    EntriesConcat(x.dlq, ids, x.order[next..]);
    Listed(x, s);
    assert forall id :: id in ids ==> id in x.order;
    if ids != [] {
      PagesTile(x, s, next, limit);
    } else {
      assert x.order[after..] == [];
    }
  }

  // ------------------------------------------------------- snapshot and restore

  datatype Saved = Saved(deliveries: map<string, nat>, dlq: seq<Entry>)

  /** The one id a plain object may not take as a key. */
  predicate Swallowed(id: string, protoSetter: bool) { protoSetter && id == "__proto__" }

  function DeliveryMap(ds: seq<(string, nat)>, protoSetter: bool): map<string, nat> {
    if ds == [] then map[]
    else
      var last := ds[|ds| - 1];
      var rest := DeliveryMap(ds[..|ds| - 1], protoSetter);
      if Trim(last.0) == "" || Swallowed(last.0, protoSetter) then rest else rest[last.0 := last.1]
  }

  function Snapshot(x: Engine, s: Settings): Saved {
    Saved(DeliveryMap(x.deliveries, s.protoSetter), EntriesOf(x.dlq, x.order))
  }

  function RestoredEntry(e: Entry): Entry {
    e.(deliveryId := Trim(e.deliveryId), event := Trim(e.event))
  }

  /** Reads saved entries until the queue is full. */
  function RestoreQueue(entries: seq<Entry>, dlq: map<string, Entry>, order: seq<string>,
                        max: nat): (map<string, Entry>, seq<string>)
    decreases |entries|
  {
    if entries == [] then (dlq, order)
    else
      var id := Trim(entries[0].deliveryId);
      if id == "" then RestoreQueue(entries[1..], dlq, order, max)
      else
        var more := dlq[id := RestoredEntry(entries[0])];
        if |order| + 1 >= max then (more, order + [id]) else RestoreQueue(entries[1..], more, order + [id], max)
  }

  /** The saved deliveries in the order their keys are listed. */
  function RestoreDeliveries(m: map<string, nat>, listing: seq<string>): seq<(string, nat)>
    requires forall id :: id in listing ==> id in m
  {
    if listing == [] then []
    else
      var rest := RestoreDeliveries(m, listing[1..]);
      if Trim(listing[0]) == "" then rest else [(listing[0], m[listing[0]])] + rest
  }

  predicate Lists(listing: seq<string>, m: map<string, nat>) {
    Distinct(listing) && (forall id :: id in listing ==> id in m) && (forall id :: id in m ==> id in listing)
  }

  function Restore(saved: Saved, listing: seq<string>, s: Settings): Engine
    requires Lists(listing, saved.deliveries)
  {
    var (dlq, order) := RestoreQueue(saved.dlq, map[], [], s.maxDlqEntries);
    Engine(RestoreDeliveries(saved.deliveries, listing), dlq, order, multiset{})
  }

  lemma {:induction false} QueueRestored(x: Engine, s: Settings, done: nat)
    requires EngineOk(x, s) && done <= |x.order|
    requires done < |x.order| || done == 0
    ensures RestoreQueue(EntriesOf(x.dlq, x.order[done..]), TrimmedPart(x, done), x.order[..done], s.maxDlqEntries)
         == (TrimmedPart(x, |x.order|), x.order)
    decreases |x.order| - done
  {
    hide EngineOk, RestoredEntry, RestoreQueue, TrimmedPart, EntriesOf, Trim;
    Listed(x, s);
    Roomy(x, s);
    NothingLeft(x, x.order, s.maxDlqEntries);
    if done < |x.order| {
      var id := x.order[done];
      assert id in x.order;
      IdKept(x, s, id);
      assert x.order[done..][1..] == x.order[done + 1..];
      assert x.order[..done] + [id] == x.order[..done + 1];
      EntriesOf0(x, done);
      TrimmedNext(x, s, done);
      RestoreStep(x.dlq[id], EntriesOf(x.dlq, x.order[done + 1..]), TrimmedPart(x, done), x.order[..done],
                  s.maxDlqEntries);
      if done + 1 < |x.order| {
        QueueRestored(x, s, done + 1);
      } else {
        assert x.order[..done + 1] == x.order;
        assert x.order[done + 1..] == [];
      }
    } else {
      assert x.order[done..] == [] && x.order[..done] == x.order;
    }
  }

  lemma RestoreStep(e: Entry, rest: seq<Entry>, dlq: map<string, Entry>, order: seq<string>, max: nat)
    requires Trim(e.deliveryId) != ""
    ensures var (more, longer) := (dlq[Trim(e.deliveryId) := RestoredEntry(e)], order + [Trim(e.deliveryId)]);
      RestoreQueue([e] + rest, dlq, order, max)
      == if |order| + 1 >= max then (more, longer) else RestoreQueue(rest, more, longer, max)
  {
    assert ([e] + rest)[1..] == rest;
  }

  lemma NothingLeft(x: Engine, order: seq<string>, max: nat)
    ensures EntriesOf(x.dlq, []) == []
    ensures var part := TrimmedPart(x, |x.order|); RestoreQueue([], part, order, max) == (part, order)
  {}

  /** The first entries of the queue, with their events trimmed. */
  function TrimmedPart(x: Engine, n: nat): map<string, Entry>
    requires n <= |x.order|
  {
    map id | id in x.dlq && id in x.order[..n] :: RestoredEntry(x.dlq[id])
  }

  lemma TrimmedNext(x: Engine, s: Settings, n: nat)
    requires EngineOk(x, s) && n < |x.order| && x.order[n] in x.dlq
    ensures TrimmedPart(x, n + 1) == TrimmedPart(x, n)[x.order[n] := RestoredEntry(x.dlq[x.order[n]])]
  {
    hide RestoredEntry;
    assert x.order[..n + 1] == x.order[..n] + [x.order[n]];
  }

  lemma EntriesOf0(x: Engine, n: nat)
    requires n < |x.order| && x.order[n] in x.dlq
    ensures EntriesOf(x.dlq, x.order[n..]) == [x.dlq[x.order[n]]] + EntriesOf(x.dlq, x.order[n..][1..])
  {}

  lemma IdKept(x: Engine, s: Settings, id: string)
    requires EngineOk(x, s) && id in x.dlq
    ensures Trim(x.dlq[id].deliveryId) == id && id != ""
  {}

  lemma Roomy(x: Engine, s: Settings)
    requires EngineOk(x, s)
    ensures |x.order| <= s.maxDlqEntries
  {}

  lemma {:induction false} DeliveryMapIds(ds: seq<(string, nat)>, protoSetter: bool, id: string)
    requires forall i :: 0 <= i < |ds| ==> IsId(ds[i].0)
    ensures id in DeliveryMap(ds, protoSetter) <==> HasDelivery(ds, id) && !Swallowed(id, protoSetter)
  {
    if ds != [] {
      var n := |ds| - 1;
      assert IsId(ds[n].0);
      DeliveryMapIds(ds[..n], protoSetter, id);
      assert forall i :: 0 <= i < n ==> ds[..n][i] == ds[i];
      if ds[n].0 == id { assert HasDelivery(ds, id); }
    }
  }

  lemma {:induction false} DeliveryMapTimes(ds: seq<(string, nat)>, protoSetter: bool, id: string, ts: nat)
    requires forall i :: 0 <= i < |ds| ==> IsId(ds[i].0)
    requires forall i, j :: 0 <= i < j < |ds| ==> ds[i].0 != ds[j].0
    ensures var m := DeliveryMap(ds, protoSetter);
      (id in m && m[id] == ts) <==> (id, ts) in ds && !Swallowed(id, protoSetter)
  {
    if ds != [] {
      var n := |ds| - 1;
      IdNotBlank(ds[n].0);
      hide IsId, Trim, Swallowed;
      var init := ds[..n];
      DeliveryMapTimes(init, protoSetter, id, ts);
      assert ds == init + [ds[n]];
      if (id, ts) in init {
        var i :| 0 <= i < n && init[i] == (id, ts);
        assert ds[i].0 != ds[n].0;
      }
    }
  }

  lemma IdNotBlank(id: string)
    requires IsId(id)
    ensures Trim(id) != ""
  {}

  lemma {:induction false} RestoredTimes(m: map<string, nat>, listing: seq<string>, id: string, ts: nat)
    requires forall j :: j in listing ==> j in m
    ensures (id, ts) in RestoreDeliveries(m, listing) <==> id in listing && Trim(id) != "" && m[id] == ts
  {
    hide Trim;
    if listing != [] {
      RestoredTimes(m, listing[1..], id, ts);
      assert id in listing <==> id == listing[0] || id in listing[1..];
    }
  }

  lemma {:induction false} RestoredIds(m: map<string, nat>, listing: seq<string>, id: string)
    requires forall j :: j in listing ==> j in m
    ensures HasDelivery(RestoreDeliveries(m, listing), id) <==> id in listing && Trim(id) != ""
  {
    if listing != [] {
      hide HasDelivery, Trim;
      RestoredIds(m, listing[1..], id);
      assert id in listing <==> id == listing[0] || id in listing[1..];
      OneMoreDelivery((listing[0], m[listing[0]]), RestoreDeliveries(m, listing[1..]), id);
    }
  }

  lemma OneMoreDelivery(d: (string, nat), rest: seq<(string, nat)>, id: string)
    ensures HasDelivery([d] + rest, id) <==> d.0 == id || HasDelivery(rest, id)
  {
    var all := [d] + rest;
    assert all[0] == d && forall i :: 0 <= i < |rest| ==> all[i + 1] == rest[i];
  }

  /** Restoring a snapshot gives back the same list and the same remembered ids with their times, apart from one a plain
      object may swallow; the entries are the same exactly when no queued event has white space around it. */
  lemma SnapshotRestores(x: Engine, s: Settings, listing: seq<string>)
    requires EngineOk(x, s) && Lists(listing, Snapshot(x, s).deliveries)
    ensures var y := Restore(Snapshot(x, s), listing, s);
      && y.order == x.order
      && (y.dlq == x.dlq <==> forall id :: id in x.dlq ==> Trimmed(x.dlq[id].event))
      && (forall id ::
           HasDelivery(y.deliveries, id) <==> HasDelivery(x.deliveries, id) && !Swallowed(id, s.protoSetter))
      && (forall id, ts: nat :: (id, ts) in y.deliveries <==> (id, ts) in x.deliveries && !Swallowed(id, s.protoSetter))
  {
    var y := Restore(Snapshot(x, s), listing, s);
    assert x.order[0..] == x.order && x.order[..0] == [] && TrimmedPart(x, 0) == map[];
    QueueRestored(x, s, 0);
    AllTrimmed(x, s);
    forall id
      ensures HasDelivery(y.deliveries, id) <==> HasDelivery(x.deliveries, id) && !Swallowed(id, s.protoSetter) {
      RestoredIds(Snapshot(x, s).deliveries, listing, id);
      DeliveryMapIds(x.deliveries, s.protoSetter, id);
    }
    forall id, ts: nat ensures (id, ts) in y.deliveries <==> (id, ts) in x.deliveries && !Swallowed(id, s.protoSetter) {
      TimeRestored(x, s, listing, id, ts);
    }
  }

  lemma TimeRestored(x: Engine, s: Settings, listing: seq<string>, id: string, ts: nat)
    requires EngineOk(x, s) && Lists(listing, Snapshot(x, s).deliveries)
    ensures (id, ts) in RestoreDeliveries(Snapshot(x, s).deliveries, listing)
       <==> (id, ts) in x.deliveries && !Swallowed(id, s.protoSetter)
  {
    RestoredTimes(Snapshot(x, s).deliveries, listing, id, ts);
    DeliveryMapTimes(x.deliveries, s.protoSetter, id, ts);
    hide RestoreDeliveries, DeliveryMap, EntriesOf, QueueOk, FlyingOk;
    if (id, ts) in x.deliveries {
      var i :| 0 <= i < |x.deliveries| && x.deliveries[i] == (id, ts);
      assert IsId(x.deliveries[i].0);
    }
  }

  lemma AllTrimmed(x: Engine, s: Settings)
    requires EngineOk(x, s)
    ensures TrimmedPart(x, |x.order|) == x.dlq <==> forall id :: id in x.dlq ==> Trimmed(x.dlq[id].event)
  {
    assert x.order[..|x.order|] == x.order;
    forall id | id in x.dlq ensures RestoredEntry(x.dlq[id]) == x.dlq[id] <==> Trimmed(x.dlq[id].event) {
      IdKept(x, s, id);
    }
    var part := TrimmedPart(x, |x.order|);
    assert forall id :: id in x.dlq ==> id in part && part[id] == RestoredEntry(x.dlq[id]);
  }

  // -------------------------------------------------------------------- engine

  class IssueSyncEngine {
    const settings: Settings
    var deliveryIds: seq<(string, nat)>
    var dlq: map<string, Entry>
    var dlqOrder: seq<string>
    var flying: multiset<string>

    constructor (settings: Settings)
      ensures this.settings == settings && Contents() == EMPTY_ENGINE
    {
      this.settings := settings;
      deliveryIds, dlq, dlqOrder, flying := [], map[], [], multiset{};
    }

    function Contents(): Engine
      reads this
    {
      Engine(deliveryIds, dlq, dlqOrder, flying)
    }

    method RememberDeliveryId(id: string, ts: nat)
      modifies this`deliveryIds
      ensures deliveryIds == Remember(old(deliveryIds), id, ts, settings.maxDeliveryIds)
    {
      deliveryIds := SetDelivery(deliveryIds, id, ts);
      ghost var all := deliveryIds;
      while |deliveryIds| > settings.maxDeliveryIds
        invariant |deliveryIds| <= |all| && deliveryIds == all[|all| - |deliveryIds|..]
        invariant |deliveryIds| == |all| || |deliveryIds| >= settings.maxDeliveryIds
      {
        deliveryIds := deliveryIds[1..];
      }
    }

    method EnqueueDlq(f: Failure, now: nat) returns (entry: Entry)
      modifies this
      ensures Contents() == Enqueue(old(Contents()), settings, f, now)
      ensures entry == EntryFor(old(Contents()), settings, f, now)
    {
      hide NextRetryAt;
      var existing := GetDlqEntry(f.deliveryId);
      var retryCount := if existing.Some? then existing.value.retryCount else 0;
      if f.incrementRetry {
        retryCount := retryCount + 1;
      }
      var createdAt := if existing.Some? then existing.value.createdAt else now;
      entry := Entry(f.deliveryId, f.event, f.body, createdAt, now, retryCount,
                     NextRetryAt(settings, now, retryCount), f.error);
      dlq := dlq[f.deliveryId := entry];
      if existing.None? {
        dlqOrder := dlqOrder + [f.deliveryId];
      }
      if |dlqOrder| > settings.maxDlqEntries {
        var overflow := |dlqOrder| - settings.maxDlqEntries;
        ghost var goal := Shift(dlq, dlqOrder, overflow);
        var i := 0;
        while i < overflow
          invariant 0 <= i <= overflow && overflow - i <= |dlqOrder|
          invariant deliveryIds == old(deliveryIds) && flying == old(flying)
          invariant Shift(dlq, dlqOrder, overflow - i) == goal
        {
          var removed := dlqOrder[0];
          dlqOrder := dlqOrder[1..];
          if |removed| == 0 {
            break;
          }
          dlq := dlq - {removed};
          i := i + 1;
        }
      }
    }

    method RemoveDlq(id: string)
      modifies this
      ensures Contents() == RemoveEntry(old(Contents()), id)
    {
      if id !in dlq {
        return;
      }
      dlq := dlq - {id};
      var index := 0;
      while index < |dlqOrder| && dlqOrder[index] != id
        invariant 0 <= index <= |dlqOrder| && id !in dlqOrder[..index]
      {
        index := index + 1;
      }
      Spliced(dlqOrder, index, id);
      if index < |dlqOrder| {
        dlqOrder := dlqOrder[..index] + dlqOrder[index + 1..];
      }
    }

    method GetDlqEntry(id: string) returns (found: Option<Entry>)
      ensures found == if id in dlq then Some(dlq[id]) else None
    {
      found := if id in dlq then Some(dlq[id]) else None;
    }

    method ListPage(after: nat, limit: nat) returns (page: Page)
      ensures page == ListDlq(Contents(), after, limit)
    {
      var ids := Slice(dlqOrder, after, limit);
      var entries := CollectEntries(ids);
      var next := after + |ids|;
      page := Page(entries, if next < |dlqOrder| then next else after + |entries|);
    }

    method CollectEntries(ids: seq<string>) returns (entries: seq<Entry>)
      ensures entries == EntriesOf(dlq, ids)
    {
      entries := [];
      for i := 0 to |ids|
        invariant entries + EntriesOf(dlq, ids[i..]) == EntriesOf(dlq, ids)
      {
        assert ids[i..][1..] == ids[i + 1..];
        if ids[i] in dlq {
          entries := entries + [dlq[ids[i]]];
        }
      }
    }

    /** Up to the await of the publication. */
    method ApplyDelivery(d: Delivery) returns (refused: Option<Applied>)
      modifies this`flying
      ensures (Contents(), refused) == Begin(old(Contents()), d)
    {
      var event := Trim(d.event);
      var id := Trim(d.deliveryId);
      if |event| == 0 || |id| == 0 {
        return Some(Missing);
      }
      if HasDelivery(deliveryIds, id) {
        return Some(Known);
      }
      if !d.json {
        return Some(Malformed);
      }
      if !d.maps {
        return Some(Unmapped);
      }
      flying := flying + multiset{id};
      refused := None;
    }

    /** From the answer of the publication on; nothing looks at the memory again before the id is put there. */
    method ResumeDelivery(id: string, p: Published, now: nat) returns (applied: Applied)
      requires id in flying
      modifies this
      ensures (Contents(), applied) == Finish(old(Contents()), settings, id, p, now)
    {
      hide Remember, RemoveEntry;
      flying := flying - multiset{id};
      if p.status != 200 {
        return Unpublished;
      }
      RememberDeliveryId(id, now);
      if p.accepted {
        RemoveDlq(id);
      }
      applied := Done(p.accepted);
    }

    method TakeSnapshot() returns (saved: Saved)
      ensures saved == Snapshot(Contents(), settings)
    {
      var deliveries: map<string, nat> := map[];
      for i := 0 to |deliveryIds|
        invariant deliveries == DeliveryMap(deliveryIds[..i], settings.protoSetter)
      {
        assert deliveryIds[..i + 1][..i] == deliveryIds[..i];
        if Trim(deliveryIds[i].0) != "" && !Swallowed(deliveryIds[i].0, settings.protoSetter) {
          deliveries := deliveries[deliveryIds[i].0 := deliveryIds[i].1];
        }
      }
      assert deliveryIds[..|deliveryIds|] == deliveryIds;
      var entries := CollectEntries(dlqOrder);
      saved := Saved(deliveries, entries);
    }

    method RestoreFrom(saved: Saved, listing: seq<string>)
      requires Lists(listing, saved.deliveries)
      modifies this
      ensures Contents() == Restore(saved, listing, settings).(flying := old(flying))
    {
      ListedIn(listing, saved.deliveries);
      hide RestoreQueue, RestoreDeliveries, Lists;
      dlq, dlqOrder := map[], [];
      RestoreDeliveryIds(saved.deliveries, listing);
      RestoreEntries(saved.dlq);
    }

    method RestoreDeliveryIds(saved: map<string, nat>, listing: seq<string>)
      requires forall id :: id in listing ==> id in saved
      modifies this`deliveryIds
      ensures deliveryIds == RestoreDeliveries(saved, listing)
    {
      hide Trim;
      deliveryIds := [];
      for i := 0 to |listing|
        invariant deliveryIds + RestoreDeliveries(saved, listing[i..]) == RestoreDeliveries(saved, listing)
      {
        assert listing[i] in listing && listing[i..][1..] == listing[i + 1..];
        if Trim(listing[i]) != "" {
          deliveryIds := deliveryIds + [(listing[i], saved[listing[i]])];
        }
      }
    }

    method RestoreEntries(entries: seq<Entry>)
      modifies this
      ensures deliveryIds == old(deliveryIds) && flying == old(flying)
      ensures (dlq, dlqOrder) == RestoreQueue(entries, old(dlq), old(dlqOrder), settings.maxDlqEntries)
    {
      hide RestoredEntry;
      var i := 0;
      while i < |entries|
        invariant 0 <= i <= |entries| && deliveryIds == old(deliveryIds) && flying == old(flying)
        invariant RestoreQueue(entries[i..], dlq, dlqOrder, settings.maxDlqEntries)
               == RestoreQueue(entries, old(dlq), old(dlqOrder), settings.maxDlqEntries)
      {
        assert entries[i..][1..] == entries[i + 1..];
        var id := Trim(entries[i].deliveryId);
        if |id| > 0 {
          dlq := dlq[id := RestoredEntry(entries[i])];
          dlqOrder := dlqOrder + [id];
          if |dlqOrder| >= settings.maxDlqEntries {
            return;
          }
        }
        i := i + 1;
      }
    }
  }

  lemma ListedIn(listing: seq<string>, m: map<string, nat>)
    requires Lists(listing, m)
    ensures forall id :: id in listing ==> id in m
  {}

  lemma {:induction false} Spliced(order: seq<string>, i: nat, id: string)
    requires i <= |order| && id !in order[..i] && (i < |order| ==> order[i] == id)
    ensures Without(order, id) == if i < |order| then order[..i] + order[i + 1..] else order
  {
    if order != [] && i > 0 {
      assert order[0] in order[..i];
      assert order[1..][..i - 1] == order[..i][1..];
      Spliced(order[1..], i - 1, id);
      assert order == [order[0]] + order[1..];
    }
  }
}
