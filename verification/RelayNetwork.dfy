/** A network of relays: local publishes, and the turns of one relay's worker with one peer, cut at their awaits:
    between pull and push, after each entry of a push, and before the answer of the push. A page may be in flight for
    every pair of relays, and anything may happen meanwhile. */
module RelayNetwork {
  import opened Arithmetic
  import opened Options
  import opened Text
  import opened CacheExchange
  import opened RelayService
  import opened CacheSyncWorker

  /** Relay `at` published `envelope` locally with hop limit `maxHops`. */
  datatype Publication = Publication(at: nat, envelope: Envelope, maxHops: nat)

  /** Relay `to` pulled `envelope` from relay `from`. */
  datatype Carry = Carry(from: nat, to: nat, envelope: Envelope)

  /** A page being pushed: the entries done and those left, the cursor it ends at, and whether any entry of it has been
      accepted. */
  datatype Flight = Flight(pushed: seq<Entry>, left: seq<Entry>, nextCursor: int, logged: bool)

  /** What a worker keeps for one peer: its cursor, and the page it has pulled and not yet settled. */
  datatype Feed = Feed(cursor: nat, flight: Option<Flight>)

  /** `feeds[i][j]` is what relay `i`'s worker keeps for relay `j`; `published` and `carried` record the history. */
  datatype Net = Net(
    nodes: seq<Node>, feeds: seq<seq<Feed>>, published: set<Publication>, carried: set<Carry>)

  /** `PushNext` pushes the next entry of a page. `Settle` ends a turn: with the answer of its push, or, not answered,
      because the peer could not be reached, the push was cut off or its answer was lost. */
  datatype Step =
    | Publish(at: nat, denied: set<string>, request: PublishRequest, freshId: string)
    | Pull(puller: nat, peer: nat, limit: int)
    | PushNext(puller: nat, peer: nat, denied: set<string>)
    | Settle(puller: nat, peer: nat, answered: bool)

  predicate StepOk(cs: seq<Config>, step: Step) {
    match step
    case Publish(i, _, _, freshId) => i < |cs| && Name(freshId)
    case Pull(i, j, _) => i < |cs| && j < |cs|
    case PushNext(i, j, _) => i < |cs| && j < |cs|
    case Settle(i, j, _) => i < |cs| && j < |cs|
  }

  predicate Configured(cs: seq<Config>) {
    forall i :: 0 <= i < |cs| ==> ValidConfig(cs[i])
  }

  predicate Shaped(cs: seq<Config>, s: Net) {
    |s.nodes| == |s.feeds| == |cs| && forall i :: 0 <= i < |cs| ==> |s.feeds[i]| == |cs|
  }

  function Initial(n: nat): Net {
    Net(seq(n, _ => EMPTY_NODE), seq(n, _ => seq(n, _ => Feed(0, None))), {}, {})
  }

  function PulledPage(cs: seq<Config>, s: Net, i: nat, j: nat, limit: int): Page
    requires Shaped(cs, s) && i < |cs| && j < |cs|
  {
    Select(s.nodes[j].log, PullQuery(cs[i], s.feeds[i][j].cursor, limit))
  }

  predicate HasNext(feed: Feed) { feed.flight.Some? && feed.flight.value.left != [] }

  /** Every entry has been pushed. */
  predicate AllPushed(feed: Feed) { feed.flight.Some? && feed.flight.value.left == [] }

  /** The next entry is pushed; one that fails ends the push, and the turn with it. */
  function AfterEntry(c: Config, denied: set<string>, n: Node, feed: Feed): (Node, Feed)
    requires HasNext(feed)
  {
    var f := feed.flight.value;
    var (m, o) := PushEntry(c, denied, n, ToWire(f.left[0]));
    if o.Aborted? then (m, Feed(feed.cursor, None))
    else
      var rest := Flight(f.pushed + [f.left[0]], f.left[1..], f.nextCursor, f.logged || o.Accepted?);
      (m, Feed(feed.cursor, Some(rest)))
  }

  /** The answer comes when every entry has been pushed, and only it moves the cursor. */
  function AfterAnswer(feed: Feed, answered: bool): Feed {
    if !answered then Feed(feed.cursor, None)
    else if !AllPushed(feed) then feed
    else Feed(Max(feed.cursor, feed.flight.value.nextCursor), None)
  }

  function WithFeed(feeds: seq<seq<Feed>>, i: nat, j: nat, feed: Feed): (r: seq<seq<Feed>>)
    requires i < |feeds| && j < |feeds[i]|
    ensures |r| == |feeds| && forall k :: 0 <= k < |r| ==> |r[k]| == |feeds[k]|
  {
    var row: seq<Feed> := feeds[i][j := feed];
    feeds[i := row]
  }

  /** A worker does not pull again from a peer before its turn with it has ended. */
  function Apply(cs: seq<Config>, s: Net, step: Step): (r: Net)
    requires Shaped(cs, s) && StepOk(cs, step)
    ensures Shaped(cs, r)
  {
    match step
    case Publish(i, denied, request, freshId) =>
      var (n, reply) := PublishResult(cs[i], denied, s.nodes[i], request, freshId);
      s.(nodes := s.nodes[i := n],
         published := s.published + if reply.Stored? then {Publication(i, reply.envelope, cs[i].maxHops)} else {})
    case Pull(i, j, limit) =>
      if s.feeds[i][j].flight.Some? then s
      else
        var page := PulledPage(cs, s, i, j, limit);
        var flight := Flight([], page.entries, page.nextCursor, false);
        s.(feeds := WithFeed(s.feeds, i, j, Feed(s.feeds[i][j].cursor, Some(flight))),
           carried := s.carried + set e | e in page.entries :: Carry(j, i, e.envelope))
    case PushNext(i, j, denied) =>
      if !HasNext(s.feeds[i][j]) then s
      else
        var (n, feed) := AfterEntry(cs[i], denied, s.nodes[i], s.feeds[i][j]);
        s.(nodes := s.nodes[i := n], feeds := WithFeed(s.feeds, i, j, feed))
    case Settle(i, j, answered) =>
      s.(feeds := WithFeed(s.feeds, i, j, AfterAnswer(s.feeds[i][j], answered)))
  }

  function Run(cs: seq<Config>, s: Net, steps: seq<Step>): (r: Net)
    requires Shaped(cs, s) && forall k :: 0 <= k < |steps| ==> StepOk(cs, steps[k])
    ensures Shaped(cs, r)
  {
    if steps == [] then s else Apply(cs, Run(cs, s, steps[..|steps| - 1]), steps[|steps| - 1])
  }

  // ------------------------------------------------------- a turn left to itself

  lemma PushAllNext(c: Config, denied: set<string>, n: Node, es: seq<Entry>, e: Entry)
    ensures var s := PushAll(c, denied, n, Wires(es));
      var (next, o) := PushEntry(c, denied, s.node, ToWire(e));
      PushAll(c, denied, n, Wires(es + [e]))
      == if s.failure.Some? then s
         else PushState(next, Count(s.tally, o), if o.Aborted? then Some(o.failure) else None)
  {
    hide PushEntry, Count;
    var raws := Wires(es + [e]);
    assert raws[..|raws| - 1] == Wires(es);
  }

  lemma PushAllNone(c: Config, denied: set<string>, n: Node)
    ensures PushAll(c, denied, n, Wires([])) == PushState(n, ZERO, None)
  {}

  function PushTimes(cs: seq<Config>, s: Net, i: nat, j: nat, denied: set<string>, k: nat): (r: Net)
    requires Shaped(cs, s) && i < |cs| && j < |cs|
    ensures Shaped(cs, r)
  {
    if k == 0 then s else Apply(cs, PushTimes(cs, s, i, j, denied, k - 1), PushNext(i, j, denied))
  }

  /** What is left of a page, and the node it is pushed to, once its first k entries have been pushed in a row. */
  predicate PushedSoFar(c: Config, denied: set<string>, n: Node, page: Page, k: nat, m: Node, flight: Option<Flight>)
    requires k <= |page.entries|
  {
    var p := PushAll(c, denied, n, Wires(page.entries[..k]));
    && m == p.node && (p.failure.Some? ==> flight.None?)
    && (p.failure.None? ==>
         && flight.Some?
         && flight.value == Flight(page.entries[..k], page.entries[k..], page.nextCursor, flight.value.logged))
  }

  lemma OneMoreEntry(c: Config, denied: set<string>, n: Node, page: Page, k: nat, m: Node, feed: Feed)
    requires k < |page.entries| && PushedSoFar(c, denied, n, page, k, m, feed.flight)
    ensures var (next, after) := if HasNext(feed) then AfterEntry(c, denied, m, feed) else (m, feed);
            PushedSoFar(c, denied, n, page, k + 1, next, after.flight) && after.cursor == feed.cursor
  {
    hide PushEntry, PushAll, Wires;
    var es, e := page.entries[..k], page.entries[k];
    assert page.entries[..k + 1] == es + [e];
    assert page.entries[k..] == [e] + page.entries[k + 1..];
    PushAllNext(c, denied, n, es, e);
  }

  /** What k entry steps in a row make of a page is what a push of its first k entries makes of it. */
  lemma {:induction false} EntriesInARow(cs: seq<Config>, s: Net, i: nat, j: nat, denied: set<string>, page: Page,
                                         k: nat)
    requires Shaped(cs, s) && i < |cs| && j < |cs| && k <= |page.entries|
    requires s.feeds[i][j].flight == Some(Flight([], page.entries, page.nextCursor, false))
    ensures var t := PushTimes(cs, s, i, j, denied, k);
      && PushedSoFar(cs[i], denied, s.nodes[i], page, k, t.nodes[i], t.feeds[i][j].flight)
      && t.feeds[i][j].cursor == s.feeds[i][j].cursor
  {
    hide PushedSoFar, AfterEntry, HasNext;
    if k == 0 {
      NoneSoFar(cs[i], denied, s.nodes[i], page);
    } else {
      EntriesInARow(cs, s, i, j, denied, page, k - 1);
      var t := PushTimes(cs, s, i, j, denied, k - 1);
      OneMoreEntry(cs[i], denied, s.nodes[i], page, k - 1, t.nodes[i], t.feeds[i][j]);
    }
  }

  lemma NoneSoFar(c: Config, denied: set<string>, n: Node, page: Page)
    ensures PushedSoFar(c, denied, n, page, 0, n, Some(Flight([], page.entries, page.nextCursor, false)))
  {
    hide PushAll, Wires;
    PushAllNone(c, denied, n);
    assert page.entries[..0] == [] && page.entries[0..] == page.entries;
  }

  /** A pull, a step for every entry, and the answer, with nothing in between, are one turn of the worker. */
  lemma StepsAreTurn(cs: seq<Config>, s: Net, i: nat, j: nat, denied: set<string>, limit: int)
    requires Shaped(cs, s) && i < |cs| && j < |cs| && s.feeds[i][j].flight.None?
    ensures var page := PulledPage(cs, s, i, j, limit);
      var pushed := PushTimes(cs, Apply(cs, s, Pull(i, j, limit)), i, j, denied, |page.entries|);
      var t := SyncPeer(cs[i], denied, s.nodes[i], s.feeds[i][j].cursor, s.nodes[j].log, limit, Up);
      var u := Apply(cs, pushed, Settle(i, j, true));
      u.nodes[i] == t.node && u.feeds[i][j] == Feed(t.cursor, None)
  {
    hide PushAll, Select, Wires, PushTimes;
    var page := PulledPage(cs, s, i, j, limit);
    EntriesInARow(cs, Apply(cs, s, Pull(i, j, limit)), i, j, denied, page, |page.entries|);
    assert page.entries[..|page.entries|] == page.entries && page.entries[|page.entries|..] == [];
  }

  // ------------------------------------------- what a push of pulled entries does

  predicate EntryOk(e: Entry) {
    WellFormed(e.envelope) && Name(e.origin) && e.maxHops >= 1 && e.hopCount > 0
  }

  predicate EntriesOk(entries: seq<Entry>) {
    forall i :: 0 <= i < |entries| ==> EntryOk(entries[i])
  }

  /** The record an entry becomes when it is accepted. */
  predicate CameFrom(r: Record, e: Entry) {
    r.envelope == e.envelope && r.origin == e.origin && r.hopCount == e.hopCount && r.maxHops == e.maxHops
  }

  lemma {:induction false} ScanEntries(records: seq<Record>, q: Query, left: nat, next: int, e: Entry)
    requires left > 0 && e in Scan(records, q, left, next).entries
    ensures exists k ::
              && 0 <= k < |records| && records[k].cursor > q.after && Eligible(records[k], q)
              && e == ToEntry(records[k])
  {
    hide Eligible;
    var r, rest := records[0], records[1..];
    if r.cursor > q.after && Eligible(r, q) && e == ToEntry(r) {
    } else {
      if r.cursor <= q.after {
        ScanEntries(rest, q, left, next, e);
      } else if !Eligible(r, q) {
        ScanEntries(rest, q, left, r.cursor, e);
      } else {
        ScanEntries(rest, q, left - 1, r.cursor, e);
      }
      var k :| 0 <= k < |rest| && rest[k].cursor > q.after && Eligible(rest[k], q) && e == ToEntry(rest[k]);
      assert records[k + 1] == rest[k];
    }
  }

  /** Each pulled entry is one eligible record of the peer's log. */
  lemma PulledFromLog(c: Config, n: Node, q: Query, e: Entry)
    requires NodeOk(c, n) && e in Select(n.log, q).entries
    ensures EntryOk(e)
    ensures exists r :: r in n.log && r.cursor > q.after && Eligible(r, q) && e == ToEntry(r) && RecordOk(c, r)
  {
    hide WellFormed;
    ScanEntries(n.log, q, Max(1, q.limit), Max(0, q.after), e);
    var k :| 0 <= k < |n.log| && n.log[k].cursor > q.after && Eligible(n.log[k], q) && e == ToEntry(n.log[k]);
    assert RecordOk(c, n.log[k]);
  }

  lemma AcceptLogs(c: Config, n: Node, e: Entry)
    ensures var m := Accept(c, n, e.envelope, e.origin, e.hopCount, e.maxHops);
            && (forall r :: r in m.log ==> r in n.log || (CameFrom(r, e) && r.cursor == n.cursor + 1))
            && m.cursor > n.cursor && m.cursor - |m.log| >= n.cursor - |n.log|
  {}

  /** Pushing one pulled entry keeps the node in order, and logs nothing but that entry. */
  lemma PushOneEntry(c: Config, denied: set<string>, n: Node, e: Entry)
    requires ValidConfig(c) && NodeOk(c, n) && EntryOk(e)
    ensures var m := PushEntry(c, denied, n, ToWire(e)).0;
            && NodeOk(c, m)
            && (forall r :: r in m.log ==> r in n.log || (CameFrom(r, e) && r.cursor == n.cursor + 1))
            && m.cursor >= n.cursor && m.cursor - |m.log| >= n.cursor - |n.log|
  {
    hide WellFormed, NodeOk, Find, Classify, Accept, CameFrom, ParseIncoming;
    ParseWire(e, c.maxHops);
    AcceptLogs(c, n, e);
    PushEntryKeepsNodeOk(c, denied, n, ToWire(e));
  }

  lemma {:induction false} PushEntries(c: Config, denied: set<string>, n: Node, entries: seq<Entry>)
    requires ValidConfig(c) && NodeOk(c, n) && EntriesOk(entries)
    ensures var m := PushAll(c, denied, n, Wires(entries)).node;
            && NodeOk(c, m)
            && (forall r :: r in m.log && r !in n.log ==>
                  r.cursor > n.cursor && exists e :: e in entries && CameFrom(r, e))
            && m.cursor >= n.cursor && m.cursor - |m.log| >= n.cursor - |n.log|
    decreases |entries|
  {
    hide NodeOk, EntryOk, CameFrom, PushEntry, ValidConfig;
    if entries != [] {
      var init, e := entries[..|entries| - 1], entries[|entries| - 1];
      assert Wires(entries)[..|entries| - 1] == Wires(init);
      PushEntries(c, denied, n, init);
      var s := PushAll(c, denied, n, Wires(init));
      if s.failure.None? {
        PushOneEntry(c, denied, s.node, e);
      }
      assert forall x :: x in init ==> x in entries;
    }
  }

  /** Pushing the next entry keeps the puller in order and logs nothing but that entry. */
  lemma EntryKeepsNodeOk(c: Config, denied: set<string>, n: Node, feed: Feed)
    requires ValidConfig(c) && NodeOk(c, n) && HasNext(feed) && EntryOk(feed.flight.value.left[0])
    ensures var (m, _) := AfterEntry(c, denied, n, feed);
      && NodeOk(c, m)
      && (forall r :: r in m.log ==>
           r in n.log || (CameFrom(r, feed.flight.value.left[0]) && r.cursor == n.cursor + 1))
      && m.cursor >= n.cursor && m.cursor - |m.log| >= n.cursor - |n.log|
  {
    hide NodeOk, EntryOk, CameFrom, PushEntry, ValidConfig;
    PushOneEntry(c, denied, n, feed.flight.value.left[0]);
  }

  function InFlight(feed: Feed): seq<Entry> {
    if feed.flight.Some? then feed.flight.value.pushed + feed.flight.value.left else []
  }

  /** Whatever a step on a page does, it puts no other entry in flight. */
  lemma NothingAdded(c: Config, denied: set<string>, n: Node, feed: Feed)
    ensures HasNext(feed) ==> forall e :: e in InFlight(AfterEntry(c, denied, n, feed).1) ==> e in InFlight(feed)
    ensures forall e, answered :: e in InFlight(AfterAnswer(feed, answered)) ==> e in InFlight(feed)
    ensures HasNext(feed) ==> feed.flight.value.left[0] in InFlight(feed)
  {
    hide PushEntry;
    if HasNext(feed) {
      var f := feed.flight.value;
      assert f.left == [f.left[0]] + f.left[1..];
      assert f.pushed + [f.left[0]] + f.left[1..] == f.pushed + f.left;
      assert f.left[0] in f.pushed + f.left;
    }
  }

  // --------------------------------------------------------------- provenance

  /** `path` leads from the relay that published the record's envelope to relay `at`, one pull per
      step, and the record's hop count is its number of steps. */
  predicate Trace(cs: seq<Config>, s: Net, at: nat, r: Record, path: seq<nat>) {
    && |path| == r.hopCount + 1 && path[|path| - 1] == at
    && path[0] < |cs| && cs[path[0]].nodeId == r.origin && cs[path[0]].maxHops == r.maxHops
    && Publication(path[0], r.envelope, r.maxHops) in s.published
    && forall k :: 0 <= k < r.hopCount ==> Carry(path[k], path[k + 1], r.envelope) in s.carried
  }

  ghost predicate Traced(cs: seq<Config>, s: Net, at: nat, r: Record) {
    exists path :: Trace(cs, s, at, r, path)
  }

  /** An entry in flight is a record that relay `from` had, and `to` has pulled. */
  ghost predicate Sourced(cs: seq<Config>, s: Net, from: nat, to: nat, e: Entry) {
    && EntryOk(e) && Carry(from, to, e.envelope) in s.carried
    && exists r :: e == ToEntry(r) && Traced(cs, s, from, r)
  }

  ghost predicate Provenance(cs: seq<Config>, s: Net) {
    && Shaped(cs, s)
    && (forall i :: 0 <= i < |cs| ==> NodeOk(cs[i], s.nodes[i]))
    && (forall i, r :: 0 <= i < |cs| && r in s.nodes[i].log ==> Traced(cs, s, i, r))
    && (forall i, j, e :: 0 <= i < |cs| && 0 <= j < |cs| && e in InFlight(s.feeds[i][j]) ==> Sourced(cs, s, j, i, e))
  }

  lemma ProvenanceShaped(cs: seq<Config>, s: Net)
    requires Provenance(cs, s)
    ensures Shaped(cs, s)
  {}

  lemma TraceKept(cs: seq<Config>, s: Net, s': Net, at: nat, r: Record)
    requires Traced(cs, s, at, r) && s.published <= s'.published && s.carried <= s'.carried
    ensures Traced(cs, s', at, r)
  {
    var path :| Trace(cs, s, at, r, path);
    assert Trace(cs, s', at, r, path);
  }

  lemma SourcedKept(cs: seq<Config>, s: Net, s': Net, from: nat, to: nat, e: Entry)
    requires Sourced(cs, s, from, to, e) && s.published <= s'.published && s.carried <= s'.carried
    ensures Sourced(cs, s', from, to, e)
  {
    hide Traced, EntryOk;
    var r :| e == ToEntry(r) && Traced(cs, s, from, r);
    TraceKept(cs, s, s', from, r);
  }

  lemma TraceExtended(cs: seq<Config>, s: Net, s': Net, from: nat, to: nat, r: Record, r': Record)
    requires Traced(cs, s, from, r) && s.published <= s'.published && s.carried <= s'.carried
    requires Carry(from, to, r.envelope) in s'.carried && CameFrom(r', ToEntry(r))
    ensures Traced(cs, s', to, r')
  {
    var path :| Trace(cs, s, from, r, path);
    assert Trace(cs, s', to, r', path + [to]);
  }

  lemma PublishKeepsProvenance(cs: seq<Config>, s: Net, step: Step)
    requires Configured(cs) && Provenance(cs, s) && StepOk(cs, step) && step.Publish?
    ensures Provenance(cs, Apply(cs, s, step))
  {
    hide NodeOk, Trace, Traced, ValidConfig, PublishResult;
    var i := step.at;
    var s' := Apply(cs, s, step);
    PublishKeepsNodeOk(cs[i], step.denied, s.nodes[i], step.request, step.freshId);
    FlightsKept(cs, s, s');
    forall k, r | 0 <= k < |cs| && r in s'.nodes[k].log ensures Traced(cs, s', k, r) {
      if r in s.nodes[k].log {
        TraceKept(cs, s, s', k, r);
      } else {
        PublishedTrace(cs, s, step, r);
      }
    }
  }

  /** What stays in flight stays sourced. */
  lemma FlightsKept(cs: seq<Config>, s: Net, s': Net)
    requires Provenance(cs, s) && Shaped(cs, s') && s.published <= s'.published && s.carried <= s'.carried
    ensures forall i, j, e :: 0 <= i < |cs| && 0 <= j < |cs| && e in InFlight(s.feeds[i][j]) ==>
                  Sourced(cs, s', j, i, e)
  {
    hide NodeOk, Traced, Sourced;
    forall i, j, e | 0 <= i < |cs| && 0 <= j < |cs| && e in InFlight(s.feeds[i][j]) ensures Sourced(cs, s', j, i, e) {
      SourcedKept(cs, s, s', j, i, e);
    }
  }

  lemma PublishedTrace(cs: seq<Config>, s: Net, step: Step, r: Record)
    requires Shaped(cs, s) && StepOk(cs, step) && step.Publish?
    requires r in Apply(cs, s, step).nodes[step.at].log && r !in s.nodes[step.at].log
    ensures Traced(cs, Apply(cs, s, step), step.at, r)
  {
    hide Requested, ValidRoom, ValidTopic, Find;
    var i := step.at;
    var (n, reply) := PublishResult(cs[i], step.denied, s.nodes[i], step.request, step.freshId);
    assert reply.Stored? && r == Record(s.nodes[i].cursor + 1, reply.envelope, cs[i].nodeId, 0, cs[i].maxHops);
    assert Trace(cs, Apply(cs, s, step), i, r, [i]);
  }

  /** What a pull puts in flight is sourced in the peer's log. */
  lemma PulledIsSourced(cs: seq<Config>, s: Net, step: Step, e: Entry)
    requires Provenance(cs, s) && StepOk(cs, step) && step.Pull? && s.feeds[step.puller][step.peer].flight.None?
    requires e in PulledPage(cs, s, step.puller, step.peer, step.limit).entries
    ensures Sourced(cs, Apply(cs, s, step), step.peer, step.puller, e)
  {
    hide NodeOk, Traced, Select, RecordOk, EntryOk, Eligible;
    var i, j := step.puller, step.peer;
    PulledFromLog(cs[j], s.nodes[j], PullQuery(cs[i], s.feeds[i][j].cursor, step.limit), e);
    var r :| r in s.nodes[j].log && e == ToEntry(r);
    TraceKept(cs, s, Apply(cs, s, step), j, r);
  }

  lemma PullKeepsProvenance(cs: seq<Config>, s: Net, step: Step)
    requires Provenance(cs, s) && StepOk(cs, step) && step.Pull?
    ensures Provenance(cs, Apply(cs, s, step))
  {
    hide NodeOk, Traced, Sourced, PulledPage;
    var s' := Apply(cs, s, step);
    var i, j := step.puller, step.peer;
    FlightsKept(cs, s, s');
    forall k, r | 0 <= k < |cs| && r in s'.nodes[k].log ensures Traced(cs, s', k, r) {
      TraceKept(cs, s, s', k, r);
    }
    forall k, l, e | 0 <= k < |cs| && 0 <= l < |cs| && e in InFlight(s'.feeds[k][l]) ensures Sourced(cs, s', l, k, e) {
      if k == i && l == j && s.feeds[i][j].flight.None? { PulledIsSourced(cs, s, step, e); }
    }
  }

  /** The next entry of a page can be pushed. */
  lemma NextOk(cs: seq<Config>, s: Net, i: nat, j: nat)
    requires Provenance(cs, s) && i < |cs| && j < |cs| && HasNext(s.feeds[i][j])
    ensures EntryOk(s.feeds[i][j].flight.value.left[0]) && NodeOk(cs[i], s.nodes[i])
  {
    hide NodeOk, Traced, EntryOk;
    NothingAdded(cs[i], {}, s.nodes[i], s.feeds[i][j]);
    assert Sourced(cs, s, j, i, s.feeds[i][j].flight.value.left[0]);
  }

  lemma EntryKeepsProvenance(cs: seq<Config>, s: Net, step: Step)
    requires Configured(cs) && Provenance(cs, s) && StepOk(cs, step) && step.PushNext?
    ensures Provenance(cs, Apply(cs, s, step))
  {
    hide NodeOk, Trace, Traced, ValidConfig, CameFrom, AfterEntry, Sourced, EntryOk, InFlight;
    var i, j := step.puller, step.peer;
    var s' := Apply(cs, s, step);
    if HasNext(s.feeds[i][j]) {
      NextOk(cs, s, i, j);
      EntryKeepsNodeOk(cs[i], step.denied, s.nodes[i], s.feeds[i][j]);
      NothingAdded(cs[i], step.denied, s.nodes[i], s.feeds[i][j]);
      FlightsKept(cs, s, s');
      forall k, r | 0 <= k < |cs| && r in s'.nodes[k].log ensures Traced(cs, s', k, r) {
        if r in s.nodes[k].log {
          TraceKept(cs, s, s', k, r);
        } else {
          PushedTrace(cs, s, s', j, i, s.feeds[i][j].flight.value.left[0], r);
        }
      }
    }
  }

  lemma SettleKeepsProvenance(cs: seq<Config>, s: Net, step: Step)
    requires Provenance(cs, s) && StepOk(cs, step) && step.Settle?
    ensures Provenance(cs, Apply(cs, s, step))
  {
    hide NodeOk, Traced, AfterAnswer, Sourced, InFlight;
    var i, j := step.puller, step.peer;
    var s' := Apply(cs, s, step);
    NothingAdded(cs[i], {}, s.nodes[i], s.feeds[i][j]);
    FlightsKept(cs, s, s');
    forall k, r | 0 <= k < |cs| && r in s'.nodes[k].log ensures Traced(cs, s', k, r) {
      TraceKept(cs, s, s', k, r);
    }
  }

  lemma PushedTrace(cs: seq<Config>, s: Net, s': Net, from: nat, to: nat, e: Entry, r: Record)
    requires Sourced(cs, s, from, to, e) && CameFrom(r, e) && s.published <= s'.published && s.carried <= s'.carried
    ensures Traced(cs, s', to, r)
  {
    hide Traced, EntryOk;
    var source :| e == ToEntry(source) && Traced(cs, s, from, source);
    TraceExtended(cs, s, s', from, to, source, r);
  }

  lemma InitialProvenance(cs: seq<Config>)
    ensures Provenance(cs, Initial(|cs|))
  {}

  lemma {:induction false} RunKeepsProvenance(cs: seq<Config>, s: Net, steps: seq<Step>)
    requires Configured(cs) && Provenance(cs, s)
    requires forall k :: 0 <= k < |steps| ==> StepOk(cs, steps[k])
    ensures Provenance(cs, Run(cs, s, steps))
    decreases |steps|
  {
    assert Shaped(cs, s);
    hide Provenance, Apply, Shaped;
    if steps != [] {
      RunKeepsProvenance(cs, s, steps[..|steps| - 1]);
      var last, step := Run(cs, s, steps[..|steps| - 1]), steps[|steps| - 1];
      match step
      case Publish(_, _, _, _) => PublishKeepsProvenance(cs, last, step);
      case Pull(_, _, _) => PullKeepsProvenance(cs, last, step);
      case PushNext(_, _, _) => EntryKeepsProvenance(cs, last, step);
      case Settle(_, _, _) => SettleKeepsProvenance(cs, last, step);
    }
  }

  /** In every reachable network every logged record is, field by field, an envelope its origin
      published; its hop count is the length of the chain of pulls that brought it; the count is
      below the limit its origin set; and it is zero exactly at the origin. */
  lemma ReachableProvenance(cs: seq<Config>, steps: seq<Step>, i: nat, r: Record)
    requires Configured(cs) && forall k :: 0 <= k < |steps| ==> StepOk(cs, steps[k])
    requires i < |cs| && r in Run(cs, Initial(|cs|), steps).nodes[i].log
    ensures Traced(cs, Run(cs, Initial(|cs|), steps), i, r)
    ensures r.hopCount < r.maxHops && (r.hopCount == 0 <==> r.origin == cs[i].nodeId)
  {
    InitialProvenance(cs);
    RunKeepsProvenance(cs, Initial(|cs|), steps);
    var n := Run(cs, Initial(|cs|), steps).nodes[i];
    assert NodeOk(cs[i], n);
    var k :| 0 <= k < |n.log| && n.log[k] == r;
    assert RecordOk(cs[i], n.log[k]);
  }
}
