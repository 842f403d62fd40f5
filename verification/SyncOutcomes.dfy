/** What a sync round does, told on the peers' logs and links (src/cache_sync_worker.ts): which peers fail, how many
    entries are pulled, and where each cursor ends. */
module SyncOutcomes {
  import opened Arithmetic
  import opened Options
  import opened Ordering
  import opened JsonFields
  import opened Text
  import opened CacheExchange
  import opened RelayService
  import opened CacheSyncWorker
  import opened ShardedPush
  import opened RelayOutcomes

  /** The entry, as a push receives it, cannot be read, or its room is denied. */
  ghost predicate Unpushable(c: Config, denied: set<string>, e: Entry) {
    (forall x :: !Reads(ToWire(e), c.maxHops, x)) || exists x :: Reads(ToWire(e), c.maxHops, x) && DeniedRoom(denied, x)
  }

  /** A peer's turn fails if the peer cannot be reached, if an entry it sent cannot be pushed, or if the answer of a
      push is lost. */
  ghost predicate TurnFails(c: Config, denied: set<string>, page: Page, link: Link) {
    || link == Unreachable
    || (exists e :: e in page.entries && Unpushable(c, denied, e))
    || (link == AnswerLost && page.entries != [])
  }

  lemma AbortsIs(c: Config, denied: set<string>, e: Entry)
    ensures Aborts(c, denied, ToWire(e)) <==> Unpushable(c, denied, e)
  {
    hide Reads, PushEntry, ToWire, DeniedRoom;
    var raw := ToWire(e);
    EmptyRoomsOk(c);
    if x :| Reads(raw, c.maxHops, x) {
      EntryIs(c, denied, EMPTY_NODE, raw, x);
      var (m, o) := PushEntry(c, denied, EMPTY_NODE, raw);
      FailsForRoom(c, denied, EMPTY_NODE, x, m, o);
      forall y | Reads(raw, c.maxHops, y) ensures y == x {
        ParseIs(raw, c.maxHops, x);
        ParseIs(raw, c.maxHops, y);
      }
    } else {
      UnreadIs(c, denied, EMPTY_NODE, raw);
    }
  }

  /** The turn of one peer: failing or not, what it pulled, and its cursor. */
  lemma TurnIs(c: Config, denied: set<string>, n: Node, after: nat, log: seq<Record>, limit: int, link: Link)
    ensures var page, t := Select(log, PullQuery(c, after, limit)), SyncPeer(c, denied, n, after, log, limit, link);
      && (t.ok <==> !TurnFails(c, denied, page, link))
      && (t.ok ==> t.pulled == |page.entries| && t.cursor == Max(after, page.nextCursor))
      && (!t.ok ==> t.cursor == after)
  {
    hide PushAll, Aborts, Unpushable, Select;
    var page := Select(log, PullQuery(c, after, limit));
    var raws := Wires(page.entries);
    FailsIffAborts(c, denied, n, raws);
    forall i | 0 <= i < |raws| ensures Aborts(c, denied, raws[i]) <==> Unpushable(c, denied, page.entries[i]) {
      AbortsIs(c, denied, page.entries[i]);
    }
  }

  // -------------------------------------------------------------------- rounds

  /** The page a peer's turn pulls in a round: from its own cursor, which no other turn moves. */
  function PageOf(c: Config, cursors: map<string, nat>, p: string, limit: int, network: map<string, Peer>): Page
    requires p in network
  {
    Select(network[p].log, Query(CursorFor(cursors, p), limit, Some(c.nodeId), None))
  }

  ghost predicate Fails(c: Config, denied: set<string>, cursors: map<string, nat>, p: string, limit: int,
                        network: map<string, Peer>)
    requires p in network
  {
    TurnFails(c, denied, PageOf(c, cursors, p, limit, network), network[p].link)
  }

  /** The peers that fail, in the order of the round. */
  ghost function Failing(c: Config, denied: set<string>, cursors: map<string, nat>, limit: int, peers: seq<string>,
                         network: map<string, Peer>): seq<string>
    requires forall p :: p in peers ==> p in network
  {
    if peers == [] then []
    else
      var init, p := peers[..|peers| - 1], peers[|peers| - 1];
      Failing(c, denied, cursors, limit, init, network)
      + if Fails(c, denied, cursors, p, limit, network) then [p] else []
  }

  /** The entries of the pages that go through. */
  ghost function Pulled(c: Config, denied: set<string>, cursors: map<string, nat>, limit: int, peers: seq<string>,
                        network: map<string, Peer>): nat
    requires forall p :: p in peers ==> p in network
  {
    if peers == [] then 0
    else
      var init, p := peers[..|peers| - 1], peers[|peers| - 1];
      Pulled(c, denied, cursors, limit, init, network)
      + if Fails(c, denied, cursors, p, limit, network) then 0 else |PageOf(c, cursors, p, limit, network).entries|
  }

  /** A round reports the peers whose turn failed, in order, counts the others as processed, and counts the entries of
      their pages as pulled and as pushed; each of their cursors ends where its page does, and no other cursor moves. */
  lemma {:induction false} RoundIs(c: Config, denied: set<string>, n: Node, cursors: map<string, nat>, limit: int,
                                   peers: seq<string>, network: map<string, Peer>)
    requires Distinct(peers) && forall p :: p in peers ==> p in network
    ensures var r := RoundAfter(c, denied, n, cursors, limit, peers, network);
      && !r.summary.skipped
      && r.summary.failedPeers == Failing(c, denied, cursors, limit, peers, network)
      && r.summary.processedPeers == |peers| - |r.summary.failedPeers|
      && r.summary.pulledEntries == r.summary.pushedEntries == Pulled(c, denied, cursors, limit, peers, network)
      && forall p :: CursorFor(r.cursors, p)
           == if p in peers && !Fails(c, denied, cursors, p, limit, network)
              then Max(CursorFor(cursors, p), PageOf(c, cursors, p, limit, network).nextCursor)
              else CursorFor(cursors, p)
  {
    hide SyncPeer, TurnFails, Select;
    if peers != [] {
      var init, p := peers[..|peers| - 1], peers[|peers| - 1];
      assert p !in init;
      assert forall q :: q in peers <==> q in init || q == p;
      RoundIs(c, denied, n, cursors, limit, init, network);
      var r := RoundAfter(c, denied, n, cursors, limit, init, network);
      TurnIs(c, denied, r.node, CursorFor(r.cursors, p), network[p].log, limit, network[p].link);
    }
  }
}
