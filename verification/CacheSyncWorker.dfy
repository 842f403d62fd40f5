/** The worker that copies peers' exchange logs into the local relay (src/cache_sync_worker.ts). */
module CacheSyncWorker {
  import opened Arithmetic
  import opened Options
  import opened Ordering
  import opened Sequences
  import opened Text
  import opened CacheExchange
  import opened RelayService

  function Wires(entries: seq<Entry>): (raws: seq<Value>)
    ensures |raws| == |entries| && forall i :: 0 <= i < |raws| ==> raws[i] == ToWire(entries[i])
  {
    seq(|entries|, i requires 0 <= i < |entries| => ToWire(entries[i]))
  }

  /** How one peer's turn ended: the pull got no answer, the push was refused, the push was applied
      but its answer was lost, or all went well. */
  datatype Link = Unreachable | AnswerLost | Up

  datatype Turn = Turn(node: Node, cursor: nat, ok: bool, pulled: nat)

  function PullQuery(c: Config, after: nat, limit: int): Query {
    Query(after, limit, Some(c.nodeId), None)
  }

  /** From the answer of the pull on: push what came, and only then move the cursor. */
  function FinishTurn(c: Config, denied: set<string>, n: Node, after: nat, page: Page, link: Link): Turn {
    if link == Unreachable then Turn(n, after, false, 0)
    else
      var push := PushAll(c, denied, n, Wires(page.entries));
      if push.failure.Some? || (link == AnswerLost && page.entries != []) then Turn(push.node, after, false, 0)
      else Turn(push.node, Max(after, page.nextCursor), true, |page.entries|)
  }

  /** One peer's turn: pull past the cursor, and go on with what the peer's log yields. */
  function SyncPeer(c: Config, denied: set<string>, n: Node, after: nat, log: seq<Record>, limit: int,
                    link: Link): Turn {
    FinishTurn(c, denied, n, after, Select(log, PullQuery(c, after, limit)), link)
  }

  datatype Summary = Summary(
    skipped: bool, processedPeers: nat, pulledEntries: nat, pushedEntries: nat, failedPeers: seq<string>)

  datatype Round = Round(node: Node, cursors: map<string, nat>, summary: Summary)

  function CursorFor(cursors: map<string, nat>, peer: string): nat {
    if peer in cursors then cursors[peer] else 0
  }

  /** What the network offers during a round: each peer's log, and how its link behaves. */
  datatype Peer = Peer(log: seq<Record>, link: Link)

  /** A round after one more peer's turn. */
  function AddTurn(r: Round, c: Config, denied: set<string>, p: string, limit: int, peer: Peer): Round {
    var t := SyncPeer(c, denied, r.node, CursorFor(r.cursors, p), peer.log, limit, peer.link);
    var s := r.summary;
    if t.ok then
      Round(t.node, r.cursors[p := t.cursor],
            s.(processedPeers := s.processedPeers + 1, pulledEntries := s.pulledEntries + t.pulled,
               pushedEntries := s.pushedEntries + t.pulled))
    else Round(t.node, r.cursors, s.(failedPeers := s.failedPeers + [p]))
  }

  function RoundAfter(c: Config, denied: set<string>, n: Node, cursors: map<string, nat>, limit: int,
                      peers: seq<string>, network: map<string, Peer>): Round
    requires forall p :: p in peers ==> p in network
  {
    if peers == [] then Round(n, cursors, Summary(false, 0, 0, 0, []))
    else
      var p := peers[|peers| - 1];
      AddTurn(RoundAfter(c, denied, n, cursors, limit, peers[..|peers| - 1], network), c, denied, p, limit, network[p])
  }

  lemma RoundExtends(c: Config, denied: set<string>, n: Node, cursors: map<string, nat>, limit: int,
                     peers: seq<string>, i: nat, network: map<string, Peer>)
    requires i < |peers| && forall q :: q in peers ==> q in network
    ensures RoundAfter(c, denied, n, cursors, limit, peers[..i + 1], network)
         == AddTurn(RoundAfter(c, denied, n, cursors, limit, peers[..i], network), c, denied,
                    peers[i], limit, network[peers[i]])
  {
    hide AddTurn;
    assert peers[..i + 1][..i] == peers[..i];
  }

  /** A round never moves a cursor back; a failed peer's cursor stays; every peer is accounted for
      once, as processed or as failed; and whatever is pulled is pushed. */
  lemma {:induction false} RoundCursors(c: Config, denied: set<string>, n: Node, cursors: map<string, nat>, limit: int,
                                        peers: seq<string>, network: map<string, Peer>)
    requires Distinct(peers) && forall p :: p in peers ==> p in network
    ensures var r := RoundAfter(c, denied, n, cursors, limit, peers, network);
            && (forall p :: CursorFor(r.cursors, p) >= CursorFor(cursors, p))
            && (forall p :: p in r.summary.failedPeers || p !in peers ==>
                  CursorFor(r.cursors, p) == CursorFor(cursors, p))
            && (forall p :: p in r.summary.failedPeers ==> p in peers)
            && r.summary.processedPeers + |r.summary.failedPeers| == |peers|
            && r.summary.pulledEntries == r.summary.pushedEntries
  {
    hide SyncPeer;
    if peers != [] {
      var init, p := peers[..|peers| - 1], peers[|peers| - 1];
      RoundCursors(c, denied, n, cursors, limit, init, network);
      var r := RoundAfter(c, denied, n, cursors, limit, init, network);
      SyncCursor(c, denied, r.node, CursorFor(r.cursors, p), network[p].log, limit, network[p].link);
      assert p !in init;
      assert forall q :: q in peers <==> q in init || q == p;
    }
  }

  lemma TurnCursor(c: Config, denied: set<string>, n: Node, after: nat, page: Page, link: Link)
    ensures var t := FinishTurn(c, denied, n, after, page, link);
            t.cursor >= after && (!t.ok ==> t.cursor == after && t.pulled == 0)
  {}

  lemma SyncCursor(c: Config, denied: set<string>, n: Node, after: nat, log: seq<Record>, limit: int, link: Link)
    ensures var t := SyncPeer(c, denied, n, after, log, limit, link);
            t.cursor >= after && (!t.ok ==> t.cursor == after && t.pulled == 0)
  {
    TurnCursor(c, denied, n, after, Select(log, PullQuery(c, after, limit)), link);
  }

  /** The names configured: trimmed, without the empty ones, in the order given. */
  function PeerNames(raw: seq<string>): (names: seq<string>)
    ensures forall p :: p in names ==> Name(p)
  {
    if raw == [] then []
    else
      var init, last := PeerNames(raw[..|raw| - 1]), Trim(raw[|raw| - 1]);
      if last == "" then init else init + [last]
  }

  lemma NoRound(c: Config, denied: set<string>, n: Node, cursors: map<string, nat>, limit: int,
                network: map<string, Peer>)
    ensures RoundAfter(c, denied, n, cursors, limit, [], network) == Round(n, cursors, Summary(false, 0, 0, 0, []))
  {}

  class CacheSyncWorker {
    const peers: seq<string>
    const limit: int
    var cursors: map<string, nat>
    var inFlight: bool

    ghost predicate Valid()
      reads this
    {
      Distinct(peers) && limit >= 1 && forall p :: p in peers ==> p in cursors && Name(p)
    }

    /** `normalizePeers` and `normalizeLimit`; every peer starts at cursor zero. */
    constructor (raw: seq<string>, limit: int)
      ensures Valid() && !inFlight
      ensures this.limit == Max(1, limit)
      ensures FirstOccurrences(peers, PeerNames(raw))
      ensures forall p :: CursorFor(cursors, p) == 0
    {
      hide FirstOccurrences, Trim;
      var dedupe: seq<string> := [];
      var start: map<string, nat> := map[];
      var i := 0;
      NoOccurrences<string>();
      while i < |raw|
        invariant 0 <= i <= |raw| && FirstOccurrences(dedupe, PeerNames(raw[..i]))
        invariant forall p :: p in dedupe <==> p in start
        invariant forall p :: p in start ==> start[p] == 0 && Name(p)
      {
        var trimmed := Trim(raw[i]);
        assert raw[..i + 1][..i] == raw[..i];
        if trimmed != "" {
          NextOccurrence(dedupe, PeerNames(raw[..i]), trimmed);
          if trimmed !in dedupe {
            dedupe := dedupe + [trimmed];
            start := start[trimmed := 0];
          }
        }
        i := i + 1;
      }
      assert raw[..i] == raw;
      OccurrencesDistinct(dedupe, PeerNames(raw));
      peers := dedupe;
      this.limit := Max(1, limit);
      cursors := start;
      inFlight := false;
    }

    /** One round over all peers, in order; a failing peer does not stop the others. */
    method SyncOnce(local: RelayService, denied: set<string>, network: map<string, Peer>) returns (summary: Summary)
      requires Valid() && forall p :: p in peers ==> p in network
      modifies this, local
      ensures Valid() && inFlight == old(inFlight)
      ensures old(inFlight) ==>
                summary == Summary(true, 0, 0, 0, []) && cursors == old(cursors) && local.State() == old(local.State())
      ensures !old(inFlight) ==>
                Round(local.State(), cursors, summary)
                == RoundAfter(local.config, denied, old(local.State()), old(cursors), limit, peers, network)
    {
      NoRound(local.config, denied, local.State(), cursors, limit, network);
      hide AddTurn, RoundAfter;
      if inFlight {
        return Summary(true, 0, 0, 0, []);
      }
      inFlight := true;
      summary := Summary(false, 0, 0, 0, []);
      var i := 0;
      while i < |peers|
        invariant 0 <= i <= |peers| && inFlight
        invariant forall p :: p in peers ==> p in cursors
        invariant Round(local.State(), cursors, summary)
               == RoundAfter(local.config, denied, old(local.State()), old(cursors), limit, peers[..i], network)
      {
        RoundExtends(local.config, denied, old(local.State()), old(cursors), limit, peers, i, network);
        summary := SyncOne(local, denied, peers[i], network[peers[i]], summary);
        i := i + 1;
      }
      assert peers[..i] == peers;
      inFlight := false;
    }

    /** One peer's turn within a round. */
    method SyncOne(local: RelayService, denied: set<string>, p: string, peer: Peer, before: Summary)
      returns (summary: Summary)
      modifies this`cursors, local
      ensures Round(local.State(), cursors, summary)
           == AddTurn(Round(old(local.State()), old(cursors), before), local.config, denied, p, limit, peer)
      ensures forall q :: q in old(cursors) ==> q in cursors
    {
      hide SyncPeer, CursorFor;
      var after := CursorFor(cursors, p);
      var ok, pulled, next := PullAndPush(local, denied, after, peer);
      if ok {
        summary := before.(processedPeers := before.processedPeers + 1,
                           pulledEntries := before.pulledEntries + pulled,
                           pushedEntries := before.pushedEntries + pulled);
        cursors := cursors[p := next];
      } else {
        summary := before.(failedPeers := before.failedPeers + [p]);
      }
    }

    /** The `try` block of one peer's turn. */
    method PullAndPush(local: RelayService, denied: set<string>, after: nat, peer: Peer)
      returns (ok: bool, pulled: nat, next: nat)
      modifies local
      ensures Turn(local.State(), next, ok, pulled)
           == SyncPeer(local.config, denied, old(local.State()), after, peer.log, limit, peer.link)
    {
      if peer.link == Unreachable {
        return false, 0, after;
      }
      var page := SelectCacheExchangeEntries(peer.log, PullQuery(local.config, after, limit));
      if |page.entries| > 0 {
        var response := local.HandleCacheExchangePush(denied, Wires(page.entries));
        if response.Failed? || peer.link == AnswerLost {
          return false, 0, after;
        }
      } else {
        assert Wires(page.entries) == [];
      }
      return true, |page.entries|, Max(after, page.nextCursor);
    }
  }
}
