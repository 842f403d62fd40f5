/** In a full mesh whose logs have lost nothing, relays whose workers have caught up hold the same
    messages. */
module Convergence {
  import opened Arithmetic
  import opened Options
  import opened Text
  import opened CacheExchange
  import opened RelayService
  import opened CacheSyncWorker
  import opened RelayNetwork

  ghost predicate Logged(n: Node, room: string, id: string) {
    exists r :: r in n.log && r.envelope.room == room && r.envelope.id == id
  }

  /** The log still has every record ever written to it. */
  predicate LogComplete(n: Node) { |n.log| == n.cursor }

  predicate LogsComplete(s: Net) {
    forall i :: 0 <= i < |s.nodes| ==> LogComplete(s.nodes[i])
  }

  /** Some relay published this message and has it in its log as its own. */
  ghost predicate Rooted(cs: seq<Config>, s: Net, room: string, id: string)
    requires |s.nodes| == |cs|
  {
    exists o, r :: 0 <= o < |cs| && OwnRecord(cs, s, o, r) && r.envelope.room == room && r.envelope.id == id
  }

  predicate OwnRecord(cs: seq<Config>, s: Net, o: nat, r: Record)
    requires |s.nodes| == |cs| && o < |cs|
  {
    r in s.nodes[o].log && r.origin == cs[o].nodeId && r.hopCount == 0 && r.maxHops == cs[o].maxHops
  }

  /** Every message in a room has a record in the log. */
  ghost predicate HeldIsLogged(n: Node) {
    forall room, id :: Holds(n, room, id) ==> Logged(n, room, id)
  }

  ghost predicate LoggedIsRooted(cs: seq<Config>, s: Net)
    requires |s.nodes| == |cs|
  {
    forall i, r :: 0 <= i < |cs| && r in s.nodes[i].log ==> Rooted(cs, s, r.envelope.room, r.envelope.id)
  }

  /** Relay `i`'s cursor for relay `j` has passed this record, and a pull could bring it. */
  predicate Passed(cs: seq<Config>, s: Net, i: nat, j: nat, r: Record)
    requires Shaped(cs, s) && i < |cs| && j < |cs|
  {
    r in s.nodes[j].log && r.cursor <= s.feeds[i][j].cursor && r.origin != cs[i].nodeId && r.hopCount + 1 < r.maxHops
  }

  /** Whatever a puller's cursor has passed and could be relayed to it, the puller has logged. */
  ghost predicate PassedIsLogged(cs: seq<Config>, s: Net)
    requires Shaped(cs, s)
  {
    forall i, j, r :: 0 <= i < |cs| && 0 <= j < |cs| && Passed(cs, s, i, j, r) ==>
      Logged(s.nodes[i], r.envelope.room, r.envelope.id)
  }

  /** No cursor, and no page in flight, is ahead of the peer's log. */
  predicate CursorsBounded(cs: seq<Config>, s: Net)
    requires Shaped(cs, s)
  {
    forall i, j :: 0 <= i < |cs| && 0 <= j < |cs| ==> FeedBounded(s.feeds[i][j], s.nodes[j].cursor)
  }

  predicate FeedBounded(feed: Feed, cursor: nat) {
    feed.cursor <= cursor && (feed.flight.Some? ==> feed.flight.value.nextCursor <= cursor)
  }

  /** A page in flight comes from the peer's log, and holds whatever the puller lacks up to the page's cursor. */
  ghost predicate PageCovers(c: Config, log: seq<Record>, feed: Feed) {
    feed.flight.Some? ==>
      && (forall e :: e in InFlight(feed) ==> FromLog(log, e))
      && (forall r :: r in log && Wanted(c, feed.cursor, feed.flight.value.nextCursor, r) ==>
            ToEntry(r) in InFlight(feed))
  }

  predicate Wanted(c: Config, after: nat, last: int, r: Record) {
    after < r.cursor <= last && r.origin != c.nodeId && r.hopCount + 1 < r.maxHops
  }

  ghost predicate FromLog(log: seq<Record>, e: Entry) {
    exists r :: r in log && e == ToEntry(r)
  }

  /** Whatever has been pushed of a page and could be relayed is logged. */
  ghost predicate PushedIsLogged(c: Config, n: Node, feed: Feed) {
    feed.flight.Some? ==>
      forall e :: e in feed.flight.value.pushed && Relayable(c, e) ==> Logged(n, e.envelope.room, e.envelope.id)
  }

  ghost predicate PageOk(c: Config, n: Node, log: seq<Record>, feed: Feed) {
    PageCovers(c, log, feed) && PushedIsLogged(c, n, feed)
  }

  ghost predicate PagesOk(cs: seq<Config>, s: Net)
    requires Shaped(cs, s)
  {
    forall i, j :: 0 <= i < |cs| && 0 <= j < |cs| ==> PageOk(cs[i], s.nodes[i], s.nodes[j].log, s.feeds[i][j])
  }

  ghost predicate Converging(cs: seq<Config>, s: Net) {
    && Provenance(cs, s) && CursorsBounded(cs, s)
    && (LogsComplete(s) ==>
         && (forall i :: 0 <= i < |cs| ==> HeldIsLogged(s.nodes[i]))
         && LoggedIsRooted(cs, s)
         && PassedIsLogged(cs, s)
         && PagesOk(cs, s))
  }

  // ------------------------------------------------------------------ growing logs

  /** The log only grows, past its cursor. */
  predicate Grown(n: Node, m: Node) {
    n.log <= m.log && n.cursor <= m.cursor && forall r :: r in m.log && r !in n.log ==> r.cursor > n.cursor
  }

  predicate AllGrown(s: Net, s': Net) {
    |s.nodes| == |s'.nodes| && forall k :: 0 <= k < |s.nodes| ==> Grown(s.nodes[k], s'.nodes[k])
  }

  /** Records written later lie beyond every page in flight. */
  lemma PageStays(c: Config, n: Node, m: Node, peer: Node, peer': Node, feed: Feed)
    requires PageOk(c, n, peer.log, feed) && FeedBounded(feed, peer.cursor) && Grown(n, m) && Grown(peer, peer')
    ensures PageOk(c, m, peer'.log, feed)
  {
    hide Relayable, Logged;
    LoggedAll(n, m);
    if feed.flight.Some? {
      forall e | e in InFlight(feed) ensures FromLog(peer'.log, e) {
        var r :| r in peer.log && e == ToEntry(r);
        assert r in peer'.log;
      }
    }
  }

  /** And beyond every cursor. */
  lemma PassedStays(cs: seq<Config>, s: Net, s': Net)
    requires Shaped(cs, s) && Shaped(cs, s') && AllGrown(s, s') && CursorsBounded(cs, s) && PassedIsLogged(cs, s)
    requires forall i, j :: 0 <= i < |cs| && 0 <= j < |cs| ==> s'.feeds[i][j].cursor == s.feeds[i][j].cursor
    ensures PassedIsLogged(cs, s')
  {
    hide Logged;
    forall i, j, r | 0 <= i < |cs| && 0 <= j < |cs| && Passed(cs, s', i, j, r)
      ensures Logged(s'.nodes[i], r.envelope.room, r.envelope.id) {
      assert Grown(s.nodes[i], s'.nodes[i]) && Grown(s.nodes[j], s'.nodes[j]);
      assert FeedBounded(s.feeds[i][j], s.nodes[j].cursor);
      LoggedAll(s.nodes[i], s'.nodes[i]);
      assert Passed(cs, s, i, j, r);
    }
  }

  // ----------------------------------------------------------- what one push logs

  /** A new record only adds to a log that stays complete, and covers the message it stores. */
  lemma AcceptLogged(c: Config, n: Node, e: Envelope, origin: string, hopCount: nat, maxHops: nat)
    requires LogComplete(Accept(c, n, e, origin, hopCount, maxHops)) && |n.log| <= n.cursor
    ensures var m := Accept(c, n, e, origin, hopCount, maxHops);
            && LogComplete(n) && m.log == n.log + [Record(n.cursor + 1, e, origin, hopCount, maxHops)]
            && Logged(m, e.room, e.id)
            && (HeldIsLogged(n) ==> HeldIsLogged(m))
  {
    var m := Accept(c, n, e, origin, hopCount, maxHops);
    var r := Record(n.cursor + 1, e, origin, hopCount, maxHops);
    assert m.log == n.log + [r];
    assert r in m.log;
    forall room, id | Holds(m, room, id) && HeldIsLogged(n) ensures Logged(m, room, id) {
      if room != e.room || id != e.id {
        assert Holds(n, room, id);
        LoggedGrows(n, m, room, id);
      }
    }
  }

  lemma LoggedGrows(n: Node, m: Node, room: string, id: string)
    requires Logged(n, room, id) && forall r :: r in n.log ==> r in m.log
    ensures Logged(m, room, id)
  {
    var r :| r in n.log && r.envelope.room == room && r.envelope.id == id;
    assert r in m.log;
  }

  lemma TouchHolds(n: Node, room: string)
    ensures HeldIsLogged(n) ==> HeldIsLogged(Touch(n, room))
  {
    var m := Touch(n, room);
    forall x, id | Holds(m, x, id) && HeldIsLogged(n) ensures Logged(m, x, id) {
      assert Holds(n, x, id);
      LoggedGrows(n, m, x, id);
    }
  }

  /** What a push needs from an entry to end with its message logged. */
  predicate Relayable(c: Config, e: Entry) { e.origin != c.nodeId && e.hopCount < e.maxHops }

  lemma PushOneLogged(c: Config, denied: set<string>, n: Node, e: Entry)
    requires EntryOk(e) && HeldIsLogged(n) && |n.log| <= n.cursor
    requires LogComplete(PushEntry(c, denied, n, ToWire(e)).0)
    ensures var (m, o) := PushEntry(c, denied, n, ToWire(e));
            && LogComplete(n) && HeldIsLogged(m) && n.log <= m.log
            && (!o.Aborted? && Relayable(c, e) ==> Logged(m, e.envelope.room, e.envelope.id))
  {
    ParseWire(e, c.maxHops);
    var (m, o) := PushEntry(c, denied, n, ToWire(e));
    if o.Accepted? {
      PushOneAccepted(c, denied, n, e);
    } else {
      PushOneKept(c, denied, n, e);
    }
  }

  lemma PushOneAccepted(c: Config, denied: set<string>, n: Node, e: Entry)
    requires EntryOk(e) && HeldIsLogged(n) && |n.log| <= n.cursor
    requires var (m, o) := PushEntry(c, denied, n, ToWire(e)); LogComplete(m) && o.Accepted?
    ensures var m := PushEntry(c, denied, n, ToWire(e)).0;
            LogComplete(n) && HeldIsLogged(m) && n.log <= m.log && Logged(m, e.envelope.room, e.envelope.id)
  {
    hide HeldIsLogged, Logged, WellFormed, Accept, ParseIncoming, Classify, Find, ToWire;
    ParseWire(e, c.maxHops);
    AcceptLogged(c, n, e.envelope, e.origin, e.hopCount, e.maxHops);
  }

  lemma PushOneKept(c: Config, denied: set<string>, n: Node, e: Entry)
    requires EntryOk(e) && HeldIsLogged(n) && !PushEntry(c, denied, n, ToWire(e)).1.Accepted?
    ensures var (m, o) := PushEntry(c, denied, n, ToWire(e));
            && HeldIsLogged(m) && m.log == n.log && m.cursor == n.cursor
            && (!o.Aborted? && Relayable(c, e) ==> Logged(m, e.envelope.room, e.envelope.id))
  {
    hide HeldIsLogged, Logged, ValidRoom, ValidTopic, Accept, ParseIncoming, Classify, ToWire;
    ParseWire(e, c.maxHops);
    TouchHolds(n, e.envelope.room);
    var (m, o) := PushEntry(c, denied, n, ToWire(e));
    if !o.Aborted? && Relayable(c, e) {
      assert Holds(n, e.envelope.room, e.envelope.id);
      HeldLogged(n, e.envelope.room, e.envelope.id);
      LoggedGrows(n, m, e.envelope.room, e.envelope.id);
    }
  }

  lemma HeldLogged(n: Node, room: string, id: string)
    requires HeldIsLogged(n) && Holds(n, room, id)
    ensures Logged(n, room, id)
  {}

  lemma LoggedAll(n: Node, m: Node)
    requires n.log <= m.log
    ensures forall room, id :: Logged(n, room, id) ==> Logged(m, room, id)
  {
    forall room, id | Logged(n, room, id) ensures Logged(m, room, id) {
      assert forall r :: r in n.log ==> r in m.log;
      LoggedGrows(n, m, room, id);
    }
  }

  // ------------------------------------------------------------------ one pull

  lemma {:induction false} ScanCovers(records: seq<Record>, q: Query, left: nat, next: int, r: Record)
    requires left > 0 && CursorsAscend(records) && q.after <= next && (Above(records, next) || next == q.after)
    requires r in records && q.after < r.cursor <= Scan(records, q, left, next).nextCursor && Eligible(r, q)
    ensures ToEntry(r) in Scan(records, q, left, next).entries
  {
    hide Eligible;
    var x, rest := records[0], records[1..];
    TailAscends(records);
    if r != x {
      assert r in rest;
      if x.cursor <= q.after {
        ScanCovers(rest, q, left, next, r);
      } else if !Eligible(x, q) {
        ScanCovers(rest, q, left, x.cursor, r);
      } else if left > 1 {
        ScanCovers(rest, q, left - 1, x.cursor, r);
      }
    }
  }

  /** A page's cursor stays within the peer's log. */
  lemma PullBounded(cs: seq<Config>, s: Net, step: Step)
    requires Converging(cs, s) && StepOk(cs, step) && step.Pull?
    ensures CursorsBounded(cs, Apply(cs, s, step))
  {
    hide Scan, Traced, Sourced, LogsComplete, RecordOk, RoomOk;
    var i, j := step.puller, step.peer;
    var q := PullQuery(cs[i], s.feeds[i][j].cursor, step.limit);
    ScanCursor(s.nodes[j].log, q, Max(1, q.limit), q.after);
    assert NodeOk(cs[j], s.nodes[j]);
    assert FeedBounded(s.feeds[i][j], s.nodes[j].cursor);
  }

  lemma PulledCovers(cs: seq<Config>, s: Net, step: Step)
    requires Provenance(cs, s) && StepOk(cs, step) && step.Pull? && s.feeds[step.puller][step.peer].flight.None?
    ensures var i, j := step.puller, step.peer;
            PageOk(cs[i], s.nodes[i], s.nodes[j].log, Apply(cs, s, step).feeds[i][j])
  {
    hide Traced, Sourced, Scan, RecordOk, RoomOk, EntryOk, Eligible, Logged;
    var i, j := step.puller, step.peer;
    var q := PullQuery(cs[i], s.feeds[i][j].cursor, step.limit);
    var page := PulledPage(cs, s, i, j, step.limit);
    assert NodeOk(cs[j], s.nodes[j]);
    assert InFlight(Apply(cs, s, step).feeds[i][j]) == page.entries;
    forall e | e in page.entries ensures FromLog(s.nodes[j].log, e) {
      PulledFromLog(cs[j], s.nodes[j], q, e);
    }
    forall r | r in s.nodes[j].log && Wanted(cs[i], s.feeds[i][j].cursor, page.nextCursor, r)
      ensures ToEntry(r) in page.entries {
      IsEligible(cs[i], r, q);
      ScanCovers(s.nodes[j].log, q, Max(1, q.limit), q.after, r);
    }
  }

  lemma IsEligible(c: Config, r: Record, q: Query)
    requires r.origin != c.nodeId && r.hopCount < r.maxHops && q.room == None && q.peer == Some(c.nodeId)
    ensures Eligible(r, q)
  {}

  lemma PullKeepsConverging(cs: seq<Config>, s: Net, step: Step)
    requires Converging(cs, s) && StepOk(cs, step) && step.Pull?
    ensures Converging(cs, Apply(cs, s, step))
  {
    hide Provenance, PageOk, HeldIsLogged, LogComplete, PulledPage, CursorsBounded, Logged, Rooted;
    ProvenanceShaped(cs, s);
    var s' := Apply(cs, s, step);
    var i, j := step.puller, step.peer;
    PullKeepsProvenance(cs, s, step);
    PullBounded(cs, s, step);
    if LogsComplete(s') {
      assert LogsComplete(s);
      forall k, r | 0 <= k < |cs| && r in s'.nodes[k].log ensures Rooted(cs, s', r.envelope.room, r.envelope.id) {
        RootedGrows(cs, s, s', r.envelope.room, r.envelope.id);
      }
      forall k, l, r | 0 <= k < |cs| && 0 <= l < |cs| && Passed(cs, s', k, l, r)
        ensures Logged(s'.nodes[k], r.envelope.room, r.envelope.id) {
        assert Passed(cs, s, k, l, r);
      }
      if s.feeds[i][j].flight.None? { PulledCovers(cs, s, step); }
    }
  }

  lemma RootedGrows(cs: seq<Config>, s: Net, s': Net, room: string, id: string)
    requires |s.nodes| == |s'.nodes| == |cs| && Rooted(cs, s, room, id)
    requires forall i :: 0 <= i < |cs| ==> s.nodes[i].log <= s'.nodes[i].log
    ensures Rooted(cs, s', room, id)
  {
    var o, r :| 0 <= o < |cs| && OwnRecord(cs, s, o, r) && r.envelope.room == room && r.envelope.id == id;
    assert s.nodes[o].log <= s'.nodes[o].log;
    assert OwnRecord(cs, s', o, r);
  }

  // ----------------------------------------------------------------- one entry

  /** What a step on the next entry makes of logs that are still complete. */
  lemma EntryGrows(cs: seq<Config>, s: Net, step: Step)
    requires Configured(cs) && Converging(cs, s) && StepOk(cs, step) && step.PushNext?
    requires HasNext(s.feeds[step.puller][step.peer]) && LogsComplete(Apply(cs, s, step))
    ensures LogsComplete(s) && AllGrown(s, Apply(cs, s, step)) && HeldIsLogged(Apply(cs, s, step).nodes[step.puller])
    ensures var c, n, feed := cs[step.puller], s.nodes[step.puller], s.feeds[step.puller][step.peer];
            var e, (m, after) := feed.flight.value.left[0], AfterEntry(c, step.denied, n, feed);
            after.flight.Some? && Relayable(c, e) ==> Logged(m, e.envelope.room, e.envelope.id)
  {
    hide Traced, Sourced, ValidConfig, PushEntry, RoomOk, RecordOk, CursorsAscend, EntryOk, Relayable, HeldIsLogged;
    hide Logged, CameFrom, LoggedIsRooted, PassedIsLogged, PagesOk;
    var i, j := step.puller, step.peer;
    var s' := Apply(cs, s, step);
    var e := s.feeds[i][j].flight.value.left[0];
    NextOk(cs, s, i, j);
    EntryKeepsNodeOk(cs[i], step.denied, s.nodes[i], s.feeds[i][j]);
    forall k | 0 <= k < |s.nodes| ensures LogComplete(s.nodes[k]) {
      assert LogComplete(s'.nodes[k]) && NodeOk(cs[k], s.nodes[k]);
    }
    assert LogComplete(s'.nodes[i]);
    PushOneLogged(cs[i], step.denied, s.nodes[i], e);
  }

  lemma EntryKeepsRooted(cs: seq<Config>, s: Net, step: Step)
    requires Configured(cs) && Converging(cs, s) && StepOk(cs, step) && step.PushNext?
    requires HasNext(s.feeds[step.puller][step.peer]) && LogsComplete(s) && AllGrown(s, Apply(cs, s, step))
    ensures LoggedIsRooted(cs, Apply(cs, s, step))
  {
    hide NodeOk, Traced, Sourced, Rooted, AfterEntry, EntryOk, InFlight;
    hide CameFrom, ValidConfig, HeldIsLogged, PassedIsLogged, CursorsBounded, PushedIsLogged;
    var i, j := step.puller, step.peer;
    var s' := Apply(cs, s, step);
    var e := s.feeds[i][j].flight.value.left[0];
    NextOk(cs, s, i, j);
    EntryKeepsNodeOk(cs[i], step.denied, s.nodes[i], s.feeds[i][j]);
    NothingAdded(cs[i], step.denied, s.nodes[i], s.feeds[i][j]);
    forall k | 0 <= k < |cs| ensures s.nodes[k].log <= s'.nodes[k].log { assert Grown(s.nodes[k], s'.nodes[k]); }
    assert PageOk(cs[i], s.nodes[i], s.nodes[j].log, s.feeds[i][j]) && FromLog(s.nodes[j].log, e);
    var from :| from in s.nodes[j].log && e == ToEntry(from);
    assert Rooted(cs, s, from.envelope.room, from.envelope.id);
    forall k, r | 0 <= k < |cs| && r in s'.nodes[k].log ensures Rooted(cs, s', r.envelope.room, r.envelope.id) {
      if r !in s.nodes[k].log { SameEnvelope(r, e); }
      RootedGrows(cs, s, s', r.envelope.room, r.envelope.id);
    }
  }

  lemma SameEnvelope(r: Record, e: Entry)
    requires CameFrom(r, e)
    ensures r.envelope == e.envelope
  {}

  /** The page goes on with one entry more pushed. */
  lemma EntryKeepsPage(c: Config, denied: set<string>, n: Node, log: seq<Record>, feed: Feed)
    requires HasNext(feed) && PageOk(c, n, log, feed)
    requires var (m, after) := AfterEntry(c, denied, n, feed);
      && n.log <= m.log
      && var e := feed.flight.value.left[0];
         after.flight.Some? && Relayable(c, e) ==> Logged(m, e.envelope.room, e.envelope.id)
    ensures var (m, after) := AfterEntry(c, denied, n, feed); PageOk(c, m, log, after)
  {
    hide PushEntry, Relayable, Logged, FromLog, Wanted;
    var (m, after) := AfterEntry(c, denied, n, feed);
    LoggedAll(n, m);
    if after.flight.Some? {
      var f := feed.flight.value;
      assert f.left == [f.left[0]] + f.left[1..];
      assert InFlight(after) == InFlight(feed);
    }
  }

  lemma EntryKeepsPages(cs: seq<Config>, s: Net, step: Step)
    requires Configured(cs) && Converging(cs, s) && StepOk(cs, step) && step.PushNext?
    requires HasNext(s.feeds[step.puller][step.peer]) && LogsComplete(Apply(cs, s, step))
    ensures PagesOk(cs, Apply(cs, s, step))
  {
    EntryGrows(cs, s, step);
    hide Provenance, LoggedIsRooted, PassedIsLogged, HeldIsLogged, AfterEntry, PageOk, FeedBounded, Grown, LogComplete;
    hide Logged, Relayable;
    ProvenanceShaped(cs, s);
    var i, j := step.puller, step.peer;
    var s' := Apply(cs, s, step);
    forall k, l | 0 <= k < |cs| && 0 <= l < |cs|
      ensures PageOk(cs[k], s'.nodes[k], s'.nodes[l].log, s'.feeds[k][l]) {
      assert Grown(s.nodes[k], s'.nodes[k]) && Grown(s.nodes[l], s'.nodes[l]);
      if k == i && l == j {
        GrownLog(s.nodes[i], s'.nodes[i]);
        EntryKeepsPage(cs[i], step.denied, s.nodes[i], s.nodes[j].log, s.feeds[i][j]);
        SameBounds(cs[i], step.denied, s.nodes[i], s.feeds[i][j], s.nodes[j].cursor);
        GrownSelf(s'.nodes[i]);
        PageStays(cs[i], s'.nodes[i], s'.nodes[i], s.nodes[j], s'.nodes[j], s'.feeds[i][j]);
      } else {
        PageStays(cs[k], s.nodes[k], s'.nodes[k], s.nodes[l], s'.nodes[l], s.feeds[k][l]);
      }
    }
  }

  lemma GrownLog(n: Node, m: Node)
    requires Grown(n, m)
    ensures n.log <= m.log
  {}

  lemma GrownSelf(n: Node)
    ensures Grown(n, n)
  {}

  lemma SameBounds(c: Config, denied: set<string>, n: Node, feed: Feed, cursor: nat)
    requires HasNext(feed) && FeedBounded(feed, cursor)
    ensures var after := AfterEntry(c, denied, n, feed).1; FeedBounded(after, cursor) && after.cursor == feed.cursor
  {
    hide PushEntry;
  }

  lemma EntryKeepsConverging(cs: seq<Config>, s: Net, step: Step)
    requires Configured(cs) && Converging(cs, s) && StepOk(cs, step) && step.PushNext?
    ensures Converging(cs, Apply(cs, s, step))
  {
    hide Provenance, AfterEntry, LoggedIsRooted, PassedIsLogged, HeldIsLogged;
    hide LogComplete, PagesOk, FeedBounded, AllGrown;
    ProvenanceShaped(cs, s);
    var i, j := step.puller, step.peer;
    var s' := Apply(cs, s, step);
    EntryKeepsProvenance(cs, s, step);
    if HasNext(s.feeds[i][j]) {
      EntryBounded(cs, s, step);
      if LogsComplete(s') {
        EntryGrows(cs, s, step);
        EntryKeepsRooted(cs, s, step);
        EntryKeepsPages(cs, s, step);
        SameBounds(cs[i], step.denied, s.nodes[i], s.feeds[i][j], s.nodes[j].cursor);
        PassedStays(cs, s, s');
      }
    }
  }

  lemma EntryBounded(cs: seq<Config>, s: Net, step: Step)
    requires Configured(cs) && Provenance(cs, s) && CursorsBounded(cs, s) && StepOk(cs, step) && step.PushNext?
    requires HasNext(s.feeds[step.puller][step.peer])
    ensures CursorsBounded(cs, Apply(cs, s, step))
  {
    hide NodeOk, Traced, Sourced, ValidConfig, AfterEntry, CameFrom, EntryOk;
    var i, j := step.puller, step.peer;
    var s' := Apply(cs, s, step);
    NextOk(cs, s, i, j);
    EntryKeepsNodeOk(cs[i], step.denied, s.nodes[i], s.feeds[i][j]);
    SameBounds(cs[i], step.denied, s.nodes[i], s.feeds[i][j], s.nodes[j].cursor);
    forall k, l | 0 <= k < |cs| && 0 <= l < |cs| ensures FeedBounded(s'.feeds[k][l], s'.nodes[l].cursor) {
      assert FeedBounded(s.feeds[k][l], s.nodes[l].cursor);
    }
  }

  // ----------------------------------------------------------------- one answer

  /** What an answer makes its cursor pass was in the page, and has been pushed. */
  lemma NewlyPassed(c: Config, n: Node, log: seq<Record>, feed: Feed, answered: bool, r: Record)
    requires PageOk(c, n, log, feed) && r in log && r.origin != c.nodeId && r.hopCount + 1 < r.maxHops
    requires feed.cursor < r.cursor <= AfterAnswer(feed, answered).cursor
    ensures Logged(n, r.envelope.room, r.envelope.id)
  {
    hide Logged;
    assert Wanted(c, feed.cursor, feed.flight.value.nextCursor, r);
    assert InFlight(feed) == feed.flight.value.pushed;
    assert Relayable(c, ToEntry(r));
  }

  lemma AnswerBounds(c: Config, n: Node, log: seq<Record>, feed: Feed, answered: bool, cursor: nat)
    requires FeedBounded(feed, cursor)
    ensures FeedBounded(AfterAnswer(feed, answered), cursor) && AfterAnswer(feed, answered).cursor >= feed.cursor
    ensures PageOk(c, n, log, feed) ==> PageOk(c, n, log, AfterAnswer(feed, answered))
  {
    hide Logged, FromLog, Wanted, Relayable;
  }

  lemma SettleKeepsConverging(cs: seq<Config>, s: Net, step: Step)
    requires Converging(cs, s) && StepOk(cs, step) && step.Settle?
    ensures Converging(cs, Apply(cs, s, step))
  {
    hide Provenance, AfterAnswer, HeldIsLogged, LogComplete, PageOk, FeedBounded, Logged, Rooted;
    ProvenanceShaped(cs, s);
    var i, j := step.puller, step.peer;
    var s' := Apply(cs, s, step);
    SettleKeepsProvenance(cs, s, step);
    AnswerBounds(cs[i], s.nodes[i], s.nodes[j].log, s.feeds[i][j], step.answered, s.nodes[j].cursor);
    if LogsComplete(s') {
      assert LogsComplete(s);
      forall k, r | 0 <= k < |cs| && r in s'.nodes[k].log ensures Rooted(cs, s', r.envelope.room, r.envelope.id) {
        RootedGrows(cs, s, s', r.envelope.room, r.envelope.id);
      }
      forall k, l, r | 0 <= k < |cs| && 0 <= l < |cs| && Passed(cs, s', k, l, r)
        ensures Logged(s'.nodes[k], r.envelope.room, r.envelope.id) {
        if !Passed(cs, s, k, l, r) {
          NewlyPassed(cs[i], s.nodes[i], s.nodes[j].log, s.feeds[i][j], step.answered, r);
        }
      }
    }
  }

  // --------------------------------------------------------------- one publish

  lemma PublishLogged(c: Config, denied: set<string>, n: Node, request: PublishRequest, freshId: string)
    requires LogComplete(PublishResult(c, denied, n, request, freshId).0) && (LogComplete(n) ==> HeldIsLogged(n))
    requires |n.log| <= n.cursor
    ensures var (m, reply) := PublishResult(c, denied, n, request, freshId);
            && LogComplete(n) && HeldIsLogged(m) && m.cursor >= n.cursor && n.log <= m.log
            && forall r :: r in m.log && r !in n.log ==>
                 r.cursor > n.cursor && r.origin == c.nodeId && r.hopCount == 0 && r.maxHops == c.maxHops
  {
    hide HeldIsLogged, Requested, ValidRoom, ValidTopic, Find, Logged, Accept;
    var e := Requested(request, freshId);
    TouchHolds(n, e.room);
    if PublishResult(c, denied, n, request, freshId).1.Stored? {
      AcceptLogged(c, n, e, c.nodeId, 0, c.maxHops);
      AcceptCursor(c, n, e, c.nodeId, 0, c.maxHops);
    }
  }

  lemma AcceptCursor(c: Config, n: Node, e: Envelope, origin: string, hopCount: nat, maxHops: nat)
    ensures Accept(c, n, e, origin, hopCount, maxHops).cursor == n.cursor + 1
  {}

  lemma PublishCursor(c: Config, denied: set<string>, n: Node, request: PublishRequest, freshId: string)
    ensures PublishResult(c, denied, n, request, freshId).0.cursor >= n.cursor
  {
    hide Requested, ValidRoom, ValidTopic, Find;
  }

  lemma PublishKeepsConverging(cs: seq<Config>, s: Net, step: Step)
    requires Configured(cs) && Converging(cs, s) && StepOk(cs, step) && step.Publish?
    ensures Converging(cs, Apply(cs, s, step))
  {
    hide Traced, RoomOk, RecordOk, CursorsAscend;
    hide PublishResult, LoggedIsRooted, PassedIsLogged, HeldIsLogged, ValidConfig;
    var i := step.at;
    var s' := Apply(cs, s, step);
    PublishKeepsProvenance(cs, s, step);
    PublishCursor(cs[i], step.denied, s.nodes[i], step.request, step.freshId);
    if LogsComplete(s') {
      assert LogComplete(s'.nodes[i]) && NodeOk(cs[i], s.nodes[i]);
      forall k | 0 <= k < |cs| && k != i ensures LogComplete(s.nodes[k]) { assert LogComplete(s'.nodes[k]); }
      assert LogComplete(s.nodes[i]) ==> LogsComplete(s);
      PublishLogged(cs[i], step.denied, s.nodes[i], step.request, step.freshId);
      PublishKeepsRooted(cs, s, step);
      assert AllGrown(s, s');
      PassedStays(cs, s, s');
      PublishKeepsPages(cs, s, step);
    }
  }

  lemma PublishKeepsPages(cs: seq<Config>, s: Net, step: Step)
    requires Converging(cs, s) && StepOk(cs, step) && step.Publish? && LogsComplete(s)
    requires AllGrown(s, Apply(cs, s, step))
    ensures PagesOk(cs, Apply(cs, s, step))
  {
    hide Provenance, PublishResult, LoggedIsRooted, PassedIsLogged, HeldIsLogged;
    hide LogComplete, PageOk, FeedBounded, Grown;
    ProvenanceShaped(cs, s);
    var s' := Apply(cs, s, step);
    forall k, l | 0 <= k < |cs| && 0 <= l < |cs|
      ensures PageOk(cs[k], s'.nodes[k], s'.nodes[l].log, s'.feeds[k][l]) {
      assert Grown(s.nodes[k], s'.nodes[k]) && Grown(s.nodes[l], s'.nodes[l]);
      PageStays(cs[k], s.nodes[k], s'.nodes[k], s.nodes[l], s'.nodes[l], s.feeds[k][l]);
    }
  }

  lemma PublishKeepsRooted(cs: seq<Config>, s: Net, step: Step)
    requires Configured(cs) && Converging(cs, s) && StepOk(cs, step) && step.Publish? && LogsComplete(s)
    requires var n, m := s.nodes[step.at], Apply(cs, s, step).nodes[step.at];
             && n.log <= m.log
             && forall r :: r in m.log && r !in n.log ==>
                  r.origin == cs[step.at].nodeId && r.hopCount == 0 && r.maxHops == cs[step.at].maxHops
    ensures LoggedIsRooted(cs, Apply(cs, s, step))
  {
    hide Provenance, PublishResult, PassedIsLogged, HeldIsLogged, ValidConfig, CursorsBounded, LogComplete;
    assert Shaped(cs, s) by { ProvenanceShaped(cs, s); }
    var s' := Apply(cs, s, step);
    forall k, r | 0 <= k < |cs| && r in s'.nodes[k].log ensures Rooted(cs, s', r.envelope.room, r.envelope.id) {
      if r in s.nodes[k].log {
        RootedGrows(cs, s, s', r.envelope.room, r.envelope.id);
      } else {
        assert OwnRecord(cs, s', k, r);
      }
    }
  }

  // --------------------------------------------------------------------- runs

  lemma InitialConverging(cs: seq<Config>)
    ensures Converging(cs, Initial(|cs|))
  {
    InitialProvenance(cs);
  }

  lemma {:induction false} RunKeepsConverging(cs: seq<Config>, s: Net, steps: seq<Step>)
    requires Configured(cs) && Converging(cs, s)
    requires forall k :: 0 <= k < |steps| ==> StepOk(cs, steps[k])
    ensures Converging(cs, Run(cs, s, steps))
    decreases |steps|
  {
    ProvenanceShaped(cs, s);
    hide Converging, Apply, Shaped;
    if steps != [] {
      RunKeepsConverging(cs, s, steps[..|steps| - 1]);
      var last, step := Run(cs, s, steps[..|steps| - 1]), steps[|steps| - 1];
      match step
      case Publish(_, _, _, _) => PublishKeepsConverging(cs, last, step);
      case Pull(_, _, _) => PullKeepsConverging(cs, last, step);
      case PushNext(_, _, _) => EntryKeepsConverging(cs, last, step);
      case Settle(_, _, _) => SettleKeepsConverging(cs, last, step);
    }
  }

  predicate DistinctIds(cs: seq<Config>) {
    forall i, j :: 0 <= i < j < |cs| ==> cs[i].nodeId != cs[j].nodeId
  }

  /** Every worker's cursor stands at the end of every other relay's log. */
  predicate CaughtUp(cs: seq<Config>, s: Net)
    requires Shaped(cs, s)
  {
    forall i, j :: 0 <= i < |cs| && 0 <= j < |cs| && i != j ==> s.feeds[i][j].cursor >= s.nodes[j].cursor
  }

  /** Nothing a relay has logged has been evicted from its room. */
  ghost predicate RoomComplete(n: Node) {
    forall room, id :: Logged(n, room, id) ==> Holds(n, room, id)
  }

  lemma CaughtUpLogs(cs: seq<Config>, s: Net, a: nat, b: nat, room: string, id: string)
    requires Converging(cs, s) && LogsComplete(s) && DistinctIds(cs) && CaughtUp(cs, s)
    requires forall i :: 0 <= i < |cs| ==> cs[i].maxHops >= 2
    requires a < |cs| && b < |cs| && Holds(s.nodes[a], room, id)
    ensures Logged(s.nodes[b], room, id)
  {
    hide Traced, RoomOk, RecordOk, HeldIsLogged, Holds;
    HeldLogged(s.nodes[a], room, id);
    var r0 :| r0 in s.nodes[a].log && r0.envelope.room == room && r0.envelope.id == id;
    assert Rooted(cs, s, room, id);
    var o, r :| 0 <= o < |cs| && OwnRecord(cs, s, o, r) && r.envelope.room == room && r.envelope.id == id;
    if o != b {
      assert NodeOk(cs[o], s.nodes[o]);
      assert Passed(cs, s, b, o, r);
    }
  }

  /** Convergence: after any run of publishes, pulls, entries and answers, interleaved in any way and with any failures,
      a full mesh of relays that have caught up with each other and have evicted nothing holds the
      same ids in every room. */
  lemma FullMeshConverges(cs: seq<Config>, steps: seq<Step>, a: nat, b: nat, room: string, id: string)
    requires Configured(cs) && DistinctIds(cs) && forall i :: 0 <= i < |cs| ==> cs[i].maxHops >= 2
    requires forall k :: 0 <= k < |steps| ==> StepOk(cs, steps[k])
    requires var s := Run(cs, Initial(|cs|), steps);
             CaughtUp(cs, s) && LogsComplete(s) && forall i :: 0 <= i < |cs| ==> RoomComplete(s.nodes[i])
    requires a < |cs| && b < |cs|
    ensures var s := Run(cs, Initial(|cs|), steps);
            Holds(s.nodes[a], room, id) <==> Holds(s.nodes[b], room, id)
  {
    hide Converging, Apply, Logged, Holds, LogsComplete, CaughtUp, RoomComplete, Configured, DistinctIds, StepOk;
    InitialConverging(cs);
    RunKeepsConverging(cs, Initial(|cs|), steps);
    CaughtUpAgree(cs, Run(cs, Initial(|cs|), steps), a, b, room, id);
  }

  lemma CaughtUpAgree(cs: seq<Config>, s: Net, a: nat, b: nat, room: string, id: string)
    requires DistinctIds(cs) && forall i :: 0 <= i < |cs| ==> cs[i].maxHops >= 2
    requires Converging(cs, s) && CaughtUp(cs, s) && LogsComplete(s)
    requires forall i :: 0 <= i < |cs| ==> RoomComplete(s.nodes[i])
    requires a < |cs| && b < |cs|
    ensures Holds(s.nodes[a], room, id) <==> Holds(s.nodes[b], room, id)
  {
    assert |s.nodes| == |cs|;
    hide Converging, Logged, Holds, LogsComplete;
    if Holds(s.nodes[a], room, id) { CaughtUpLogs(cs, s, a, b, room, id); }
    if Holds(s.nodes[b], room, id) { CaughtUpLogs(cs, s, b, a, room, id); }
  }

  /** The hop limit of two is needed: with a limit of one nothing ever leaves its relay. */
  lemma HopLimitOneNeverSpreads(cs: seq<Config>, steps: seq<Step>, i: nat, r: Record)
    requires Configured(cs) && forall k :: 0 <= k < |cs| ==> cs[k].maxHops == 1
    requires forall k :: 0 <= k < |steps| ==> StepOk(cs, steps[k])
    requires i < |cs| && r in Run(cs, Initial(|cs|), steps).nodes[i].log
    ensures r.origin == cs[i].nodeId
  {
    ReachableProvenance(cs, steps, i, r);
    hide Run;
    var path :| Trace(cs, Run(cs, Initial(|cs|), steps), i, r, path);
  }
}
