/** Without new publishes a network of relays comes to rest: every turn that moves a cursor lowers a natural number,
    whatever rooms and logs evict, and whatever the other relays do between its pull, the entries of its push, and its
    answer. */
module Quiescence {
  import opened Arithmetic
  import opened Options
  import opened Sequences
  import opened Text
  import opened CacheExchange
  import opened RelayService
  import opened CacheSyncWorker
  import opened RelayNetwork

  function Power(b: nat, k: nat): (p: nat)
    ensures b > 0 ==> p > 0
  {
    if k == 0 then 1 else b * Power(b, k - 1)
  }

  /** A record with h hops left can still cause at most this many cursor moves per puller. */
  function Weight(n: nat, hopCount: nat, maxHops: nat): (w: nat)
    ensures w > 0
  {
    Power(n + 1, if hopCount < maxHops then maxHops - hopCount else 0)
  }

  /** The weight of what a puller at cursor `c` has still before it in `log`. */
  function Ahead(n: nat, log: seq<Record>, c: nat): nat {
    if log == [] then 0
    else (if log[0].cursor > c then Weight(n, log[0].hopCount, log[0].maxHops) else 0) + Ahead(n, log[1..], c)
  }

  function EntriesWeight(n: nat, entries: seq<Entry>): nat {
    if entries == [] then 0
    else Weight(n, entries[0].hopCount, entries[0].maxHops) + EntriesWeight(n, entries[1..])
  }

  /** What a page in flight may still cause: n times the weight of the entries left, what lies past it, and the move of
      the cursor itself. */
  function Owed(n: nat, log: seq<Record>, cursor: nat, f: Flight): nat {
    n * EntriesWeight(n, f.left) + Ahead(n, log, Max(cursor, f.nextCursor)) + if f.nextCursor > cursor then 1 else 0
  }

  /** What a worker has before it at one peer. While nothing of its page has been accepted, the turn may still fail and
      start again from the cursor. */
  function Due(n: nat, log: seq<Record>, feed: Feed): nat {
    if feed.flight.None? then Ahead(n, log, feed.cursor)
    else if feed.flight.value.logged then Owed(n, log, feed.cursor, feed.flight.value)
    else Max(Ahead(n, log, feed.cursor), Owed(n, log, feed.cursor, feed.flight.value))
  }

  /** What a puller, with the feeds `row`, has before it over the first `k` peers. */
  function RowLoad(n: nat, nodes: seq<Node>, row: seq<Feed>, k: nat): nat
    requires k <= |nodes| && k <= |row|
  {
    if k == 0 then 0 else RowLoad(n, nodes, row, k - 1) + Due(n, nodes[k - 1].log, row[k - 1])
  }

  function LoadUpTo(nodes: seq<Node>, feeds: seq<seq<Feed>>, k: nat): nat
    requires k <= |feeds| && forall i :: 0 <= i < |feeds| ==> |feeds[i]| == |nodes|
  {
    if k == 0 then 0
    else LoadUpTo(nodes, feeds, k - 1) + RowLoad(|nodes|, nodes, feeds[k - 1], |nodes|)
  }

  /** The sum, over every record and every puller that has not passed it, of (n+1)^(hops left), pages in flight
      included. */
  function Load(cs: seq<Config>, s: Net): nat
    requires Shaped(cs, s)
  {
    LoadUpTo(s.nodes, s.feeds, |cs|)
  }

  // ------------------------------------------------------------------ one log

  lemma {:induction false} AheadAppend(n: nat, a: seq<Record>, b: seq<Record>, c: nat)
    ensures Ahead(n, a + b, c) == Ahead(n, a, c) + Ahead(n, b, c)
  {
    if a == [] {
      assert a + b == b;
    } else {
      assert (a + b)[1..] == a[1..] + b;
      AheadAppend(n, a[1..], b, c);
    }
  }

  lemma AheadNewest(n: nat, log: seq<Record>, max: nat, c: nat)
    ensures Ahead(n, Newest(log, max), c) <= Ahead(n, log, c)
  {
    if |log| > max {
      var k := |log| - max;
      AheadAppend(n, log[..k], log[k..], c);
      assert log[..k] + log[k..] == log;
    }
  }

  lemma {:induction false} AheadAllAbove(n: nat, log: seq<Record>, a: nat, b: nat)
    requires Above(log, a) && Above(log, b)
    ensures Ahead(n, log, a) == Ahead(n, log, b)
  {
    if log != [] { AheadAllAbove(n, log[1..], a, b); }
  }

  /** A hop costs a factor n+1. */
  lemma WeightStep(n: nat, r: Record)
    requires r.hopCount < r.maxHops
    ensures Weight(n, r.hopCount, r.maxHops) == (n + 1) * Weight(n, r.hopCount + 1, r.maxHops)
  {}

  /** A page takes at least n+1 times its entries' weight off what lies ahead, and something if its
      cursor moved. */
  lemma {:induction false} ScanLowers(n: nat, records: seq<Record>, q: Query, left: nat, next: nat)
    requires left > 0 && CursorsAscend(records) && 0 <= q.after <= next
    requires Above(records, next) || next == q.after
    ensures var p := Scan(records, q, left, next);
            && next <= p.nextCursor
            && Ahead(n, records, next) >= (n + 1) * EntriesWeight(n, p.entries) + Ahead(n, records, p.nextCursor)
            && (p.nextCursor > next ==> Ahead(n, records, next) > Ahead(n, records, p.nextCursor))
  {
    hide Weight;
    if records != [] {
      var r, rest := records[0], records[1..];
      TailAscends(records);
      if r.cursor <= q.after {
        ScanLowers(n, rest, q, left, next);
      } else {
        AheadAllAbove(n, rest, next, r.cursor);
        if !Eligible(r, q) {
          ScanLowers(n, rest, q, left, r.cursor);
        } else {
          WeightStep(n, r);
          if left > 1 {
            ScanLowers(n, rest, q, left - 1, r.cursor);
          }
          ScanTakes(n, records, q, left, r);
        }
      }
    }
  }

  /** The entries of a page that starts with an eligible record. */
  lemma ScanTakes(n: nat, records: seq<Record>, q: Query, left: nat, r: Record)
    requires left > 0 && records != [] && r == records[0] && r.cursor > q.after && Eligible(r, q)
    ensures var w, p := Weight(n, r.hopCount + 1, r.maxHops), Scan(records, q, left, r.cursor);
            var tail := if left == 1 then [] else Scan(records[1..], q, left - 1, r.cursor).entries;
            p.entries == [ToEntry(r)] + tail
            && (n + 1) * EntriesWeight(n, p.entries) == (n + 1) * w + (n + 1) * EntriesWeight(n, tail)
  {
    hide Weight, Eligible;
    var tail := if left == 1 then [] else Scan(records[1..], q, left - 1, r.cursor).entries;
    assert ([ToEntry(r)] + tail)[1..] == tail;
    Distribute(n + 1, Weight(n, r.hopCount + 1, r.maxHops), EntriesWeight(n, tail));
  }

  lemma Distribute(a: nat, x: nat, y: nat)
    ensures a * (x + y) == a * x + a * y
  {}

  // ----------------------------------------------------------------- one push

  /** Pushing an entry puts at most its own weight before any puller, and nothing if it is not accepted. */
  lemma PushOneRaises(n: nat, c: Config, denied: set<string>, node: Node, e: Entry, k: nat)
    ensures Ahead(n, PushEntry(c, denied, node, ToWire(e)).0.log, k)
         <= Ahead(n, node.log, k) + Weight(n, e.hopCount, e.maxHops)
    ensures !PushEntry(c, denied, node, ToWire(e)).1.Accepted? ==>
              PushEntry(c, denied, node, ToWire(e)).0.log == node.log
  {
    hide Weight, ParseIncoming, Classify, Find, ToWire, ValidRoom, ValidTopic;
    ParseWireHops(e, c.maxHops);
    var (m, o) := PushEntry(c, denied, node, ToWire(e));
    if o.Accepted? {
      var x := ParseIncoming(ToWire(e), c.maxHops).entry;
      var r := Record(node.cursor + 1, x.envelope, x.origin, x.hopCount, x.maxHops);
      assert m.log == Newest(node.log + [r], c.maxRecords);
      AheadNewest(n, node.log + [r], c.maxRecords, k);
      AheadAppend(n, node.log, [r], k);
    }
  }

  // -------------------------------------------------------------- the network

  lemma DueRaised(n: nat, log: seq<Record>, more: seq<Record>, feed: Feed, extra: nat)
    requires forall c: nat :: Ahead(n, more, c) <= Ahead(n, log, c) + extra
    ensures Due(n, more, feed) <= Due(n, log, feed) + extra
  {
    hide Ahead, EntriesWeight;
    assert Ahead(n, more, feed.cursor) <= Ahead(n, log, feed.cursor) + extra;
    if feed.flight.Some? {
      var c := Max(feed.cursor, feed.flight.value.nextCursor);
      assert Ahead(n, more, c) <= Ahead(n, log, c) + extra;
    }
  }

  lemma {:induction false} RowRaised(n: nat, nodes: seq<Node>, i: nat, m: Node, row: seq<Feed>, extra: nat, k: nat)
    requires k <= |nodes| && k <= |row| && i < |nodes|
    requires forall feed :: Due(n, m.log, feed) <= Due(n, nodes[i].log, feed) + extra
    ensures RowLoad(n, nodes[i := m], row, k) <= RowLoad(n, nodes, row, k) + if i < k then extra else 0
  {
    hide Due;
    if k > 0 { RowRaised(n, nodes, i, m, row, extra, k - 1); }
  }

  lemma {:induction false} AllRaised(nodes: seq<Node>, feeds: seq<seq<Feed>>, i: nat, m: Node, extra: nat, k: nat)
    requires k <= |feeds| && i < |nodes| && forall x :: 0 <= x < |feeds| ==> |feeds[x]| == |nodes|
    requires forall feed :: Due(|nodes|, m.log, feed) <= Due(|nodes|, nodes[i].log, feed) + extra
    ensures LoadUpTo(nodes[i := m], feeds, k) <= LoadUpTo(nodes, feeds, k) + k * extra
  {
    hide Due, RowLoad;
    if k > 0 {
      AllRaised(nodes, feeds, i, m, extra, k - 1);
      RowRaised(|nodes|, nodes, i, m, feeds[k - 1], extra, |nodes|);
      assert k * extra == (k - 1) * extra + extra;
    }
  }

  lemma {:induction false} RowChanged(n: nat, nodes: seq<Node>, row: seq<Feed>, j: nat, feed: Feed, k: nat)
    requires k <= |nodes| && |row| == |nodes| && j < |nodes|
    ensures RowLoad(n, nodes, row[j := feed], k) + (if j < k then Due(n, nodes[j].log, row[j]) else 0)
         == RowLoad(n, nodes, row, k) + (if j < k then Due(n, nodes[j].log, feed) else 0)
  {
    hide Due;
    if k > 0 { RowChanged(n, nodes, row, j, feed, k - 1); }
  }

  lemma {:induction false} OneChanged(nodes: seq<Node>, feeds: seq<seq<Feed>>, i: nat, j: nat, feed: Feed, k: nat)
    requires k <= |feeds| && i < |feeds| && j < |nodes|
    requires forall x :: 0 <= x < |feeds| ==> |feeds[x]| == |nodes|
    ensures LoadUpTo(nodes, WithFeed(feeds, i, j, feed), k)
         + (if i < k then Due(|nodes|, nodes[j].log, feeds[i][j]) else 0)
         == LoadUpTo(nodes, feeds, k) + (if i < k then Due(|nodes|, nodes[j].log, feed) else 0)
  {
    hide Due, RowLoad;
    if k > 0 {
      OneChanged(nodes, feeds, i, j, feed, k - 1);
      RowChanged(|nodes|, nodes, feeds[i], j, feed, |nodes|);
    }
  }

  predicate LogsAscend(s: Net) {
    forall i :: 0 <= i < |s.nodes| ==> CursorsAscend(s.nodes[i].log)
  }

  /** The answer moved its cursor. */
  predicate Advances(cs: seq<Config>, s: Net, step: Step)
    requires Shaped(cs, s) && StepOk(cs, step)
  {
    && step.Settle?
    && var feed := s.feeds[step.puller][step.peer]; AfterAnswer(feed, step.answered).cursor > feed.cursor
  }

  predicate Begun(feed: Feed) { feed.flight.Some? && feed.flight.value.logged }

  /** No publish, and no turn that fails after an entry of its page has been accepted: then the next entry is not of a
      denied room, and the turn is answered. */
  predicate Clean(cs: seq<Config>, s: Net, step: Step)
    requires Shaped(cs, s) && StepOk(cs, step)
  {
    match step
    case Publish(_, _, _, _) => false
    case Pull(_, _, _) => true
    case PushNext(i, j, denied) =>
      var feed := s.feeds[i][j];
      Begun(feed) && HasNext(feed) ==> feed.flight.value.left[0].envelope.room !in denied
    case Settle(i, j, answered) => Begun(s.feeds[i][j]) ==> answered
  }

  /** A page just pulled owes no more than what lay ahead. */
  lemma PulledOwes(n: nat, log: seq<Record>, q: Query)
    requires CursorsAscend(log) && q.after >= 0
    ensures var page := Select(log, q);
            Owed(n, log, q.after, Flight([], page.entries, page.nextCursor, false)) <= Ahead(n, log, q.after)
  {
    hide Scan, Ahead, Weight;
    var page := Select(log, q);
    ScanLowers(n, log, q, Max(1, q.limit), q.after);
    OneMoreTime(n, EntriesWeight(n, page.entries));
    assert page.entries == [] || EntriesWeight(n, page.entries) > 0;
  }

  lemma OneMoreTime(n: nat, w: nat)
    ensures (n + 1) * w == n * w + w && n * 0 == 0
  {}

  /** A step on one page: what it may put before each of the n workers is paid by what its own has less before it. */
  lemma Balance(nodes: seq<Node>, feeds: seq<seq<Feed>>, i: nat, j: nat, m: Node, feed: Feed, extra: nat, more: nat)
    requires i < |nodes| && j < |nodes| && |feeds| == |nodes| && forall x :: 0 <= x < |feeds| ==> |feeds[x]| == |nodes|
    requires forall c: nat :: Ahead(|nodes|, m.log, c) <= Ahead(|nodes|, nodes[i].log, c) + extra
    requires Due(|nodes|, nodes[j].log, feed) + |nodes| * extra + more <= Due(|nodes|, nodes[j].log, feeds[i][j])
    ensures LoadUpTo(nodes[i := m], WithFeed(feeds, i, j, feed), |nodes|) + more <= LoadUpTo(nodes, feeds, |nodes|)
  {
    hide Ahead, Due, LoadUpTo;
    OneChanged(nodes, feeds, i, j, feed, |nodes|);
    forall any: Feed ensures Due(|nodes|, m.log, any) <= Due(|nodes|, nodes[i].log, any) + extra {
      DueRaised(|nodes|, nodes[i].log, m.log, any, extra);
    }
    AllRaised(nodes, WithFeed(feeds, i, j, feed), i, m, extra, |nodes|);
  }

  /** A pull leaves the load as it is. */
  lemma PullKeepsLoad(cs: seq<Config>, s: Net, step: Step)
    requires Shaped(cs, s) && LogsAscend(s) && StepOk(cs, step) && step.Pull?
    ensures Load(cs, Apply(cs, s, step)) == Load(cs, s)
  {
    hide Ahead, Owed, Select, LoadUpTo, CursorsAscend;
    var i, j := step.puller, step.peer;
    var feed := s.feeds[i][j];
    if feed.flight.None? {
      var page := PulledPage(cs, s, i, j, step.limit);
      PulledOwes(|cs|, s.nodes[j].log, PullQuery(cs[i], feed.cursor, step.limit));
      var flight := Flight([], page.entries, page.nextCursor, false);
      OneChanged(s.nodes, s.feeds, i, j, Feed(feed.cursor, Some(flight)), |cs|);
    }
  }

  /** Pushing an entry takes n times its weight off what its worker has before it, if it is accepted. */
  lemma EntryPays(n: nat, log: seq<Record>, feed: Feed, accepted: bool)
    requires HasNext(feed)
    ensures var f := feed.flight.value;
      var rest := Flight(f.pushed + [f.left[0]], f.left[1..], f.nextCursor, f.logged || accepted);
      var after := Feed(feed.cursor, Some(rest));
      var extra := if accepted then Weight(n, f.left[0].hopCount, f.left[0].maxHops) else 0;
      Due(n, log, after) + n * extra <= Due(n, log, feed)
  {
    hide Ahead, Weight;
    var f := feed.flight.value;
    Distribute(n, Weight(n, f.left[0].hopCount, f.left[0].maxHops), EntriesWeight(n, f.left[1..]));
    OneMoreTime(n, 0);
  }

  /** A turn that fails before anything was accepted gives back the page. */
  lemma NothingPaid(n: nat, log: seq<Record>, feed: Feed)
    requires !Begun(feed)
    ensures Due(n, log, Feed(feed.cursor, None)) <= Due(n, log, feed)
  {
    hide Ahead, Owed;
  }

  /** A pulled entry can be read, so its push fails only for a denied room. */
  lemma FailsOnlyIfDenied(c: Config, denied: set<string>, n: Node, e: Entry)
    requires EntryOk(e)
    ensures PushEntry(c, denied, n, ToWire(e)).1.Aborted? ==> e.envelope.room in denied
  {
    hide ParseIncoming, ToWire, ValidRoom, ValidTopic, Accept, Find, Classify;
    ParseWire(e, c.maxHops);
  }

  lemma EntryLowersLoad(cs: seq<Config>, s: Net, step: Step)
    requires Provenance(cs, s) && StepOk(cs, step) && step.PushNext? && Clean(cs, s, step)
    ensures Load(cs, Apply(cs, s, step)) <= Load(cs, s)
  {
    hide Due, LoadUpTo, PushEntry, Traced, Sourced, NodeOk, EntryOk, Weight, Ahead;
    var i, j := step.puller, step.peer;
    var feed := s.feeds[i][j];
    if HasNext(feed) {
      NextOk(cs, s, i, j);
      var e := feed.flight.value.left[0];
      FailsOnlyIfDenied(cs[i], step.denied, s.nodes[i], e);
      var (m, o) := PushEntry(cs[i], step.denied, s.nodes[i], ToWire(e));
      var extra := if o.Accepted? then Weight(|cs|, e.hopCount, e.maxHops) else 0;
      forall c: nat ensures Ahead(|cs|, m.log, c) <= Ahead(|cs|, s.nodes[i].log, c) + extra {
        PushOneRaises(|cs|, cs[i], step.denied, s.nodes[i], e, c);
      }
      if o.Aborted? {
        NothingPaid(|cs|, s.nodes[j].log, feed);
      } else {
        EntryPays(|cs|, s.nodes[j].log, feed, o.Accepted?);
      }
      OneMoreTime(|cs|, 0);
      Balance(s.nodes, s.feeds, i, j, m, AfterEntry(cs[i], step.denied, s.nodes[i], feed).1, extra, 0);
    }
  }

  /** The heart of the matter: an answer that moves a cursor lowers the load, and nothing that precedes it raises it. */
  lemma SettleLowersLoad(cs: seq<Config>, s: Net, step: Step)
    requires Shaped(cs, s) && StepOk(cs, step) && step.Settle? && Clean(cs, s, step)
    ensures Load(cs, Apply(cs, s, step)) + (if Advances(cs, s, step) then 1 else 0) <= Load(cs, s)
  {
    hide LoadUpTo, Ahead;
    var i, j := step.puller, step.peer;
    var feed := s.feeds[i][j];
    var after := AfterAnswer(feed, step.answered);
    if !step.answered && !Begun(feed) { NothingPaid(|cs|, s.nodes[j].log, feed); }
    AnswerPays(|cs|, s.nodes[j].log, feed);
    OneMoreTime(|cs|, 0);
    Balance(s.nodes, s.feeds, i, j, s.nodes[i], after, 0, if Advances(cs, s, step) then 1 else 0);
    assert s.nodes[i := s.nodes[i]] == s.nodes;
  }

  lemma AnswerPays(n: nat, log: seq<Record>, feed: Feed)
    ensures var after := AfterAnswer(feed, true);
            Due(n, log, after) + (if after.cursor > feed.cursor then 1 else 0) <= Due(n, log, feed)
  {
    hide Ahead;
    OneMoreTime(n, 0);
  }

  // --------------------------------------------------------------------- runs

  function Moves(cs: seq<Config>, s: Net, steps: seq<Step>): nat
    requires Shaped(cs, s) && forall k :: 0 <= k < |steps| ==> StepOk(cs, steps[k])
  {
    if steps == [] then 0
    else
      var init := steps[..|steps| - 1];
      Moves(cs, s, init) + if Advances(cs, Run(cs, s, init), steps[|steps| - 1]) then 1 else 0
  }

  predicate AllClean(cs: seq<Config>, s: Net, steps: seq<Step>)
    requires Shaped(cs, s) && forall k :: 0 <= k < |steps| ==> StepOk(cs, steps[k])
  {
    forall k :: 0 <= k < |steps| ==> Clean(cs, Run(cs, s, steps[..k]), steps[k])
  }

  lemma CleanPrefix(cs: seq<Config>, s: Net, steps: seq<Step>)
    requires Shaped(cs, s) && steps != [] && forall k :: 0 <= k < |steps| ==> StepOk(cs, steps[k])
    requires AllClean(cs, s, steps)
    ensures AllClean(cs, s, steps[..|steps| - 1])
    ensures Clean(cs, Run(cs, s, steps[..|steps| - 1]), steps[|steps| - 1])
  {
    hide Clean, Run, Shaped;
    var init := steps[..|steps| - 1];
    forall k | 0 <= k < |init| ensures Clean(cs, Run(cs, s, init[..k]), init[k]) {
      assert init[..k] == steps[..k];
    }
  }

  /** Quiescence: from any reachable network, however many pulls, entries and answers follow, interleaved in any way and
      with any page sizes, the number of turns that move a cursor never exceeds the load they started from. */
  lemma {:induction false} MovesBounded(cs: seq<Config>, s: Net, steps: seq<Step>)
    requires Configured(cs) && Provenance(cs, s)
    requires (forall k :: 0 <= k < |steps| ==> StepOk(cs, steps[k])) && AllClean(cs, s, steps)
    ensures Moves(cs, s, steps) + Load(cs, Run(cs, s, steps)) <= Load(cs, s)
    decreases |steps|
  {
    assert Shaped(cs, s);
    hide Load, Provenance, AllClean, Clean, Advances, Shaped, Apply;
    if steps != [] {
      var init, step := steps[..|steps| - 1], steps[|steps| - 1];
      CleanPrefix(cs, s, steps);
      MovesBounded(cs, s, init);
      RunKeepsProvenance(cs, s, init);
      var last := Run(cs, s, init);
      ProvenanceAscends(cs, last);
      StepLowersLoad(cs, last, step);
    }
  }

  /** A pull, an entry pushed where no room is denied, or an answer that arrives. */
  predicate Open(step: Step) {
    step.Pull? || (step.PushNext? && step.denied == {}) || (step.Settle? && step.answered)
  }

  /** Such steps are clean whatever the network holds, so their number that move a cursor is bounded by its load. */
  lemma OpenMovesBounded(cs: seq<Config>, s: Net, steps: seq<Step>)
    requires Configured(cs) && Provenance(cs, s)
    requires forall k :: 0 <= k < |steps| ==> StepOk(cs, steps[k]) && Open(steps[k])
    ensures Moves(cs, s, steps) <= Load(cs, s)
  {
    hide Load, Moves, Run, Provenance;
    assert Shaped(cs, s) by { ProvenanceShaped(cs, s); }
    forall k | 0 <= k < |steps| ensures Clean(cs, Run(cs, s, steps[..k]), steps[k]) {
      assert Open(steps[k]);
    }
    MovesBounded(cs, s, steps);
  }

  lemma StepLowersLoad(cs: seq<Config>, s: Net, step: Step)
    requires Shaped(cs, s) && Provenance(cs, s) && LogsAscend(s) && StepOk(cs, step) && Clean(cs, s, step)
    ensures Load(cs, Apply(cs, s, step)) + (if Advances(cs, s, step) then 1 else 0) <= Load(cs, s)
  {
    hide Load, LogsAscend, Apply, Provenance;
    match step
    case Pull(_, _, _) => PullKeepsLoad(cs, s, step);
    case PushNext(_, _, _) => EntryLowersLoad(cs, s, step);
    case Settle(_, _, _) => SettleLowersLoad(cs, s, step);
  }

  lemma ProvenanceAscends(cs: seq<Config>, s: Net)
    requires Provenance(cs, s)
    ensures LogsAscend(s)
  {}
}
