/** Why quiescence asks for clean pushes: a push that fails partway, again and again, can keep a network busy for ever.
    Relay "a" has room for one message per room. It pulls three messages of relay "b", two for one room and one for a
    room it denies. Each push accepts the first two, each of which drives the other out, and fails at the third, so the
    next push accepts them again; and each time the cursor of "b" at "a" moves on. */
module Restless {
  import opened Options
  import opened Sequences
  import opened Json
  import opened Text
  import opened CacheExchange
  import opened RelayService
  import opened CacheSyncWorker
  import opened RelayNetwork
  import opened Quiescence

  const A := Config("a", 1, 2, 2)
  const B := Config("b", 1, 3, 2)
  const PAIR := [A, B]

  function Letter(room: string, id: string): Envelope {
    Envelope(room, id, "s", "t", Null, None)
  }

  function Post(room: string, id: string): Step {
    Publish(1, {}, PublishRequest(room, "s", "t", id, "", Null), id)
  }

  const SETUP := [Post("r", "1"), Post("r", "2"), Post("x", "3")]

  const RECORDS := [Record(1, Letter("r", "1"), "b", 0, 2), Record(2, Letter("r", "2"), "b", 0, 2),
                    Record(3, Letter("x", "3"), "b", 0, 2)]

  const FIRST := Entry(1, Letter("r", "1"), "b", 1, 2)
  const SECOND := Entry(2, Letter("r", "2"), "b", 1, 2)
  const THIRD := Entry(3, Letter("x", "3"), "b", 1, 2)

  const PAGE := Page([FIRST, SECOND, THIRD], 3)

  lemma Words()
    ensures Name("a") && Name("b") && Name("s") && Name("t") && Name("1") && Name("2") && Name("3")
    ensures ValidRoom("r") && ValidRoom("x") && ValidTopic("t") && Trim("") == "" && Name("r") && Name("x")
    ensures Configured(PAIR) && EntryOk(FIRST) && EntryOk(SECOND) && EntryOk(THIRD)
  {}

  // -------------------------------------------------------------------- setup

  lemma PostStored(s: Net, room: string, id: string)
    requires Shaped(PAIR, s) && Name(id) && ValidRoom(room) && Name(room) && !HasId(Messages(s.nodes[1], room), id)
    ensures Apply(PAIR, s, Post(room, id)).nodes == s.nodes[1 := Accept(B, s.nodes[1], Letter(room, id), "b", 0, 2)]
    ensures Apply(PAIR, s, Post(room, id)).feeds == s.feeds
  {
    Words();
    RequestedLetter(room, id);
    hide ValidRoom, ValidTopic, Name, Accept, Requested, HasId;
  }

  lemma RequestedLetter(room: string, id: string)
    requires Name(room) && Name(id)
    ensures Requested(PublishRequest(room, "s", "t", id, "", Null), id) == Letter(room, id)
  {
    Words();
  }

  function Start(): (s: Net)
    ensures Shaped(PAIR, s)
  {
    Words();
    Run(PAIR, Initial(2), SETUP)
  }

  /** After the three publishes the log of "b" holds them, and nothing has been pulled. */
  lemma SetupDone()
    ensures var s := Start();
      && s.nodes == [EMPTY_NODE, s.nodes[1]] && s.nodes[1].log == RECORDS
      && s.feeds == Initial(2).feeds
  {
    Words();
    hide Apply, ValidRoom, ValidTopic, Name;
    var s0 := Initial(2);
    var s1 := Apply(PAIR, s0, SETUP[0]);
    var s2 := Apply(PAIR, s1, SETUP[1]);
    var s3 := Apply(PAIR, s2, SETUP[2]);
    assert SETUP[..2][..1][..0] == [] && SETUP[..2][..1] == [SETUP[0]] && SETUP[..2] == [SETUP[0], SETUP[1]];
    assert Run(PAIR, s0, SETUP[..2][..1]) == s1;
    assert Run(PAIR, s0, SETUP[..2]) == s2;
    assert Run(PAIR, s0, SETUP) == s3;
    PostStored(s0, "r", "1");
    PostStored(s1, "r", "2");
    PostStored(s2, "x", "3");
  }

  // ---------------------------------------------------------------- the failing push

  lemma PushFresh(c: Config, denied: set<string>, n: Node, e: Entry)
    requires EntryOk(e) && e.envelope.room !in denied && e.origin != c.nodeId && e.hopCount < e.maxHops
    requires !HasId(Messages(n, e.envelope.room), e.envelope.id)
    ensures PushEntry(c, denied, n, ToWire(e)) == (Accept(c, n, e.envelope, e.origin, e.hopCount, e.maxHops), Accepted)
  {
    hide ParseIncoming, ToWire, ValidRoom, ValidTopic, Accept, Find;
    ParseWire(e, c.maxHops);
  }

  lemma PushDenied(c: Config, denied: set<string>, n: Node, e: Entry)
    requires EntryOk(e) && e.envelope.room in denied
    ensures PushEntry(c, denied, n, ToWire(e)) == (n, Aborted(ForbiddenRoom(e.envelope.room)))
  {
    hide ParseIncoming, ToWire, ValidRoom, ValidTopic, Accept, Find;
    ParseWire(e, c.maxHops);
  }

  /** Each of the two messages drives the other out. */
  lemma BothAccepted(n: Node)
    ensures var m := Accept(A, n, FIRST.envelope, "b", 1, 2);
      var k := Accept(A, m, SECOND.envelope, "b", 1, 2);
      && !HasId(Messages(m, "r"), "2") && Messages(k, "r") == [SECOND.envelope] && k.cursor == n.cursor + 2
      && k.log == [Record(n.cursor + 1, FIRST.envelope, "b", 1, 2), Record(n.cursor + 2, SECOND.envelope, "b", 1, 2)]
  {
    var m := Accept(A, n, FIRST.envelope, "b", 1, 2);
    assert Messages(m, "r") == [FIRST.envelope];
  }

  /** The first two entries are accepted, the third ends the push. */
  lemma PushFails(n: Node, cursor: nat)
    requires !HasId(Messages(n, "r"), "1")
    ensures var feed := Feed(cursor, Some(Flight([], PAGE.entries, PAGE.nextCursor, false)));
      var (m, first) := AfterEntry(A, {"x"}, n, feed);
      && HasNext(first)
      && var (k, second) := AfterEntry(A, {"x"}, m, first);
         && HasNext(second)
         && AfterEntry(A, {"x"}, k, second) == (k, Feed(cursor, None))
         && k.cursor == n.cursor + 2 && Messages(k, "r") == [SECOND.envelope]
         && k.log == [Record(n.cursor + 1, FIRST.envelope, "b", 1, 2), Record(n.cursor + 2, SECOND.envelope, "b", 1, 2)]
  {
    Words();
    hide PushEntry, EntryOk, ValidRoom, ValidTopic, Name, Accept, HasId, Messages, Configured;
    BothAccepted(n);
    var m := Accept(A, n, FIRST.envelope, "b", 1, 2);
    var k := Accept(A, m, SECOND.envelope, "b", 1, 2);
    PushFresh(A, {"x"}, n, FIRST);
    PushFresh(A, {"x"}, m, SECOND);
    PushDenied(A, {"x"}, k, THIRD);
    assert PAGE.entries[1..] == [SECOND, THIRD] && [SECOND, THIRD][1..] == [THIRD];
  }

  // -------------------------------------------------------------------- cycles

  const NEXT := PushNext(0, 1, {"x"})

  /** Relay "a" pulls from "b" and pushes until it fails; "b" pulls from "a" and gets its answer. */
  const CYCLE := [Pull(0, 1, 3), NEXT, NEXT, NEXT, Pull(1, 0, 3), Settle(1, 0, true)]

  /** Relay "a" still has everything before it, and does not hold the first message. */
  ghost predicate Stuck(s: Net) {
    && Shaped(PAIR, s) && s.nodes[1].log == RECORDS && s.feeds[0][1] == Feed(0, None)
    && !HasId(Messages(s.nodes[0], "r"), "1")
    && s.feeds[1][0].flight.None? && s.feeds[1][0].cursor <= s.nodes[0].cursor
  }

  lemma PageOfRecords()
    ensures Select(RECORDS, PullQuery(A, 0, 3)) == PAGE
  {
    var q := PullQuery(A, 0, 3);
    assert RECORDS[1..][1..] == [RECORDS[2]];
    assert RECORDS[1..] == [RECORDS[1], RECORDS[2]] && RECORDS[1..][1..][0] == RECORDS[2];
    assert Scan([RECORDS[2]], q, 1, 2) == Page([THIRD], 3);
    assert Scan([RECORDS[1], RECORDS[2]], q, 2, 1) == Page([SECOND] + [THIRD], 3);
  }

  /** What "b" pulls from "a" is all its own, so its cursor moves on past it. */
  lemma OwnRecords(after: nat, c: nat)
    requires after <= c
    ensures var log := [Record(c + 1, FIRST.envelope, "b", 1, 2), Record(c + 2, SECOND.envelope, "b", 1, 2)];
            Select(log, PullQuery(B, after, 3)) == Page([], c + 2)
  {
    var q := PullQuery(B, after, 3);
    var log := [Record(c + 1, FIRST.envelope, "b", 1, 2), Record(c + 2, SECOND.envelope, "b", 1, 2)];
    assert log[1..] == [log[1]] && log[1..][1..] == [];
    assert !Eligible(log[0], q) && !Eligible(log[1], q);
    assert Scan([log[1]], q, 3, c + 1) == Page([], c + 2);
  }

  function Steps(s: Net, k: nat): (t: Net)
    requires Shaped(PAIR, s) && k <= |CYCLE|
    ensures Shaped(PAIR, t)
  {
    if k == 0 then s else Apply(PAIR, Steps(s, k - 1), CYCLE[k - 1])
  }

  lemma AtStep(s: Net, k: nat)
    requires Shaped(PAIR, s) && k < |CYCLE|
    ensures Steps(s, 0) == s && Steps(s, k + 1) == Apply(PAIR, Steps(s, k), CYCLE[k])
    ensures StepOk(PAIR, CYCLE[k]) && !CYCLE[k].Publish? && (1 <= k < 4 ==> CYCLE[k] == NEXT)
  {
    hide Apply;
  }

  /** Relay "a" pulls and its push fails at the third entry. */
  lemma FailedTurn(s: Net)
    requires Stuck(s)
    ensures var t := Steps(s, 4);
      && t.nodes[1] == s.nodes[1] && t.feeds == s.feeds && t.nodes[0].cursor == s.nodes[0].cursor + 2
      && Messages(t.nodes[0], "r") == [SECOND.envelope]
      && t.nodes[0].log == [Record(s.nodes[0].cursor + 1, FIRST.envelope, "b", 1, 2),
                            Record(s.nodes[0].cursor + 2, SECOND.envelope, "b", 1, 2)]
  {
    hide Select, HasId, AfterEntry, Messages, Apply, Steps;
    var flying := Feed(0, Some(Flight([], PAGE.entries, PAGE.nextCursor, false)));
    AtStep(s, 0);
    PulledFeed(s);
    PushFails(s.nodes[0], 0);
    assert Steps(s, 1).feeds[0][1] == flying && Steps(s, 1).nodes[0] == s.nodes[0];
    AtStep(s, 1);
    NextEntry(Steps(s, 1));
    AtStep(s, 2);
    NextEntry(Steps(s, 2));
    AtStep(s, 3);
    NextEntry(Steps(s, 3));
    var t := Steps(s, 4);
    assert t.feeds[0] == s.feeds[0] && t.feeds[1] == s.feeds[1];
  }

  lemma PulledFeed(s: Net)
    requires Shaped(PAIR, s) && s.nodes[1].log == RECORDS && s.feeds[0][1] == Feed(0, None)
    ensures var t := Apply(PAIR, s, CYCLE[0]);
      && t.nodes == s.nodes
      && t.feeds == WithFeed(s.feeds, 0, 1, Feed(0, Some(Flight([], PAGE.entries, PAGE.nextCursor, false))))
  {
    hide Select;
    PageOfRecords();
  }

  lemma NextEntry(s: Net)
    requires Shaped(PAIR, s) && HasNext(s.feeds[0][1])
    ensures var (n, feed) := AfterEntry(A, {"x"}, s.nodes[0], s.feeds[0][1]);
      var t := Apply(PAIR, s, NEXT); t.nodes == s.nodes[0 := n] && t.feeds == WithFeed(s.feeds, 0, 1, feed)
  {
    hide AfterEntry;
  }

  /** Relay "b" pulls, and its cursor moves. */
  lemma MovingTurn(t: Net)
    requires Shaped(PAIR, t) && t.feeds[1][0].flight.None? && t.nodes[0].cursor >= 2
    requires t.feeds[1][0].cursor <= t.nodes[0].cursor - 2
    requires t.nodes[0].log == [Record(t.nodes[0].cursor - 1, FIRST.envelope, "b", 1, 2),
                                Record(t.nodes[0].cursor, SECOND.envelope, "b", 1, 2)]
    ensures var pulled := Apply(PAIR, t, CYCLE[4]);
      var u := Apply(PAIR, pulled, CYCLE[5]);
      && Advances(PAIR, pulled, CYCLE[5]) && u.nodes == t.nodes && u.feeds[0] == t.feeds[0]
      && u.feeds[1][0] == Feed(t.nodes[0].cursor, None)
  {
    hide Select;
    OwnRecords(t.feeds[1][0].cursor, t.nodes[0].cursor - 2);
    var pulled := Apply(PAIR, t, CYCLE[4]);
    assert pulled.feeds[1][0].flight == Some(Flight([], [], t.nodes[0].cursor, false));
  }

  lemma CycleStaysStuck(s: Net)
    requires Stuck(s)
    ensures Stuck(Steps(s, 6)) && Advances(PAIR, Steps(s, 5), CYCLE[5])
  {
    hide Apply, Advances, Steps;
    FailedTurn(s);
    AtStep(s, 4);
    AtStep(s, 5);
    MovingTurn(Steps(s, 4));
    assert SECOND.envelope.id != "1";
  }

  // ---------------------------------------------------------------------- runs

  predicate Turns(steps: seq<Step>) {
    forall i :: 0 <= i < |steps| ==> StepOk(PAIR, steps[i]) && !steps[i].Publish?
  }

  lemma OneStepMore(s: Net, steps: seq<Step>, step: Step)
    requires Shaped(PAIR, s) && Turns(steps) && StepOk(PAIR, step) && !step.Publish?
    ensures Turns(steps + [step])
    ensures Run(PAIR, s, steps + [step]) == Apply(PAIR, Run(PAIR, s, steps), step)
    ensures Moves(PAIR, s, steps + [step])
         == Moves(PAIR, s, steps) + if Advances(PAIR, Run(PAIR, s, steps), step) then 1 else 0
  {
    hide Apply, Advances;
    assert (steps + [step])[..|steps|] == steps;
  }

  /** From this reachable network, without any publish, cursors can be moved any number of times. */
  lemma {:induction false} NeverAtRest(k: nat)
    ensures exists steps ::
              Turns(steps) && Moves(PAIR, Start(), steps) >= k
              && Stuck(Run(PAIR, Start(), steps))
  {
    hide Apply, Advances, Stuck, StepOk;
    var s := Start();
    if k == 0 {
      StuckAtStart();
      assert Turns([]) && Moves(PAIR, s, []) >= 0;
    } else {
      NeverAtRest(k - 1);
      var steps :| Turns(steps) && Moves(PAIR, s, steps) >= k - 1 && Stuck(Run(PAIR, s, steps));
      var _ := CycleMore(s, steps);
    }
  }

  lemma StuckAtStart()
    ensures Stuck(Start())
  {
    hide Run, Start;
    SetupDone();
  }

  lemma {:induction false} CycleSteps(s: Net, steps: seq<Step>, k: nat)
    requires Shaped(PAIR, s) && Turns(steps) && k <= |CYCLE|
    ensures Turns(steps) && Turns(steps + CYCLE[..k])
    ensures Run(PAIR, s, steps + CYCLE[..k]) == Steps(Run(PAIR, s, steps), k)
    ensures Moves(PAIR, s, steps + CYCLE[..k]) >= Moves(PAIR, s, steps)
    ensures k == |CYCLE| && Advances(PAIR, Steps(Run(PAIR, s, steps), 5), CYCLE[5]) ==>
              Moves(PAIR, s, steps + CYCLE[..k]) > Moves(PAIR, s, steps)
  {
    hide Apply, Advances, Run, Moves, StepOk, Steps;
    var base := Run(PAIR, s, steps);
    hide Turns;
    if k == 0 {
      AtStep(base, 0);
      assert steps + CYCLE[..0] == steps;
    } else {
      CycleSteps(s, steps, k - 1);
      AtStep(base, k - 1);
      OneStepMore(s, steps + CYCLE[..k - 1], CYCLE[k - 1]);
      assert steps + CYCLE[..k - 1] + [CYCLE[k - 1]] == steps + CYCLE[..k];
    }
  }

  lemma CycleMore(s: Net, steps: seq<Step>) returns (more: seq<Step>)
    requires Shaped(PAIR, s) && Turns(steps) && Stuck(Run(PAIR, s, steps))
    ensures Turns(more) && Moves(PAIR, s, more) >= Moves(PAIR, s, steps) + 1 && Stuck(Run(PAIR, s, more))
  {
    hide Apply, Advances, Stuck, Run, Moves, StepOk, Steps;
    CycleStaysStuck(Run(PAIR, s, steps));
    CycleSteps(s, steps, |CYCLE|);
    assert CYCLE[..|CYCLE|] == CYCLE;
    more := steps + CYCLE;
  }
}
