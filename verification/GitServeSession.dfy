/** The rendezvous between git clients and the machine that serves them
    (src/git_serve_session.ts, `createGitServeSession`). A handler that awaits is cut into the segments
    between its awaits; any interleaving of segments and timers is a run. */
module GitServeSession {
  import opened Options
  import opened Ordering

  // -------------------------------------------------------------------- data

  datatype Pending = Pending(id: string, verb: string, path: string, incomingRefs: seq<string>)

  datatype Timer = RequestTimer(id: string) | PollTimer(poll: nat) | SessionTimer

  /** A promise settled: of a git request, or of a poll with the requests it hands out. */
  datatype Sent =
    | Answered(id: string)
    | TimedOut(id: string)
    | Closed(id: string)
    | PollAnswer(poll: nat, requests: seq<string>)

  /** `reading` holds the requests whose body is still awaited, `responding` counts the responds whose
      body is; `used`, `polls`, `issued`, `sent` and `lost` record what has happened so far. */
  datatype Session = Session(
    active: bool, token: string, pending: seq<Pending>, waiters: seq<nat>, armed: set<Timer>,
    reading: set<string>, responding: nat,
    used: set<string>, polls: nat, issued: nat, sent: seq<Sent>, lost: seq<string>)

  /** One atomic segment. Request ids are random, hence never seen before. */
  datatype Step =
    | Register(token: string)
    | BeginGit(request: Pending, post: bool)
    | BodyRead(request: Pending)
    | BodyFailed(id: string)
    | Poll(token: string)
    | BeginRespond(token: string)
    | FinishRespond(named: Option<string>, decodes: bool)
    | RequestTimeout(id: string)
    | PollTimeout(poll: nat)
    | Cleanup
    | SessionTimeout

  function Start(): Session {
    Session(false, "", [], [], {}, {}, 0, {}, 0, 0, [], [])
  }

  // ------------------------------------------------------------ specification

  function Ids(pending: seq<Pending>): (ids: seq<string>)
    ensures |ids| == |pending|
  {
    seq(|pending|, i requires 0 <= i < |pending| => pending[i].id)
  }

  function Without(pending: seq<Pending>, id: string): (rest: seq<Pending>)
    ensures forall p :: p in rest <==> p in pending && p.id != id
  {
    if pending == [] then []
    else if pending[0].id == id then Without(pending[1..], id)
    else [pending[0]] + Without(pending[1..], id)
  }

  function Remove<T(==,!new)>(xs: seq<T>, x: T): (rest: seq<T>)
    ensures forall y :: y in rest <==> y in xs && y != x
  {
    if xs == [] then []
    else if xs[0] == x then Remove(xs[1..], x)
    else [xs[0]] + Remove(xs[1..], x)
  }

  /** Hands every pending request to the first poll that waits. */
  function Drain(s: Session): Session {
    if s.waiters == [] || s.pending == [] then s
    else s.(waiters := s.waiters[1..], armed := s.armed - {PollTimer(s.waiters[0])},
            sent := s.sent + [PollAnswer(s.waiters[0], Ids(s.pending))])
  }

  function Enqueue(s: Session, p: Pending): Session {
    Drain(s.(pending := s.pending + [p], armed := s.armed + {RequestTimer(p.id)}, issued := s.issued + 1))
  }

  function Dequeue(s: Session, id: string): Session {
    s.(pending := Without(s.pending, id), armed := s.armed - {RequestTimer(id)})
  }

  function ClosedAll(pending: seq<Pending>): (sent: seq<Sent>)
    ensures |sent| == |pending|
  {
    seq(|pending|, i requires 0 <= i < |pending| => Closed(pending[i].id))
  }

  function PolledAll(waiters: seq<nat>): (sent: seq<Sent>)
    ensures |sent| == |waiters|
  {
    seq(|waiters|, i requires 0 <= i < |waiters| => PollAnswer(waiters[i], []))
  }

  function Close(s: Session): Session {
    s.(active := false, pending := [], waiters := [],
       armed := s.armed - {SessionTimer} - (set p | p in s.pending :: RequestTimer(p.id))
                - (set w | w in s.waiters :: PollTimer(w)),
       sent := s.sent + ClosedAll(s.pending) + PolledAll(s.waiters))
  }

  /** Whether the segment can run: its timer is armed, what it awaited was begun, its id is new. */
  predicate Enabled(s: Session, step: Step) {
    match step
    case BeginGit(p, _) => p.id !in s.used
    case BodyRead(p) => p.id in s.reading
    case BodyFailed(id) => id in s.reading
    case FinishRespond(_, _) => s.responding > 0
    case RequestTimeout(id) => RequestTimer(id) in s.armed
    case PollTimeout(poll) => PollTimer(poll) in s.armed
    case SessionTimeout => SessionTimer in s.armed
    case _ => true
  }

  predicate Denied(s: Session, token: string) { !s.active || token != s.token }

  function Next(s: Session, step: Step): Session
    requires Enabled(s, step)
  {
    match step
    case Register(token) => s.(active := true, token := token, armed := s.armed + {SessionTimer})
    case BeginGit(p, post) =>
      if !s.active then s
      else
        var named := s.(used := s.used + {p.id});
        if post then named.(reading := s.reading + {p.id}) else Enqueue(named, p)
    case BodyRead(p) => Enqueue(s.(reading := s.reading - {p.id}), p)
    case BodyFailed(id) => s.(reading := s.reading - {id})
    case Poll(token) =>
      if Denied(s, token) then s
      else if s.pending != [] then s.(polls := s.polls + 1, sent := s.sent + [PollAnswer(s.polls, Ids(s.pending))])
      else s.(polls := s.polls + 1, waiters := s.waiters + [s.polls], armed := s.armed + {PollTimer(s.polls)})
    case BeginRespond(token) => if Denied(s, token) then s else s.(responding := s.responding + 1)
    case FinishRespond(id, decodes) =>
      var begun := s.(responding := s.responding - 1);
      if id.None? || id.value !in Ids(s.pending) then begun
      else
        var taken := Dequeue(begun, id.value);
        if decodes then taken.(sent := s.sent + [Answered(id.value)]) else taken.(lost := s.lost + [id.value])
    case RequestTimeout(id) => Dequeue(s, id).(sent := s.sent + [TimedOut(id)])
    case PollTimeout(poll) =>
      s.(waiters := Remove(s.waiters, poll), armed := s.armed - {PollTimer(poll)},
         sent := s.sent + [PollAnswer(poll, [])])
    case Cleanup => Close(s)
    case SessionTimeout => Close(s)
  }

  // --------------------------------------------------------------- invariants

  /** The git requests settled, in order. */
  function Settled(sent: seq<Sent>): seq<string> {
    if sent == [] then []
    else
      var init, last := Settled(sent[..|sent| - 1]), sent[|sent| - 1];
      if last.PollAnswer? then init else init + [last.id]
  }

  /** The polls answered, in order. */
  function Polled(sent: seq<Sent>): seq<nat> {
    if sent == [] then []
    else
      var init, last := Polled(sent[..|sent| - 1]), sent[|sent| - 1];
      if last.PollAnswer? then init + [last.poll] else init
  }

  predicate Handed(sent: seq<Sent>, id: string) {
    exists i :: 0 <= i < |sent| && sent[i].PollAnswer? && id in sent[i].requests
  }

  predicate Disjoint<T(==)>(a: seq<T>, b: seq<T>) { forall x :: x in a ==> x !in b }

  /** Each request queued so far is pending, settled or lost: once, and in one way. */
  predicate RequestsOnce(s: Session) {
    var ids, settled := Ids(s.pending), Settled(s.sent);
    && Distinct(ids) && Distinct(settled) && Distinct(s.lost)
    && Disjoint(ids, settled) && Disjoint(ids, s.lost) && Disjoint(settled, s.lost)
    && s.issued == |ids| + |settled| + |s.lost|
  }

  /** The ids in use are those generated so far. */
  predicate IdsKnown(s: Session) {
    && (forall id :: id in Ids(s.pending) + Settled(s.sent) + s.lost ==> id in s.used && id !in s.reading)
    && s.reading <= s.used
  }

  /** Each poll admitted so far waits or has been answered: once, and in one way. */
  predicate PollsOnce(s: Session) {
    var polled := Polled(s.sent);
    && Distinct(s.waiters) && Distinct(polled) && Disjoint(s.waiters, polled)
    && (forall w :: w in s.waiters + polled ==> w < s.polls)
    && s.polls == |s.waiters| + |polled|
  }

  /** Timers are armed for exactly the requests that are pending, the polls that wait, and the session
      while it is active. */
  predicate TimersMatch(s: Session) {
    s.armed == (set p | p in s.pending :: RequestTimer(p.id)) + (set w | w in s.waiters :: PollTimer(w))
               + (if s.active then {SessionTimer} else {})
  }

  /** While a poll waits, every pending request has already been handed to some poll. */
  predicate NoLostWakeup(s: Session) {
    s.waiters != [] ==> s.active && forall p :: p in s.pending ==> Handed(s.sent, p.id)
  }

  predicate SessionOk(s: Session) {
    RequestsOnce(s) && IdsKnown(s) && PollsOnce(s) && TimersMatch(s) && NoLostWakeup(s)
  }

  lemma StartOk()
    ensures SessionOk(Start())
  {}

  // ----------------------------------------------------------- what is recorded

  lemma SentOne(sent: seq<Sent>, x: Sent)
    ensures Settled(sent + [x]) == Settled(sent) + if x.PollAnswer? then [] else [x.id]
    ensures Polled(sent + [x]) == Polled(sent) + if x.PollAnswer? then [x.poll] else []
  {
    assert (sent + [x])[..|sent|] == sent;
  }

  lemma {:induction false} SentMore(sent: seq<Sent>, more: seq<Sent>)
    ensures Settled(sent + more) == Settled(sent) + Settled(more)
    ensures Polled(sent + more) == Polled(sent) + Polled(more)
  {
    if more == [] {
      assert sent + more == sent;
    } else {
      var init, last := more[..|more| - 1], more[|more| - 1];
      assert sent + more == (sent + init) + [last] && more == init + [last];
      SentMore(sent, init);
      SentOne(sent + init, last);
      SentOne(init, last);
    }
  }

  lemma {:induction false} ClosedAllSettles(pending: seq<Pending>)
    ensures Settled(ClosedAll(pending)) == Ids(pending) && Polled(ClosedAll(pending)) == []
  {
    if pending != [] {
      var n := |pending| - 1;
      ClosedAllSettles(pending[..n]);
      assert ClosedAll(pending) == ClosedAll(pending[..n]) + [Closed(pending[n].id)];
      assert Ids(pending) == Ids(pending[..n]) + [pending[n].id];
      SentOne(ClosedAll(pending[..n]), Closed(pending[n].id));
    }
  }

  lemma {:induction false} PolledAllAnswers(waiters: seq<nat>)
    ensures Settled(PolledAll(waiters)) == [] && Polled(PolledAll(waiters)) == waiters
  {
    if waiters != [] {
      var n := |waiters| - 1;
      PolledAllAnswers(waiters[..n]);
      assert PolledAll(waiters) == PolledAll(waiters[..n]) + [PollAnswer(waiters[n], [])];
      assert waiters == waiters[..n] + [waiters[n]];
      SentOne(PolledAll(waiters[..n]), PollAnswer(waiters[n], []));
    }
  }

  lemma HandedStays(sent: seq<Sent>, more: seq<Sent>, id: string)
    requires Handed(sent, id)
    ensures Handed(sent + more, id)
  {
    var i :| 0 <= i < |sent| && sent[i].PollAnswer? && id in sent[i].requests;
    assert (sent + more)[i] == sent[i];
  }

  lemma HandedNow(sent: seq<Sent>, poll: nat, requests: seq<string>, id: string)
    requires id in requests
    ensures Handed(sent + [PollAnswer(poll, requests)], id)
  {
    assert (sent + [PollAnswer(poll, requests)])[|sent|] == PollAnswer(poll, requests);
  }

  lemma IdIn(pending: seq<Pending>, id: string)
    ensures id in Ids(pending) <==> exists p :: p in pending && p.id == id
  {
    if id in Ids(pending) {
      var i :| 0 <= i < |pending| && Ids(pending)[i] == id;
      assert pending[i] in pending;
    }
    if exists p :: p in pending && p.id == id {
      var p :| p in pending && p.id == id;
      var i :| 0 <= i < |pending| && pending[i] == p;
      assert Ids(pending)[i] == id;
    }
  }

  lemma {:induction false} RemoveOne<T(!new)>(xs: seq<T>, x: T)
    requires Distinct(xs)
    ensures Distinct(Remove(xs, x))
    ensures |Remove(xs, x)| == if x in xs then |xs| - 1 else |xs|
  {
    if xs != [] {
      var rest := Remove(xs[1..], x);
      RemoveOne(xs[1..], x);
      assert xs[0] !in xs[1..];
      assert xs[0] !in rest;
    }
  }

  lemma {:induction false} WithoutIds(pending: seq<Pending>, id: string)
    ensures Ids(Without(pending, id)) == Remove(Ids(pending), id)
  {
    if pending != [] {
      var ids := Ids(pending);
      assert ids[1..] == Ids(pending[1..]) && ids[0] == pending[0].id;
      WithoutIds(pending[1..], id);
      assert Ids([pending[0]] + Without(pending[1..], id)) == [ids[0]] + Ids(Without(pending[1..], id));
    }
  }

  // ----------------------------------------------------- segments keep the invariants

  /** An id that is named but nowhere yet. */
  predicate Unqueued(s: Session, id: string) {
    id in s.used && id !in s.reading && id !in Ids(s.pending) + Settled(s.sent) + s.lost
  }

  function Added(s: Session, p: Pending): Session {
    s.(pending := s.pending + [p], armed := s.armed + {RequestTimer(p.id)}, issued := s.issued + 1)
  }

  lemma IdsAppend(pending: seq<Pending>, p: Pending)
    ensures Ids(pending + [p]) == Ids(pending) + [p.id]
  {}

  lemma AddedOk(s: Session, p: Pending)
    requires RequestsOnce(s) && IdsKnown(s) && TimersMatch(s) && Unqueued(s, p.id)
    ensures var a := Added(s, p); RequestsOnce(a) && IdsKnown(a) && TimersMatch(a)
  {
    hide Ids, Settled, Polled;
    var a := Added(s, p);
    IdsAppend(s.pending, p);
    AddedOnce(Ids(s.pending), Settled(s.sent), s.lost, p.id);
    assert forall q :: q in a.pending <==> q in s.pending || q == p;
  }

  lemma AddedOnce(ids: seq<string>, settled: seq<string>, lost: seq<string>, id: string)
    requires Distinct(ids) && Disjoint(ids, settled) && Disjoint(ids, lost) && id !in ids + settled + lost
    ensures var more := ids + [id]; Distinct(more) && Disjoint(more, settled) && Disjoint(more, lost)
  {}

  /** Handing out what is pending settles one waiting poll. */
  lemma DrainOk(s: Session)
    requires RequestsOnce(s) && IdsKnown(s) && PollsOnce(s) && TimersMatch(s) && (s.waiters != [] ==> s.active)
    requires s.pending != []
    ensures SessionOk(Drain(s))
  {
    hide Ids, Settled, Polled, Handed;
    if s.waiters != [] {
      var x := PollAnswer(s.waiters[0], Ids(s.pending));
      var d := Drain(s);
      SentOne(s.sent, x);
      assert s.waiters == [s.waiters[0]] + d.waiters;
      FirstPollAnswered(s.waiters, Polled(s.sent));
      assert d.armed == (set p | p in d.pending :: RequestTimer(p.id)) + (set w | w in d.waiters :: PollTimer(w))
               + (if d.active then {SessionTimer} else {}) by {
        assert forall w :: w in s.waiters <==> w == s.waiters[0] || w in d.waiters;
        assert s.waiters[0] !in d.waiters;
      }
      forall p | p in d.pending ensures Handed(d.sent, p.id) {
        IdIn(s.pending, p.id);
        HandedNow(s.sent, s.waiters[0], Ids(s.pending), p.id);
      }
    }
  }

  lemma FirstPollAnswered(waiters: seq<nat>, polled: seq<nat>)
    requires waiters != [] && Distinct(waiters) && Distinct(polled) && Disjoint(waiters, polled)
    ensures var (rest, more) := (waiters[1..], polled + [waiters[0]]);
      Distinct(rest) && Distinct(more) && Disjoint(rest, more) && forall w :: w in rest + more ==> w in waiters + polled
  {
    assert waiters[0] in waiters;
  }

  lemma EnqueueOk(s: Session, p: Pending)
    requires SessionOk(s) && Unqueued(s, p.id)
    ensures SessionOk(Enqueue(s, p))
  {
    hide RequestsOnce, IdsKnown, TimersMatch, Unqueued;
    AddedOk(s, p);
    SameWaiters(s, Added(s, p));
    DrainOk(Added(s, p));
  }

  lemma SameWaiters(s: Session, t: Session)
    requires PollsOnce(s) && t.sent == s.sent && t.waiters == s.waiters && t.polls == s.polls
    ensures PollsOnce(t)
  {}

  /** Taking a request out and recording what became of it. */
  lemma DequeueOk(s: Session, id: string, t: Session, x: Sent)
    requires SessionOk(s) && id in Ids(s.pending) && !x.PollAnswer? && x.id == id
    requires t == Dequeue(s, id).(sent := s.sent + [x]) || t == Dequeue(s, id).(lost := s.lost + [id])
    ensures SessionOk(t)
  {
    hide Ids, Settled, Polled, Handed, Without, Remove, PollsOnce;
    SentOne(s.sent, x);
    WithoutIds(s.pending, id);
    RemoveOne(Ids(s.pending), id);
    RemovedOnce(Ids(s.pending), Settled(s.sent), s.lost, id);
    DequeuePolls(s, t, x);
    IdIn(s.pending, id);
    forall p | p in t.pending && s.waiters != [] ensures Handed(t.sent, p.id) {
      if t.sent != s.sent { HandedStays(s.sent, [x], p.id); }
    }
  }

  lemma DequeuePolls(s: Session, t: Session, x: Sent)
    requires PollsOnce(s) && t.waiters == s.waiters && t.polls == s.polls && !x.PollAnswer?
    requires t.sent == s.sent || t.sent == s.sent + [x]
    ensures PollsOnce(t)
  {
    SentOne(s.sent, x);
  }

  lemma RemovedOnce(ids: seq<string>, settled: seq<string>, lost: seq<string>, id: string)
    requires Distinct(settled) && Distinct(lost) && id in ids
    requires Disjoint(ids, settled) && Disjoint(ids, lost) && Disjoint(settled, lost)
    ensures var rest := Remove(ids, id);
      && Disjoint(rest, settled) && Disjoint(rest, lost)
      && Disjoint(rest, settled + [id]) && Disjoint(rest, lost + [id])
      && Distinct(settled + [id]) && Distinct(lost + [id])
      && Disjoint(settled + [id], lost) && Disjoint(settled, lost + [id])
  {}

  lemma PollOk(s: Session, token: string)
    requires SessionOk(s)
    ensures SessionOk(Next(s, Poll(token)))
  {
    hide Ids, Settled, Polled, Handed;
    var t := Next(s, Poll(token));
    if Denied(s, token) {
    } else if s.pending != [] {
      var x := PollAnswer(s.polls, Ids(s.pending));
      SentOne(s.sent, x);
      NewPoll(s.waiters, Polled(s.sent), s.polls);
      SettledSame(s, t);
      assert PollsOnce(t) by {
        assert forall w :: w in t.waiters + Polled(t.sent) ==> w == s.polls || w in s.waiters + Polled(s.sent);
      }
      forall p | p in t.pending ensures Handed(t.sent, p.id) {
        IdIn(s.pending, p.id);
        HandedNow(s.sent, s.polls, Ids(s.pending), p.id);
      }
    } else {
      NewPoll(s.waiters, Polled(s.sent), s.polls);
      assert forall w :: w in t.waiters <==> w in s.waiters || w == s.polls;
      assert PollsOnce(t) by {
        assert forall w :: w in t.waiters + Polled(t.sent) ==> w == s.polls || w in s.waiters + Polled(s.sent);
      }
      assert RequestsOnce(t) && IdsKnown(t);
      assert TimersMatch(t);
    }
  }

  lemma NewPoll(waiters: seq<nat>, polled: seq<nat>, n: nat)
    requires Distinct(waiters) && Distinct(polled) && Disjoint(waiters, polled)
    requires forall w :: w in waiters + polled ==> w < n
    ensures Distinct(waiters + [n]) && Distinct(polled + [n])
    ensures Disjoint(waiters, polled + [n]) && Disjoint(waiters + [n], polled)
  {
    assert n !in waiters && n !in polled by {
      assert forall w :: w in waiters || w in polled ==> w in waiters + polled;
    }
  }

  lemma PollTimeoutOk(s: Session, poll: nat)
    requires SessionOk(s) && PollTimer(poll) in s.armed
    ensures SessionOk(Next(s, PollTimeout(poll)))
  {
    hide Ids, Settled, Polled, Handed, Remove, RequestsOnce, IdsKnown;
    var t, x := Next(s, PollTimeout(poll)), PollAnswer(poll, []);
    assert poll in s.waiters;
    SentOne(s.sent, x);
    RemoveOne(s.waiters, poll);
    PollGone(s.waiters, Polled(s.sent), poll);
    SettledSame(s, t);
    forall p | p in t.pending ensures Handed(t.sent, p.id) {
      HandedStays(s.sent, [x], p.id);
    }
  }

  lemma PollGone(waiters: seq<nat>, polled: seq<nat>, poll: nat)
    requires Distinct(polled) && Disjoint(waiters, polled) && poll in waiters
    ensures var rest := Remove(waiters, poll);
      && Distinct(polled + [poll]) && Disjoint(rest, polled + [poll])
      && forall w :: w in rest + (polled + [poll]) ==> w in waiters + polled
  {}

  lemma SettledSame(s: Session, t: Session)
    requires RequestsOnce(s) && IdsKnown(s) && Settled(t.sent) == Settled(s.sent)
    requires t.pending == s.pending && t.lost == s.lost && t.issued == s.issued
    requires t.used == s.used && t.reading == s.reading
    ensures RequestsOnce(t) && IdsKnown(t)
  {}

  lemma CloseOk(s: Session)
    requires SessionOk(s)
    ensures SessionOk(Close(s))
  {
    hide Ids, Settled, Polled, Handed;
    var t := Close(s);
    var closed, polled := ClosedAll(s.pending), PolledAll(s.waiters);
    SentMore(s.sent + closed, polled);
    SentMore(s.sent, closed);
    ClosedAllSettles(s.pending);
    PolledAllAnswers(s.waiters);
    assert Settled(t.sent) == Settled(s.sent) + Ids(s.pending);
    assert Polled(t.sent) == Polled(s.sent) + s.waiters;
    assert Ids(t.pending) == [] by { assert |Ids(t.pending)| == 0; }
    Joined(Settled(s.sent), Ids(s.pending));
    Joined(Polled(s.sent), s.waiters);
    CloseTimers(s);
    assert RequestsOnce(t);
    assert IdsKnown(t);
    assert forall w :: w in t.waiters + Polled(t.sent) ==> w in s.waiters + Polled(s.sent);
  }

  lemma Joined<T>(a: seq<T>, b: seq<T>)
    requires Distinct(a) && Distinct(b) && Disjoint(b, a)
    ensures Distinct(a + b)
  {
    forall i, j | 0 <= i < j < |a + b| ensures (a + b)[i] != (a + b)[j] {
      assert i < |a| ==> (a + b)[i] in a;
      assert j >= |a| ==> (a + b)[j] in b;
    }
  }

  lemma CloseTimers(s: Session)
    requires TimersMatch(s)
    ensures TimersMatch(Close(s))
  {}

  /** Every segment and every timer keeps the invariants. */
  lemma NextOk(s: Session, step: Step)
    requires SessionOk(s) && Enabled(s, step)
    ensures SessionOk(Next(s, step))
  {
    match step
    case Register(_) => OtherOk(s, step);
    case BeginGit(p, post) =>
      if s.active {
        var named := s.(used := s.used + {p.id});
        NamedOk(s, p.id);
        if !post { EnqueueOk(named, p); }
      }
    case BodyRead(p) =>
      ReadOk(s, p.id);
      EnqueueOk(s.(reading := s.reading - {p.id}), p);
    case BodyFailed(id) => ReadOk(s, id);
    case Poll(token) => PollOk(s, token);
    case BeginRespond(_) => OtherOk(s, step);
    case FinishRespond(named, decodes) => FinishOk(s, named, decodes);
    case RequestTimeout(id) =>
      IdIn(s.pending, id);
      DequeueOk(s, id, Next(s, step), TimedOut(id));
    case PollTimeout(poll) => PollTimeoutOk(s, poll);
    case Cleanup => CloseOk(s);
    case SessionTimeout => CloseOk(s);
  }

  lemma OtherOk(s: Session, step: Step)
    requires SessionOk(s) && (step.Register? || step.BeginRespond?)
    ensures SessionOk(Next(s, step))
  {}

  lemma NamedOk(s: Session, id: string)
    requires SessionOk(s) && id !in s.used
    ensures var named := s.(used := s.used + {id});
      SessionOk(named) && SessionOk(named.(reading := s.reading + {id})) && Unqueued(named, id)
  {
    hide Ids, Settled, Polled;
  }

  lemma ReadOk(s: Session, id: string)
    requires SessionOk(s) && id in s.reading
    ensures var read := s.(reading := s.reading - {id}); SessionOk(read) && Unqueued(read, id)
  {
    hide Ids, Settled, Polled;
  }

  lemma FinishOk(s: Session, named: Option<string>, decodes: bool)
    requires SessionOk(s) && s.responding > 0
    ensures SessionOk(Next(s, FinishRespond(named, decodes)))
  {
    hide Ids, Without;
    var begun := s.(responding := s.responding - 1);
    BegunOk(s);
    if named.Some? && named.value in Ids(s.pending) {
      DequeueOk(begun, named.value, Next(s, FinishRespond(named, decodes)), Answered(named.value));
    }
  }

  lemma BegunOk(s: Session)
    requires SessionOk(s) && s.responding > 0
    ensures SessionOk(s.(responding := s.responding - 1))
  {}

  // --------------------------------------------------------------------- runs

  predicate IsRun(s: Session, steps: seq<Step>)
    decreases |steps|
  {
    steps == [] || (Enabled(s, steps[0]) && IsRun(Next(s, steps[0]), steps[1..]))
  }

  function Run(s: Session, steps: seq<Step>): Session
    requires IsRun(s, steps)
    decreases |steps|
  {
    if steps == [] then s else Run(Next(s, steps[0]), steps[1..])
  }

  /** A respond that names a pending request but carries what no response can be built from. */
  predicate Throws(s: Session, step: Step) {
    step.FinishRespond? && !step.decodes && step.named.Some? && step.named.value in Ids(s.pending)
  }

  function ThrowCount(s: Session, steps: seq<Step>): nat
    requires IsRun(s, steps)
    decreases |steps|
  {
    if steps == [] then 0
    else (if Throws(s, steps[0]) then 1 else 0) + ThrowCount(Next(s, steps[0]), steps[1..])
  }

  function AnsweredCount(sent: seq<Sent>): nat {
    if sent == [] then 0 else AnsweredCount(sent[..|sent| - 1]) + if sent[|sent| - 1].Answered? then 1 else 0
  }

  function TimedOutCount(sent: seq<Sent>): nat {
    if sent == [] then 0 else TimedOutCount(sent[..|sent| - 1]) + if sent[|sent| - 1].TimedOut? then 1 else 0
  }

  function ClosedCount(sent: seq<Sent>): nat {
    if sent == [] then 0 else ClosedCount(sent[..|sent| - 1]) + if sent[|sent| - 1].Closed? then 1 else 0
  }

  lemma {:induction false} SettledCounts(sent: seq<Sent>)
    ensures |Settled(sent)| == AnsweredCount(sent) + TimedOutCount(sent) + ClosedCount(sent)
  {
    if sent != [] { SettledCounts(sent[..|sent| - 1]); }
  }

  lemma LostOne(s: Session, step: Step)
    requires Enabled(s, step)
    ensures |Next(s, step).lost| == |s.lost| + if Throws(s, step) then 1 else 0
  {}

  lemma {:induction false} RunOk(s: Session, steps: seq<Step>)
    requires SessionOk(s) && IsRun(s, steps)
    ensures SessionOk(Run(s, steps)) && |Run(s, steps).lost| == |s.lost| + ThrowCount(s, steps)
    decreases |steps|
  {
    hide SessionOk, Next, Enabled, Throws;
    if steps != [] {
      NextOk(s, steps[0]);
      LostOne(s, steps[0]);
      RunOk(Next(s, steps[0]), steps[1..]);
    }
  }

  /** Over every interleaving: each git request and each poll is settled at most once, timers are armed
      for exactly what is unsettled, a waiting poll leaves no request unseen, and every request queued
      is pending, answered, timed out or closed, apart from one for each respond that threw. */
  lemma ReachableSession(steps: seq<Step>)
    requires IsRun(Start(), steps)
    ensures var s := Run(Start(), steps);
      && SessionOk(s)
      && s.issued == |s.pending| + AnsweredCount(s.sent) + TimedOutCount(s.sent) + ClosedCount(s.sent)
                     + ThrowCount(Start(), steps)
  {
    hide AnsweredCount, TimedOutCount, ClosedCount, Settled, ThrowCount, IdsKnown, PollsOnce, TimersMatch, NoLostWakeup;
    StartOk();
    RunOk(Start(), steps);
    SettledCounts(Run(Start(), steps).sent);
  }

  /** A pending request can always time out, and is then settled for good. */
  lemma PendingCanSettle(s: Session, id: string)
    requires SessionOk(s) && id in Ids(s.pending)
    ensures Enabled(s, RequestTimeout(id))
    ensures var t := Next(s, RequestTimeout(id)); id in Settled(t.sent) && id !in Ids(t.pending)
  {
    hide Settled, Remove, RequestsOnce, IdsKnown, PollsOnce, NoLostWakeup;
    IdIn(s.pending, id);
    SentOne(s.sent, TimedOut(id));
    WithoutIds(s.pending, id);
  }

  // ------------------------------------------------------------ closed sessions

  /** A closed session has nothing pending. */
  predicate Clean(s: Session) { !s.active ==> s.pending == [] }

  /** A body that arrives while the session is not active. */
  predicate Late(s: Session, step: Step) { step.BodyRead? && !s.active }

  /** A late body is the one thing that leaves a closed session with a request pending. */
  lemma StaysCleanIff(s: Session, step: Step)
    requires Clean(s) && Enabled(s, step)
    ensures Clean(Next(s, step)) <==> !Late(s, step)
  {
    if step.BodyRead? { assert (s.pending + [step.request])[|s.pending|] == step.request; }
    assert Without([], "") == [];
  }

  /** The session is clean now and after every step. */
  predicate AlwaysClean(s: Session, steps: seq<Step>)
    requires IsRun(s, steps)
    decreases |steps|
  {
    Clean(s) && (steps != [] ==> AlwaysClean(Next(s, steps[0]), steps[1..]))
  }

  predicate NoneLate(s: Session, steps: seq<Step>)
    requires IsRun(s, steps)
    decreases |steps|
  {
    steps != [] ==> !Late(s, steps[0]) && NoneLate(Next(s, steps[0]), steps[1..])
  }

  lemma {:induction false} CleanIff(s: Session, steps: seq<Step>)
    requires Clean(s) && IsRun(s, steps)
    ensures AlwaysClean(s, steps) <==> NoneLate(s, steps)
    decreases |steps|
  {
    hide Clean, Late, Enabled, Next;
    if steps != [] {
      StaysCleanIff(s, steps[0]);
      if !Late(s, steps[0]) { CleanIff(Next(s, steps[0]), steps[1..]); }
    }
  }

  /** Over every run, a closed session never has a request pending exactly when no body arrived while it was closed. */
  lemma RunsCleanIff(steps: seq<Step>)
    requires IsRun(Start(), steps)
    ensures AlwaysClean(Start(), steps) <==> NoneLate(Start(), steps)
  {
    hide IsRun, AlwaysClean, NoneLate;
    CleanIff(Start(), steps);
  }

  /** What takes a pending request out of a session that is closed: its own timer, a respond to it begun before, or
      another clean-up. Nothing else does, a new registration included. */
  lemma LateStaysIff(s: Session, step: Step, id: string)
    requires SessionOk(s) && !s.active && id in Ids(s.pending) && Enabled(s, step)
    ensures id !in Ids(Next(s, step).pending) <==>
            step == RequestTimeout(id) || (step.FinishRespond? && step.named == Some(id)) || step == Cleanup
  {
    hide Settled, SessionOk, Polled, Without, Remove;
    TimerOff(s);
    match step
    case FinishRespond(named, _) => if named.Some? { WithoutIds(s.pending, named.value); }
    case RequestTimeout(other) => WithoutIds(s.pending, other);
    case BodyRead(p) => IdsAppend(s.pending, p);
    case BeginGit(p, _) => IdsAppend(s.pending, p);
    case _ =>
  }

  lemma TimerOff(s: Session)
    requires SessionOk(s) && !s.active
    ensures SessionTimer !in s.armed
  {
    hide RequestsOnce, PollsOnce, NoLostWakeup, IdsKnown;
  }

  /** For instance: a session is closed while a body is awaited. */
  lemma LateBodyIsQueued(s: Session, p: Pending)
    requires SessionOk(s) && p.id in s.reading
    ensures var closed := Next(s, Cleanup);
      && Enabled(closed, BodyRead(p))
      && var late := Next(closed, BodyRead(p));
         !late.active && late.pending == [p] && late.waiters == [] && late.issued == s.issued + 1
  {
    assert [] + [p] == [p];
  }

  // ------------------------------------------------------------------ handlers

  class GitServeSession {
    var active: bool
    var sessionToken: string
    var pendingRequests: seq<Pending>
    var pollWaiters: seq<nat>
    var armed: set<Timer>
    var reading: set<string>
    var responding: nat
    var used: set<string>
    var polls: nat
    var issued: nat
    var sent: seq<Sent>
    var lost: seq<string>

    constructor ()
      ensures Contents() == Start()
    {
      active, sessionToken, pendingRequests, pollWaiters := false, "", [], [];
      armed, reading, responding, used := {}, {}, 0, {};
      polls, issued, sent, lost := 0, 0, [], [];
    }

    function Contents(): Session
      reads this
    {
      Session(active, sessionToken, pendingRequests, pollWaiters, armed,
              reading, responding, used, polls, issued, sent, lost)
    }

    method HandleRegister(token: string)
      modifies this
      ensures Contents() == Next(old(Contents()), Register(token))
    {
      sessionToken := token;
      active := true;
      armed := armed + {SessionTimer};
    }

    method DrainPendingToPollWaiters()
      modifies this
      ensures Contents() == Drain(old(Contents()))
    {
      if |pollWaiters| == 0 || |pendingRequests| == 0 {
        return;
      }
      var waiter := pollWaiters[0];
      pollWaiters := pollWaiters[1..];
      armed := armed - {PollTimer(waiter)};
      sent := sent + [PollAnswer(waiter, Ids(pendingRequests))];
    }

    method EnqueueRequest(p: Pending)
      modifies this
      ensures Contents() == Enqueue(old(Contents()), p)
    {
      armed := armed + {RequestTimer(p.id)};
      pendingRequests := pendingRequests + [p];
      issued := issued + 1;
      DrainPendingToPollWaiters();
    }

    /** Up to the await of the body, or to the end when there is none. */
    method HandleGitRequest(p: Pending, post: bool) returns (accepted: bool)
      requires Enabled(Contents(), BeginGit(p, post))
      modifies this
      ensures Contents() == Next(old(Contents()), BeginGit(p, post)) && accepted == old(active)
    {
      if !active {
        return false;
      }
      used := used + {p.id};
      if post {
        reading := reading + {p.id};
      } else {
        EnqueueRequest(p);
      }
      accepted := true;
    }

    /** From the await of the body on; nothing looks at `active` again. */
    method ResumeGitRequest(p: Pending)
      requires Enabled(Contents(), BodyRead(p))
      modifies this
      ensures Contents() == Next(old(Contents()), BodyRead(p))
    {
      reading := reading - {p.id};
      EnqueueRequest(p);
    }

    method AbandonGitRequest(id: string)
      requires Enabled(Contents(), BodyFailed(id))
      modifies this
      ensures Contents() == Next(old(Contents()), BodyFailed(id))
    {
      reading := reading - {id};
    }

    /** The status a denied caller gets. */
    method ValidateToken(token: string) returns (denied: Option<nat>)
      ensures denied.Some? <==> Denied(Contents(), token)
      ensures denied.Some? ==> (denied.value == 404 <==> !active) && (denied.value == 403 <==> active)
    {
      if !active {
        return Some(404);
      }
      denied := if token != sessionToken then Some(403) else None;
    }

    method HandlePoll(token: string) returns (denied: Option<nat>)
      modifies this
      ensures Contents() == Next(old(Contents()), Poll(token))
      ensures denied.Some? <==> Denied(old(Contents()), token)
    {
      denied := ValidateToken(token);
      if denied.Some? {
        return;
      }
      if |pendingRequests| > 0 {
        sent := sent + [PollAnswer(polls, Ids(pendingRequests))];
      } else {
        armed := armed + {PollTimer(polls)};
        pollWaiters := pollWaiters + [polls];
      }
      polls := polls + 1;
    }

    method HandleRespond(token: string) returns (denied: Option<nat>)
      modifies this
      ensures Contents() == Next(old(Contents()), BeginRespond(token))
      ensures denied.Some? <==> Denied(old(Contents()), token)
    {
      denied := ValidateToken(token);
      if denied.None? {
        responding := responding + 1;
      }
    }

    /** Where a request sits in the order of the queue, if it is there. */
    method FindRequest(id: string) returns (found: Option<nat>)
      ensures found.Some? <==> id in Ids(pendingRequests)
      ensures found.Some? ==> found.value < |pendingRequests| && pendingRequests[found.value].id == id
    {
      var ids := Ids(pendingRequests);
      for i := 0 to |ids|
        invariant id !in ids[..i]
      {
        if ids[i] == id {
          return Some(i);
        }
      }
      found := None;
    }

    /** From the await of the respond's body on; the token is not looked at again. No status stands for
        the exception raised when no response can be built from the body. */
    method ResumeRespond(named: Option<string>, decodes: bool) returns (status: Option<nat>)
      requires Enabled(Contents(), FinishRespond(named, decodes))
      modifies this
      ensures Contents() == Next(old(Contents()), FinishRespond(named, decodes))
      ensures status == if named.None? then Some(400) else if named.value !in Ids(old(pendingRequests)) then Some(404)
                        else if decodes then Some(200) else None
    {
      hide Without, Ids, Enqueue, Close, Drain, Remove;
      responding := responding - 1;
      if named.None? {
        return Some(400);
      }
      var found := FindRequest(named.value);
      if found.None? {
        return Some(404);
      }
      pendingRequests := Without(pendingRequests, named.value);
      armed := armed - {RequestTimer(named.value)};
      if !decodes {
        lost := lost + [named.value];
        return None;
      }
      sent := sent + [Answered(named.value)];
      status := Some(200);
    }

    method FireRequestTimer(id: string)
      requires Enabled(Contents(), RequestTimeout(id))
      modifies this
      ensures Contents() == Next(old(Contents()), RequestTimeout(id))
    {
      armed := armed - {RequestTimer(id)};
      pendingRequests := Without(pendingRequests, id);
      sent := sent + [TimedOut(id)];
    }

    method FirePollTimer(poll: nat)
      requires Enabled(Contents(), PollTimeout(poll)) && Distinct(pollWaiters)
      modifies this
      ensures Contents() == Next(old(Contents()), PollTimeout(poll))
    {
      armed := armed - {PollTimer(poll)};
      var idx := 0;
      while idx < |pollWaiters| && pollWaiters[idx] != poll
        invariant 0 <= idx <= |pollWaiters| && poll !in pollWaiters[..idx]
      {
        idx := idx + 1;
      }
      RemoveAt(pollWaiters, idx, poll);
      if idx < |pollWaiters| {
        pollWaiters := pollWaiters[..idx] + pollWaiters[idx + 1..];
      }
      sent := sent + [PollAnswer(poll, [])];
    }

    method CleanupSession()
      modifies this
      ensures Contents() == Next(old(Contents()), Cleanup)
    {
      hide ClosedAll, PolledAll, Ids;
      armed := armed - {SessionTimer};
      CloseRequests();
      AnswerWaiters();
      pendingRequests, pollWaiters, active := [], [], false;
    }

    method CloseRequests()
      modifies this`armed, this`sent
      ensures armed == old(armed) - set p | p in pendingRequests :: RequestTimer(p.id)
      ensures sent == old(sent) + ClosedAll(pendingRequests)
    {
      ghost var timers, before := armed, sent;
      for i := 0 to |pendingRequests|
        invariant armed == timers - set p | p in pendingRequests[..i] :: RequestTimer(p.id)
        invariant sent == before + ClosedAll(pendingRequests[..i])
      {
        ghost var p := pendingRequests[i];
        assert pendingRequests[..i + 1] == pendingRequests[..i] + [p];
        assert ClosedAll(pendingRequests[..i + 1]) == ClosedAll(pendingRequests[..i]) + [Closed(p.id)];
        armed := armed - {RequestTimer(pendingRequests[i].id)};
        sent := sent + [Closed(pendingRequests[i].id)];
      }
      assert pendingRequests[..|pendingRequests|] == pendingRequests;
    }

    method AnswerWaiters()
      modifies this`armed, this`sent
      ensures armed == old(armed) - set w | w in pollWaiters :: PollTimer(w)
      ensures sent == old(sent) + PolledAll(pollWaiters)
    {
      ghost var timers, before := armed, sent;
      for i := 0 to |pollWaiters|
        invariant armed == timers - set w | w in pollWaiters[..i] :: PollTimer(w)
        invariant sent == before + PolledAll(pollWaiters[..i])
      {
        ghost var w := pollWaiters[i];
        assert pollWaiters[..i + 1] == pollWaiters[..i] + [w];
        assert PolledAll(pollWaiters[..i + 1]) == PolledAll(pollWaiters[..i]) + [PollAnswer(w, [])];
        armed := armed - {PollTimer(pollWaiters[i])};
        sent := sent + [PollAnswer(pollWaiters[i], [])];
      }
      assert pollWaiters[..|pollWaiters|] == pollWaiters;
    }
  }

  lemma {:induction false} RemoveAt(xs: seq<nat>, i: nat, x: nat)
    requires Distinct(xs) && i <= |xs| && x !in xs[..i] && (i < |xs| ==> xs[i] == x)
    ensures Remove(xs, x) == if i < |xs| then xs[..i] + xs[i + 1..] else xs
  {
    if xs != [] {
      if i == 0 {
        assert xs[0] !in xs[1..];
        RemoveAbsent(xs[1..], x);
      } else {
        assert xs[0] in xs[..i];
        assert xs[1..][..i - 1] == xs[..i][1..];
        RemoveAt(xs[1..], i - 1, x);
        assert xs == [xs[0]] + xs[1..];
        assert xs[..i] == [xs[0]] + xs[1..][..i - 1];
      }
    }
  }

  lemma {:induction false} RemoveAbsent(xs: seq<nat>, x: nat)
    requires x !in xs
    ensures Remove(xs, x) == xs
  {
    if xs != [] { RemoveAbsent(xs[1..], x); }
  }
}
