/** What each segment of the git rendezvous sends and leaves pending (src/git_serve_session.ts), and, over runs, who is
    admitted to poll and that whatever is pending when an admitted poll is made has been handed out. */
module GitServeOutcomes {
  import opened Options
  import opened Ordering
  import opened GitServeSession

  // ------------------------------------------------------------- what is sent

  /** The ids are those of the requests, in their order. */
  predicate IdsOf(ids: seq<string>, requests: seq<Pending>) {
    |ids| == |requests| && forall i :: 0 <= i < |ids| ==> ids[i] == requests[i].id
  }

  /** One answer more: to this poll, with these requests. */
  predicate Answers(before: seq<Sent>, after: seq<Sent>, poll: nat, requests: seq<Pending>) {
    && |after| == |before| + 1 && before <= after
    && after[|before|].PollAnswer? && after[|before|].poll == poll && IdsOf(after[|before|].requests, requests)
  }

  /** The request joins the end of the queue; the poll that has waited longest, if any, is handed all that is
      pending. */
  ghost predicate Queues(s: Session, t: Session, p: Pending) {
    && t.pending == s.pending + [p]
    && if s.waiters == [] then t.sent == s.sent && t.waiters == []
       else Answers(s.sent, t.sent, s.waiters[0], t.pending) && t.waiters == s.waiters[1..]
  }

  /** The request of this id is taken out, and the others keep their order. */
  ghost predicate TakesOut(before: seq<Pending>, after: seq<Pending>, id: string) {
    exists k: nat :: k < |before| && before[k].id == id && after == before[..k] + before[k + 1..]
  }

  predicate SentMore(s: Session, t: Session, x: Sent) { t.sent == s.sent + [x] }

  /** Closing answers every pending request and then every waiting poll, each in order, and keeps none. */
  ghost predicate Closes(s: Session, t: Session) {
    && !t.active && t.pending == [] && t.waiters == []
    && |t.sent| == |s.sent| + |s.pending| + |s.waiters| && s.sent <= t.sent
    && (forall i :: 0 <= i < |s.pending| ==> t.sent[|s.sent| + i] == Closed(s.pending[i].id))
    && (forall i :: 0 <= i < |s.waiters| ==> t.sent[|s.sent| + |s.pending| + i] == PollAnswer(s.waiters[i], []))
  }

  predicate NothingSent(s: Session, t: Session) {
    t.sent == s.sent && t.pending == s.pending && t.waiters == s.waiters
  }

  /** What a segment sends, and what it leaves pending and waiting. */
  ghost predicate Does(s: Session, step: Step, t: Session) {
    match step
    case Register(token) => t.active && t.token == token && NothingSent(s, t)
    case BeginGit(p, post) => if s.active && !post then Queues(s, t, p) else NothingSent(s, t)
    case BodyRead(p) => Queues(s, t, p)
    case BodyFailed(_) => NothingSent(s, t)
    case Poll(token) =>
      if !s.active || token != s.token then NothingSent(s, t)
      else if s.pending != [] then
        Answers(s.sent, t.sent, s.polls, s.pending) && t.pending == s.pending && t.waiters == s.waiters
      else t.sent == s.sent && t.pending == s.pending && t.waiters == s.waiters + [s.polls]
    case BeginRespond(_) => NothingSent(s, t)
    case FinishRespond(named, decodes) =>
      && t.waiters == s.waiters
      && if named.None? || (forall p :: p in s.pending ==> p.id != named.value) then NothingSent(s, t)
         else
           && TakesOut(s.pending, t.pending, named.value)
           && if decodes then SentMore(s, t, Answered(named.value))
              else t.sent == s.sent && t.lost == s.lost + [named.value]
    case RequestTimeout(id) =>
      TakesOut(s.pending, t.pending, id) && SentMore(s, t, TimedOut(id)) && t.waiters == s.waiters
    case PollTimeout(poll) => SentMore(s, t, PollAnswer(poll, [])) && t.pending == s.pending && poll !in t.waiters
    case Cleanup => Closes(s, t)
    case SessionTimeout => Closes(s, t)
  }

  lemma {:induction false} WithoutNone(pending: seq<Pending>, id: string)
    requires forall i :: 0 <= i < |pending| ==> pending[i].id != id
    ensures Without(pending, id) == pending
  {
    if pending != [] {
      assert pending == [pending[0]] + pending[1..];
      WithoutNone(pending[1..], id);
    }
  }

  lemma {:induction false} WithoutOne(pending: seq<Pending>, id: string, k: nat)
    requires k < |pending| && pending[k].id == id
    requires forall i :: 0 <= i < |pending| && i != k ==> pending[i].id != id
    ensures Without(pending, id) == pending[..k] + pending[k + 1..]
  {
    var rest := pending[1..];
    if k == 0 {
      WithoutNone(rest, id);
    } else {
      WithoutOne(rest, id, k - 1);
      assert pending[..k] == [pending[0]] + rest[..k - 1] && pending[k + 1..] == rest[k..];
    }
  }

  lemma WithoutTakesOut(pending: seq<Pending>, id: string)
    requires Distinct(Ids(pending)) && exists p :: p in pending && p.id == id
    ensures TakesOut(pending, Without(pending, id), id)
  {
    hide Without;
    var p :| p in pending && p.id == id;
    var k :| 0 <= k < |pending| && pending[k] == p;
    assert Ids(pending)[k] == id;
    forall i | 0 <= i < |pending| && i != k ensures pending[i].id != id { assert Ids(pending)[i] == pending[i].id; }
    WithoutOne(pending, id, k);
  }

  lemma EnqueueQueues(s: Session, p: Pending)
    ensures Queues(s, Enqueue(s, p), p)
  {}

  lemma CloseCloses(s: Session)
    ensures Closes(s, Close(s))
  {
    var closed, polled := ClosedAll(s.pending), PolledAll(s.waiters);
    var t := Close(s);
    assert t.sent == s.sent + closed + polled;
    assert forall i :: 0 <= i < |s.pending| ==> t.sent[|s.sent| + i] == closed[i];
    assert forall i :: 0 <= i < |s.waiters| ==> t.sent[|s.sent| + |s.pending| + i] == polled[i];
  }

  lemma QueueDoes(s: Session, step: Step)
    requires Enabled(s, step) && (step.BeginGit? || step.BodyRead?)
    ensures Does(s, step, Next(s, step))
  {
    hide Queues, TakesOut, Closes, Enqueue;
    match step
    case BeginGit(p, _) =>
      var named := s.(used := s.used + {p.id});
      EnqueueQueues(named, p);
      SameQueues(s, named, p);
    case BodyRead(p) =>
      var read := s.(reading := s.reading - {p.id});
      EnqueueQueues(read, p);
      SameQueues(s, read, p);
  }

  lemma RemovalDoes(s: Session, step: Step)
    requires SessionOk(s) && Enabled(s, step) && (step.FinishRespond? || step.RequestTimeout?)
    ensures Does(s, step, Next(s, step))
  {
    hide SessionOk, Does, Next, Distinct;
    PendingIds(s);
    match step
    case FinishRespond(named, decodes) => RespondDoes(s, named, decodes);
    case RequestTimeout(id) => TimeoutDoes(s, id);
  }

  lemma RespondDoes(s: Session, named: Option<string>, decodes: bool)
    requires Distinct(Ids(s.pending)) && s.responding > 0
    ensures Does(s, FinishRespond(named, decodes), Next(s, FinishRespond(named, decodes)))
  {
    hide TakesOut, Without, Distinct;
    if named.Some? {
      IdIn(s.pending, named.value);
      if named.value in Ids(s.pending) { WithoutTakesOut(s.pending, named.value); }
    }
  }

  lemma TimeoutDoes(s: Session, id: string)
    requires Distinct(Ids(s.pending)) && RequestTimer(id) in s.armed
    requires exists p :: p in s.pending && p.id == id
    ensures Does(s, RequestTimeout(id), Next(s, RequestTimeout(id)))
  {
    hide TakesOut, Without, Distinct;
    WithoutTakesOut(s.pending, id);
  }

  lemma PendingIds(s: Session)
    requires SessionOk(s)
    ensures Distinct(Ids(s.pending))
    ensures forall id :: RequestTimer(id) in s.armed ==> exists p :: p in s.pending && p.id == id
  {
    hide RequestsOnce, IdsKnown, PollsOnce, NoLostWakeup;
    DistinctPending(s);
  }

  lemma DistinctPending(s: Session)
    requires SessionOk(s)
    ensures Distinct(Ids(s.pending))
  {
    hide IdsKnown, PollsOnce, NoLostWakeup, TimersMatch;
  }

  /** Every segment does just that. */
  lemma NextDoes(s: Session, step: Step)
    requires SessionOk(s) && Enabled(s, step)
    ensures Does(s, step, Next(s, step))
  {
    if step.BeginGit? || step.BodyRead? {
      QueueDoes(s, step);
    } else if step.FinishRespond? || step.RequestTimeout? {
      RemovalDoes(s, step);
    } else {
      hide Queues, TakesOut, Closes, Enqueue, Close, Without, SessionOk;
      CloseCloses(s);
    }
  }

  lemma SameQueues(s: Session, r: Session, p: Pending)
    requires r.pending == s.pending && r.waiters == s.waiters && r.sent == s.sent
    ensures Queues(r, Enqueue(r, p), p) ==> Queues(s, Enqueue(r, p), p)
  {
    hide Enqueue;
  }

  // ------------------------------------------------------------------ who is admitted

  /** The token last registered, if the session has not been closed since. */
  function Registered(steps: seq<Step>): Option<string> {
    if steps == [] then None
    else
      match steps[|steps| - 1]
      case Register(token) => Some(token)
      case Cleanup => None
      case SessionTimeout => None
      case _ => Registered(steps[..|steps| - 1])
  }

  /** A run of one step more. */
  lemma {:induction false} RunMore(s: Session, steps: seq<Step>)
    requires steps != [] && IsRun(s, steps)
    ensures var n := |steps| - 1;
      && IsRun(s, steps[..n]) && Enabled(Run(s, steps[..n]), steps[n])
      && Run(s, steps) == Next(Run(s, steps[..n]), steps[n])
    decreases |steps|
  {
    hide Next, Enabled;
    var n := |steps| - 1;
    if n == 0 {
      assert steps[..0] == [] && steps[1..] == [];
    } else {
      RunMore(Next(s, steps[0]), steps[1..]);
      assert steps[..n][1..] == steps[1..][..n - 1] && steps[..n][0] == steps[0];
    }
  }

  /** The session is active with just the token last registered. */
  lemma {:induction false} ActiveIsRegistered(steps: seq<Step>)
    requires IsRun(Start(), steps)
    ensures var s := Run(Start(), steps);
            (s.active <==> Registered(steps).Some?) && (s.active ==> s.token == Registered(steps).value)
    decreases |steps|
  {
    hide IsRun, Run, Enqueue, Close, Without;
    if steps != [] {
      var n := |steps| - 1;
      RunMore(Start(), steps);
      ActiveIsRegistered(steps[..n]);
      KeepsActive(Run(Start(), steps[..n]), steps[n]);
    } else {
      RunNothing(Start());
    }
  }

  lemma RunNothing(s: Session)
    ensures IsRun(s, []) && Run(s, []) == s
  {}

  lemma KeepsActive(s: Session, step: Step)
    requires Enabled(s, step)
    ensures var t := Next(s, step);
      match step
      case Register(token) => t.active && t.token == token
      case Cleanup => !t.active
      case SessionTimeout => !t.active
      case _ => t.active == s.active && t.token == s.token
  {}

  // --------------------------------------------------------------- what is handed out

  lemma AnsweredIsHanded(before: seq<Sent>, after: seq<Sent>, poll: nat, requests: seq<Pending>)
    requires Answers(before, after, poll, requests)
    ensures forall p :: p in requests ==> Handed(after, p.id)
  {
    var answer := after[|before|];
    forall p | p in requests ensures Handed(after, p.id) {
      var i :| 0 <= i < |requests| && requests[i] == p;
      assert answer.requests[i] == p.id;
    }
  }

  /** Nothing sent is taken back. */
  lemma SentGrows(s: Session, step: Step)
    requires Enabled(s, step)
    ensures s.sent <= Next(s, step).sent
  {}

  lemma {:induction false} HandedForever(s: Session, steps: seq<Step>, id: string)
    requires IsRun(s, steps) && Handed(s.sent, id)
    ensures Handed(Run(s, steps).sent, id)
    decreases |steps|
  {
    hide Next, Enabled;
    if steps != [] {
      SentGrows(s, steps[0]);
      var t := Next(s, steps[0]);
      assert t.sent == s.sent + t.sent[|s.sent|..];
      HandedStays(s.sent, t.sent[|s.sent|..], id);
      HandedForever(t, steps[1..], id);
    }
  }

  /** Over every run: a poll with the token last registered, in a session not closed since, is answered at once with all
      that is pending, if anything is; and whatever was pending has been handed out ever after. */
  lemma PollHandsOut(steps: seq<Step>, token: string, later: seq<Step>)
    requires IsRun(Start(), steps) && Registered(steps) == Some(token)
    requires IsRun(Next(Run(Start(), steps), Poll(token)), later)
    ensures var s := Run(Start(), steps);
      var t := Next(s, Poll(token));
      && (s.pending != [] ==> Answers(s.sent, t.sent, s.polls, s.pending))
      && forall p :: p in s.pending ==> Handed(Run(t, later).sent, p.id)
  {
    hide IsRun, Run, Next, Answers, Handed, SessionOk;
    var s := Run(Start(), steps);
    ActiveIsRegistered(steps);
    StartOk();
    RunOk(Start(), steps);
    NextDoes(s, Poll(token));
    var t := Next(s, Poll(token));
    if s.pending != [] { AnsweredIsHanded(s.sent, t.sent, s.polls, s.pending); }
    forall p | p in s.pending ensures Handed(Run(t, later).sent, p.id) { HandedForever(t, later, p.id); }
  }

  /** Any other poll is turned away. */
  lemma PollTurnedAway(steps: seq<Step>, token: string)
    requires IsRun(Start(), steps) && Registered(steps) != Some(token)
    ensures Next(Run(Start(), steps), Poll(token)) == Run(Start(), steps)
  {
    hide IsRun, Run;
    ActiveIsRegistered(steps);
  }
}
