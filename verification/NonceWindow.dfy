/** Replay protection of signed requests (src/memory_handler.ts, `handleSignatureVerification` and the nonces remembered
    per sender). A signed request is a publish, a key rotation or a review: all three check and remember in the same
    nonces, with the signature check awaited in between. Signature and key checks are a flag of the request. It is cut
    in two at the await; any interleaving of the parts is a run. */
module NonceWindow {
  import opened Options
  import opened Sequences

  datatype Settings = Settings(skew: nat, ttl: nat, max: nat)

  /** A sender's nonces with their timestamps, in the order they were remembered. */
  type Nonces = seq<(string, int)>

  /** One signed request of one sender; `genuine` is what the signature and key checks would say. */
  datatype Signed = Signed(nonce: string, ts: int, now: int, genuine: bool)

  datatype Verdict = Stale | Replayed | Forged | Accepted

  /** One sender: the nonces remembered, and the publishes whose signature is being checked. */
  datatype Sender = Sender(nonces: Nonces, flying: multiset<Signed>)

  const NEW_SENDER := Sender([], multiset{})

  // ------------------------------------------------------------ specification

  function Unexpired(ns: Nonces, ttl: nat, now: int): Nonces {
    if ns == [] then []
    else if now - ns[0].1 > ttl then Unexpired(ns[1..], ttl, now)
    else [ns[0]] + Unexpired(ns[1..], ttl, now)
  }

  function Prune(ns: Nonces, s: Settings, now: int): Nonces {
    Newest(Unexpired(ns, s.ttl, now), s.max)
  }

  predicate Knows(ns: Nonces, nonce: string) {
    exists i :: 0 <= i < |ns| && ns[i].0 == nonce
  }

  predicate Fresh(s: Settings, q: Signed) {
    -(s.skew as int) <= q.now - q.ts <= s.skew
  }

  /** Sets the time of a nonce, in place if it is known. */
  function SetNonce(ns: Nonces, nonce: string, ts: int): Nonces {
    if ns == [] then [(nonce, ts)]
    else if ns[0].0 == nonce then [(nonce, ts)] + ns[1..]
    else [ns[0]] + SetNonce(ns[1..], nonce, ts)
  }

  /** A new nonce goes last, and the oldest go when there are too many. */
  function Remember(ns: Nonces, s: Settings, nonce: string, ts: int, now: int): Nonces {
    Newest(SetNonce(Prune(ns, s, now), nonce, ts), s.max)
  }

  /** Up to the await of the signature check; no verdict yet while it is awaited. */
  function Begin(x: Sender, s: Settings, q: Signed): (Sender, Option<Verdict>) {
    if !Fresh(s, q) then (x, Some(Stale))
    else
      var pruned := x.(nonces := Prune(x.nonces, s, q.now));
      if Knows(pruned.nonces, q.nonce) then (pruned, Some(Replayed))
      else (pruned.(flying := x.flying + multiset{q}), None)
  }

  /** From its result on, with the time read before it. */
  function Finish(x: Sender, s: Settings, q: Signed): (Sender, Verdict) {
    var landed := x.(flying := x.flying - multiset{q});
    if !q.genuine then (landed, Forged)
    else (landed.(nonces := Remember(x.nonces, s, q.nonce, q.ts, q.now)), Accepted)
  }

  datatype Step = Begins(q: Signed) | Finishes(q: Signed)

  predicate Enabled(x: Sender, step: Step) { step.Finishes? ==> step.q in x.flying }

  function Next(x: Sender, s: Settings, step: Step): Sender {
    match step
    case Begins(q) => Begin(x, s, q).0
    case Finishes(q) => Finish(x, s, q).0
  }

  /** Each part can run, and the clock read at the beginning of a publish does not go back. */
  predicate IsRun(x: Sender, s: Settings, steps: seq<Step>, from: int)
    decreases |steps|
  {
    steps == []
    || (Enabled(x, steps[0]) && (steps[0].Begins? ==> from <= steps[0].q.now)
        && IsRun(Next(x, s, steps[0]), s, steps[1..], Later(steps[0], from)))
  }

  function Later(step: Step, from: int): int { if step.Begins? then step.q.now else from }

  predicate Accepts(step: Step) { step.Finishes? && step.q.genuine }

  function AcceptedCount(steps: seq<Step>): nat {
    if steps == [] then 0 else (if Accepts(steps[0]) then 1 else 0) + AcceptedCount(steps[1..])
  }

  // ------------------------------------------------------------------ verdicts

  /** The nonces and no more than the limit. */
  predicate NoncesOk(x: Sender, s: Settings) { |x.nonces| <= s.max }

  /** The nonce is remembered with a timestamp that has not expired. */
  predicate Remembered(ns: Nonces, nonce: string, ttl: nat, now: int) {
    exists i :: 0 <= i < |ns| && ns[i].0 == nonce && now - ns[i].1 <= ttl
  }

  lemma {:induction false} UnexpiredIs(ns: Nonces, ttl: nat, now: int, nonce: string)
    ensures Knows(Unexpired(ns, ttl, now), nonce) <==> Remembered(ns, nonce, ttl, now)
    ensures |Unexpired(ns, ttl, now)| <= |ns|
  {
    if ns != [] {
      var rest := Unexpired(ns[1..], ttl, now);
      UnexpiredIs(ns[1..], ttl, now, nonce);
      KnowsMore(ns[0], rest, nonce);
      RememberedMore(ns, nonce, ttl, now);
    }
  }

  lemma KnowsMore(x: (string, int), rest: Nonces, nonce: string)
    ensures Knows([x] + rest, nonce) <==> x.0 == nonce || Knows(rest, nonce)
  {
    var all := [x] + rest;
    assert all[0] == x && forall i :: 0 <= i < |rest| ==> all[i + 1] == rest[i];
  }

  lemma RememberedMore(ns: Nonces, nonce: string, ttl: nat, now: int)
    requires ns != []
    ensures Remembered(ns, nonce, ttl, now)
       <==> (ns[0].0 == nonce && now - ns[0].1 <= ttl) || Remembered(ns[1..], nonce, ttl, now)
  {
    assert forall i :: 0 <= i < |ns[1..]| ==> ns[1..][i] == ns[i + 1];
    if i :| 0 <= i < |ns| && ns[i].0 == nonce && now - ns[i].1 <= ttl && i > 0 { assert ns[1..][i - 1] == ns[i]; }
  }

  /** A request is stale if its timestamp and the clock differ by more than the skew, either way; a replay if it is not,
      and its nonce is remembered; otherwise its signature is checked. */
  lemma BeginIs(x: Sender, s: Settings, q: Signed)
    requires NoncesOk(x, s)
    ensures var (y, v) := Begin(x, s, q);
      if q.now - q.ts > s.skew || q.ts - q.now > s.skew then v == Some(Stale) && y == x
      else if Remembered(x.nonces, q.nonce, s.ttl, q.now) then
        v == Some(Replayed) && y.flying == x.flying && NoncesOk(y, s)
      else v == None && y.flying == x.flying + multiset{q} && NoncesOk(y, s)
  {
    hide Knows, Remembered, Unexpired;
    UnexpiredIs(x.nonces, s.ttl, q.now, q.nonce);
  }

  /** Once checked it is accepted if it is genuine, and its nonce remembered with its timestamp; else it is forged and
      nothing is remembered. */
  lemma FinishIs(x: Sender, s: Settings, q: Signed)
    requires NoncesOk(x, s) && s.max > 0
    ensures var (y, v) := Finish(x, s, q);
      && y.flying == x.flying - multiset{q} && NoncesOk(y, s)
      && if q.genuine then
           && v == Accepted
           && (!Knows(x.nonces, q.nonce) ==> |y.nonces| > 0 && y.nonces[|y.nonces| - 1] == (q.nonce, q.ts))
         else v == Forged && y.nonces == x.nonces
  {
    var pruned := Prune(x.nonces, s, q.now);
    if q.genuine && !Knows(x.nonces, q.nonce) {
      if Knows(pruned, q.nonce) { PruneOf(x.nonces, s, q.now, q.nonce); }
      SetNew(pruned, q.nonce, q.ts);
    }
  }

  // ------------------------------------------------------------------ in flight

  ghost predicate NonceFlying(flying: multiset<Signed>, nonce: string) {
    exists q :: q in flying && q.nonce == nonce
  }

  /** Each nonce is in flight once, and not while it is remembered. */
  ghost predicate Single(x: Sender) {
    forall q :: q in x.flying ==>
      && x.flying[q] == 1 && !Knows(x.nonces, q.nonce)
      && (forall r :: r in x.flying && r.nonce == q.nonce ==> r == q)
  }

  /** The signature of a publish comes to be checked while that of one with the same nonce is. */
  ghost predicate Doubles(x: Sender, s: Settings, step: Step) {
    step.Begins? && Begin(x, s, step.q).1.None? && NonceFlying(x.flying, step.q.nonce)
  }

  lemma {:induction false} SetNew(ns: Nonces, nonce: string, ts: int)
    requires !Knows(ns, nonce)
    ensures SetNonce(ns, nonce, ts) == ns + [(nonce, ts)]
  {
    if ns != [] {
      assert ns[0].0 != nonce;
      forall i | 0 <= i < |ns[1..]| ensures ns[1..][i].0 != nonce { assert ns[i + 1].0 != nonce; }
      SetNew(ns[1..], nonce, ts);
      assert ns == [ns[0]] + ns[1..];
    }
  }

  lemma {:induction false} SetOnly(ns: Nonces, nonce: string, ts: int, other: string)
    requires Knows(SetNonce(ns, nonce, ts), other) && other != nonce
    ensures Knows(ns, other)
  {
    var all := SetNonce(ns, nonce, ts);
    var i :| 0 <= i < |all| && all[i].0 == other;
    if ns != [] {
      if ns[0].0 == nonce || i == 0 {
        assert ns[i].0 == other;
      } else {
        assert SetNonce(ns[1..], nonce, ts)[i - 1].0 == other;
        SetOnly(ns[1..], nonce, ts, other);
        var j :| 0 <= j < |ns[1..]| && ns[1..][j].0 == other;
        assert ns[j + 1].0 == other;
      }
    }
  }

  lemma {:induction false} UnexpiredOf(ns: Nonces, ttl: nat, now: int, nonce: string)
    requires Knows(Unexpired(ns, ttl, now), nonce)
    ensures Knows(ns, nonce)
  {
    var rest := Unexpired(ns[1..], ttl, now);
    if now - ns[0].1 <= ttl && ns[0].0 == nonce {
      assert ns[0].0 == nonce;
    } else {
      var i :| 0 <= i < |Unexpired(ns, ttl, now)| && Unexpired(ns, ttl, now)[i].0 == nonce;
      assert now - ns[0].1 > ttl ==> rest[i].0 == nonce;
      assert now - ns[0].1 <= ttl ==> rest[i - 1].0 == nonce;
      UnexpiredOf(ns[1..], ttl, now, nonce);
      var j :| 0 <= j < |ns[1..]| && ns[1..][j].0 == nonce;
      assert ns[j + 1].0 == nonce;
    }
  }

  lemma NewestOf(ns: Nonces, max: nat, nonce: string)
    requires Knows(Newest(ns, max), nonce)
    ensures Knows(ns, nonce)
  {
    var kept := Newest(ns, max);
    NewestIsSuffix(ns, max);
    var i :| 0 <= i < |kept| && kept[i].0 == nonce;
    assert ns[|ns| - |kept| + i] == kept[i];
  }

  /** Pruning makes no nonce known. */
  lemma PruneOf(ns: Nonces, s: Settings, now: int, nonce: string)
    requires Knows(Prune(ns, s, now), nonce)
    ensures Knows(ns, nonce)
  {
    NewestOf(Unexpired(ns, s.ttl, now), s.max, nonce);
    UnexpiredOf(ns, s.ttl, now, nonce);
  }

  /** Remembering one nonce makes no other known. */
  lemma RememberOf(ns: Nonces, s: Settings, q: Signed, nonce: string)
    requires Knows(Remember(ns, s, q.nonce, q.ts, q.now), nonce) && nonce != q.nonce
    ensures Knows(ns, nonce)
  {
    hide Knows, Newest, Prune, SetNonce;
    NewestOf(SetNonce(Prune(ns, s, q.now), q.nonce, q.ts), s.max, nonce);
    SetOnly(Prune(ns, s, q.now), q.nonce, q.ts, nonce);
    PruneOf(ns, s, q.now, nonce);
  }

  lemma StaysSingleIff(x: Sender, s: Settings, step: Step)
    requires Single(x) && Enabled(x, step)
    ensures Single(Next(x, s, step)) <==> !Doubles(x, s, step)
  {
    hide Knows, Prune, Remember;
    if step.Begins? && Begin(x, s, step.q).1.None? {
      StartsSingleIff(x, s, step);
    } else {
      var y := Next(x, s, step);
      forall f | f in y.flying ensures f in x.flying && y.flying[f] == 1 && !Knows(y.nonces, f.nonce) {
        assert x.flying[f] == 1;
        OthersUnknown(x, s, step, f);
      }
    }
  }

  /** Putting a publish in flight doubles it exactly if its nonce is in flight. */
  lemma StartsSingleIff(x: Sender, s: Settings, step: Step)
    requires Single(x) && step.Begins? && Begin(x, s, step.q).1.None?
    ensures Single(Next(x, s, step)) <==> !NonceFlying(x.flying, step.q.nonce)
  {
    hide Knows, Prune, Remember;
    var q, y := step.q, Next(x, s, step);
    assert q in y.flying && y.flying[q] == x.flying[q] + 1;
    if f :| f in x.flying && f.nonce == q.nonce {
      assert f in y.flying;
    } else {
      forall f | f in y.flying && f != q ensures f in x.flying && y.flying[f] == x.flying[f] && f.nonce != q.nonce {}
      forall f | f in x.flying ensures !Knows(y.nonces, f.nonce) { OthersUnknown(x, s, step, f); }
    }
  }

  /** No step makes known the nonce of another publish in flight. */
  lemma OthersUnknown(x: Sender, s: Settings, step: Step, f: Signed)
    requires Single(x) && Enabled(x, step) && f in x.flying && (step.Finishes? ==> f.nonce != step.q.nonce)
    ensures !Knows(Next(x, s, step).nonces, f.nonce)
  {
    hide Knows, Prune, Remember;
    match step
    case Begins(q) => if Knows(Prune(x.nonces, s, q.now), f.nonce) { PruneOf(x.nonces, s, q.now, f.nonce); }
    case Finishes(q) =>
      if Knows(Remember(x.nonces, s, q.nonce, q.ts, q.now), f.nonce) { RememberOf(x.nonces, s, q, f.nonce); }
  }

  ghost predicate NoneDoubles(x: Sender, s: Settings, steps: seq<Step>)
    decreases |steps|
  {
    steps == [] || (!Doubles(x, s, steps[0]) && NoneDoubles(Next(x, s, steps[0]), s, steps[1..]))
  }

  // -------------------------------------------------------------- nonces kept

  /** The nonce is known, at most `after` have been remembered since, and it is not too old. */
  ghost predicate Kept(ns: Nonces, nonce: string, ts: int, after: nat) {
    exists i :: 0 <= i < |ns| && ns[i] == (nonce, ts) && |ns| - 1 - i <= after
  }

  lemma {:induction false} UnexpiredKeeps(ns: Nonces, ttl: nat, now: int, i: nat)
    requires i < |ns| && now - ns[i].1 <= ttl
    ensures var left := Unexpired(ns, ttl, now);
            |left| <= |ns| && exists j :: 0 <= j < |left| && left[j] == ns[i] && |left| - 1 - j <= |ns| - 1 - i
  {
    var rest := Unexpired(ns[1..], ttl, now);
    if i == 0 {
      UnexpiredShrinks(ns[1..], ttl, now);
      assert Unexpired(ns, ttl, now)[0] == ns[0];
    } else {
      UnexpiredKeeps(ns[1..], ttl, now, i - 1);
      var j :| 0 <= j < |rest| && rest[j] == ns[1..][i - 1] && |rest| - 1 - j <= |ns| - 1 - i;
      var left := Unexpired(ns, ttl, now);
      assert left == rest || (left == [ns[0]] + rest && left[j + 1] == rest[j]);
    }
  }

  lemma {:induction false} UnexpiredShrinks(ns: Nonces, ttl: nat, now: int)
    ensures |Unexpired(ns, ttl, now)| <= |ns|
  {
    if ns != [] { UnexpiredShrinks(ns[1..], ttl, now); }
  }

  /** Only `max` later nonces can push one out. */
  lemma NewestKeeps(ns: Nonces, max: nat, nonce: string, ts: int, after: nat)
    requires Kept(ns, nonce, ts, after)
    ensures after < max ==> Kept(Newest(ns, max), nonce, ts, after)
  {
    var i :| 0 <= i < |ns| && ns[i] == (nonce, ts) && |ns| - 1 - i <= after;
    if after < max && |ns| > max {
      var kept := Newest(ns, max);
      assert kept[i - (|ns| - max)] == ns[i];
    }
  }

  lemma PruneKeeps(ns: Nonces, s: Settings, now: int, nonce: string, ts: int, after: nat)
    requires Kept(ns, nonce, ts, after) && now - ts <= s.ttl && after < s.max
    ensures Kept(Prune(ns, s, now), nonce, ts, after)
  {
    var i :| 0 <= i < |ns| && ns[i] == (nonce, ts) && |ns| - 1 - i <= after;
    UnexpiredKeeps(ns, s.ttl, now, i);
    NewestKeeps(Unexpired(ns, s.ttl, now), s.max, nonce, ts, after);
  }

  lemma AppendKeeps(ns: Nonces, more: (string, int), nonce: string, ts: int, after: nat)
    requires Kept(ns, nonce, ts, after)
    ensures Kept(ns + [more], nonce, ts, after + 1)
  {
    var i :| 0 <= i < |ns| && ns[i] == (nonce, ts) && |ns| - 1 - i <= after;
    assert (ns + [more])[i] == ns[i];
  }

  /** A kept nonce is not checked again, and stays while its timestamp could still be accepted. */
  lemma BeginKeeps(x: Sender, s: Settings, q: Signed, nonce: string, ts: int, after: nat)
    requires s.skew <= s.ttl && Kept(x.nonces, nonce, ts, after) && after < s.max
    ensures var (y, v) := Begin(x, s, q);
      && (v.None? ==> q.nonce != nonce || q.ts != ts)
      && (q.now - ts > s.skew || Kept(y.nonces, nonce, ts, after))
  {
    hide Newest, Unexpired, Kept, Knows, Prune;
    if q.now - ts <= s.skew {
      PruneKeeps(x.nonces, s, q.now, nonce, ts, after);
      KeptIsKnown(Prune(x.nonces, s, q.now), nonce, ts, after);
    }
  }

  /** Another nonce that is accepted pushes it one place towards the front. */
  lemma FinishKeeps(x: Sender, s: Settings, q: Signed, nonce: string, ts: int, after: nat)
    requires s.skew <= s.ttl && Kept(x.nonces, nonce, ts, after) && after < s.max && q.now - ts <= s.skew
    requires !Knows(x.nonces, q.nonce)
    ensures var y := Finish(x, s, q).0;
      if q.genuine then after + 1 == s.max || Kept(y.nonces, nonce, ts, after + 1) else Kept(y.nonces, nonce, ts, after)
  {
    hide Newest, Unexpired, Kept, Knows, Prune, SetNonce;
    if q.genuine {
      PruneKeeps(x.nonces, s, q.now, nonce, ts, after);
      var pruned := Prune(x.nonces, s, q.now);
      if Knows(pruned, q.nonce) { PruneOf(x.nonces, s, q.now, q.nonce); }
      SetNew(pruned, q.nonce, q.ts);
      AppendKeeps(pruned, (q.nonce, q.ts), nonce, ts, after);
      NewestKeeps(pruned + [(q.nonce, q.ts)], s.max, nonce, ts, after + 1);
    }
  }

  lemma KeptIsKnown(ns: Nonces, nonce: string, ts: int, after: nat)
    requires Kept(ns, nonce, ts, after)
    ensures Knows(ns, nonce)
  {
    var i :| 0 <= i < |ns| && ns[i] == (nonce, ts) && |ns| - 1 - i <= after;
    assert ns[i].0 == nonce;
  }

  /** What is in flight began by now. */
  predicate BegunBy(x: Sender, from: int) {
    forall q :: q in x.flying ==> q.now <= from
  }

  predicate PublishFlying(flying: multiset<Signed>, nonce: string, ts: int) {
    exists q :: q in flying && q.nonce == nonce && q.ts == ts
  }

  /** The publish is not in flight, and its nonce is kept or can no longer be accepted; or `max` others have been
      accepted. */
  ghost predicate Guarded(x: Sender, s: Settings, nonce: string, ts: int, after: nat, from: int) {
    after >= s.max
    || (!PublishFlying(x.flying, nonce, ts) && (Kept(x.nonces, nonce, ts, after) || from - ts > s.skew))
  }

  lemma GuardKept(x: Sender, s: Settings, step: Step, nonce: string, ts: int, after: nat, from: int)
    requires s.skew <= s.ttl && Single(x) && Enabled(x, step) && BegunBy(x, from)
    requires step.Begins? ==> from <= step.q.now
    requires Guarded(x, s, nonce, ts, after, from)
    ensures after < s.max && Accepts(step) ==> step.q.nonce != nonce || step.q.ts != ts
    ensures Guarded(Next(x, s, step), s, nonce, ts, after + if Accepts(step) then 1 else 0, Later(step, from))
    ensures BegunBy(Next(x, s, step), Later(step, from))
  {
    hide Kept, Prune, Remember, Knows;
    var q, y := step.q, Next(x, s, step);
    assert forall f :: f in y.flying ==> f in x.flying || (step.Begins? && f == q && Begin(x, s, q).1.None?);
    if after < s.max {
      if Kept(x.nonces, nonce, ts, after) {
        if step.Begins? {
          BeginKeeps(x, s, q, nonce, ts, after);
        } else if from - ts <= s.skew {
          FinishKeeps(x, s, q, nonce, ts, after);
        }
      }
    }
  }

  lemma {:induction false} AcceptedOnce(x: Sender, s: Settings, steps: seq<Step>, nonce: string, ts: int, after: nat,
                                        from: int, j: nat)
    requires s.skew <= s.ttl && Single(x) && BegunBy(x, from) && Guarded(x, s, nonce, ts, after, from)
    requires IsRun(x, s, steps, from) && NoneDoubles(x, s, steps)
    requires j < |steps| && Accepts(steps[j]) && steps[j].q.nonce == nonce && steps[j].q.ts == ts
    ensures after + AcceptedCount(steps[..j]) >= s.max
    decreases |steps|
  {
    hide Kept, Next, Single, BegunBy, Doubles, Guarded, Enabled, Accepts, Later;
    var step := steps[0];
    GuardKept(x, s, step, nonce, ts, after, from);
    if j > 0 {
      StaysSingleIff(x, s, step);
      assert steps[..j][1..] == steps[1..][..j - 1] && steps[..j][0] == step;
      AcceptedOnce(Next(x, s, step), s, steps[1..], nonce, ts, after + if Accepts(step) then 1 else 0,
                   Later(step, from), j - 1);
    } else {
      assert steps[..0] == [];
    }
  }

  // ----------------------------------------------------------------- the window

  /** While no nonce is in flight twice, no signed publish is accepted twice, unless `max` nonces of the sender were
      accepted between. */
  ghost predicate ReplaySafe(s: Settings) {
    forall steps: seq<Step>, from: int, i: nat, j: nat ::
      IsRun(NEW_SENDER, s, steps, from) && NoneDoubles(NEW_SENDER, s, steps) && AcceptedBoth(steps, i, j) ==>
      AcceptedCount(steps[i + 1..j]) >= s.max
  }

  predicate AcceptedBoth(steps: seq<Step>, i: nat, j: nat) {
    && i < j < |steps| && Accepts(steps[i]) && Accepts(steps[j])
    && steps[i].q.nonce == steps[j].q.nonce && steps[i].q.ts == steps[j].q.ts
  }

  lemma {:induction false} FromFirst(x: Sender, s: Settings, steps: seq<Step>, from: int, i: nat, j: nat)
    requires s.skew <= s.ttl && s.max > 0 && Single(x) && BegunBy(x, from)
    requires IsRun(x, s, steps, from) && NoneDoubles(x, s, steps) && AcceptedBoth(steps, i, j)
    ensures AcceptedCount(steps[i + 1..j]) >= s.max
    decreases |steps|
  {
    hide Next, Single, BegunBy, Doubles, Enabled, Kept, Guarded, Later;
    var step, rest := steps[0], steps[1..];
    StaysSingleIff(x, s, step);
    Begun(x, s, step, from);
    assert |steps[i + 1..j]| == |rest[i..j - 1]| == j - 1 - i;
    assert steps[i + 1..j] == rest[i..j - 1];
    if i == 0 {
      JustRemembered(x, s, step, Later(step, from));
      AcceptedOnce(Next(x, s, step), s, rest, step.q.nonce, step.q.ts, 0, Later(step, from), j - 1);
      assert rest[0..j - 1] == rest[..j - 1];
    } else {
      FromFirst(Next(x, s, step), s, rest, Later(step, from), i - 1, j - 1);
    }
  }

  lemma Begun(x: Sender, s: Settings, step: Step, from: int)
    requires Enabled(x, step) && BegunBy(x, from) && (step.Begins? ==> from <= step.q.now)
    ensures BegunBy(Next(x, s, step), Later(step, from))
  {
    hide Prune, Remember, Knows;
    var y := Next(x, s, step);
    assert forall f :: f in y.flying ==> f in x.flying || (step.Begins? && f == step.q);
  }

  lemma JustRemembered(x: Sender, s: Settings, step: Step, from: int)
    requires Single(x) && Enabled(x, step) && Accepts(step) && s.max > 0
    ensures Guarded(Next(x, s, step), s, step.q.nonce, step.q.ts, 0, from)
  {
    hide Unexpired, Knows, Newest;
    var q := step.q;
    var pruned := Prune(x.nonces, s, q.now);
    if Knows(pruned, q.nonce) { PruneOf(x.nonces, s, q.now, q.nonce); }
    SetNew(pruned, q.nonce, q.ts);
    var all := pruned + [(q.nonce, q.ts)];
    assert all[|all| - 1] == (q.nonce, q.ts);
    assert Kept(all, q.nonce, q.ts, 0);
    NewestKeeps(all, s.max, q.nonce, q.ts, 0);
    assert x.flying[q] == 1;
    assert forall f :: f in Next(x, s, step).flying ==> f in x.flying && f != q;
  }

  /** The window is long enough exactly when nonces live as long as the clock may be off. */
  lemma ReplaySafeIff(s: Settings)
    requires s.max > 0
    ensures ReplaySafe(s) <==> s.ttl >= s.skew
  {
    if s.ttl >= s.skew {
      forall steps: seq<Step>, from: int, i: nat, j: nat
        | IsRun(NEW_SENDER, s, steps, from) && NoneDoubles(NEW_SENDER, s, steps) && AcceptedBoth(steps, i, j)
        ensures AcceptedCount(steps[i + 1..j]) >= s.max {
        FromFirst(NEW_SENDER, s, steps, from, i, j);
      }
    } else {
      ReplayedTwice(s);
    }
  }

  lemma RunFrom(x: Sender, s: Settings, step: Step, rest: seq<Step>, from: int)
    requires Enabled(x, step) && (step.Begins? ==> from <= step.q.now)
    requires IsRun(Next(x, s, step), s, rest, Later(step, from))
    ensures IsRun(x, s, [step] + rest, from)
    ensures !Doubles(x, s, step) && NoneDoubles(Next(x, s, step), s, rest) ==> NoneDoubles(x, s, [step] + rest)
  {
    hide Next, Enabled, Doubles, Later;
    assert ([step] + rest)[1..] == rest;
  }

  lemma NoSteps(x: Sender, s: Settings, from: int)
    ensures IsRun(x, s, [], from) && NoneDoubles(x, s, [])
  {}

  /** With a shorter life a publish dated ahead is accepted, forgotten, and accepted again. */
  lemma ReplayedTwice(s: Settings)
    requires s.max > 0 && s.ttl < s.skew
    ensures !ReplaySafe(s)
  {
    var first, second := Signed("n", s.skew, 0, true), Signed("n", s.skew, 2 * s.skew, true);
    var a, b, c, d := Begins(first), Finishes(first), Begins(second), Finishes(second);
    var known: Nonces := [("n", s.skew as int)];
    var x1 := Sender([], multiset{first});
    var x2 := Sender(known, multiset{});
    var x3 := Sender([], multiset{second});
    assert known[1..] == [] && [] + known == known;
    assert Unexpired(known, s.ttl, second.now) == [];
    assert Next(NEW_SENDER, s, a) == x1;
    assert Next(x1, s, b) == x2;
    assert Next(x2, s, c) == x3;
    hide Next, Doubles;
    assert !Doubles(x1, s, b) && !Doubles(x3, s, d) by { NotDouble(x1, s, b); NotDouble(x3, s, d); }
    assert !Doubles(NEW_SENDER, s, a) && !Doubles(x2, s, c) by { NoneFlying(NEW_SENDER, s, a); NoneFlying(x2, s, c); }
    NoSteps(Next(x3, s, d), s, second.now);
    RunFrom(x3, s, d, [], second.now);
    RunFrom(x2, s, c, [d] + [], 0);
    RunFrom(x1, s, b, [c] + ([d] + []), 0);
    RunFrom(NEW_SENDER, s, a, [b] + ([c] + ([d] + [])), 0);
    var steps := [a] + ([b] + ([c] + ([d] + [])));
    assert steps[1] == b && steps[3] == d && steps[2..3] == [c];
    assert AcceptedBoth(steps, 1, 3);
    assert AcceptedCount([c]) == 0;
  }

  lemma NotDouble(x: Sender, s: Settings, step: Step)
    requires step.Finishes?
    ensures !Doubles(x, s, step)
  {}

  lemma NoneFlying(x: Sender, s: Settings, step: Step)
    requires x.flying == multiset{}
    ensures !Doubles(x, s, step)
  {}

  /** Whatever the settings, two copies of a publish whose signatures are checked at the same time are both accepted,
      with none between. */
  lemma AcceptedTogether(x: Sender, s: Settings, q: Signed)
    requires q in x.flying && q.genuine && Begin(x, s, q).1.None?
    ensures Doubles(x, s, Begins(q))
    ensures var steps := [Begins(q)] + ([Finishes(q)] + ([Finishes(q)] + []));
            IsRun(x, s, steps, q.now) && AcceptedBoth(steps, 1, 2) && AcceptedCount(steps[2..2]) == 0
  {
    hide Prune, Remember, Knows, IsRun;
    var y := Next(x, s, Begins(q));
    assert y.flying[q] >= 2;
    var z := Next(y, s, Finishes(q));
    assert z.flying[q] >= 1;
    NoSteps(Next(z, s, Finishes(q)), s, q.now);
    hide Next;
    RunFrom(z, s, Finishes(q), [], q.now);
    RunFrom(y, s, Finishes(q), [Finishes(q)] + [], q.now);
    RunFrom(x, s, Begins(q), [Finishes(q)] + ([Finishes(q)] + []), q.now);
    var steps := [Begins(q)] + ([Finishes(q)] + ([Finishes(q)] + []));
    assert steps[1] == Finishes(q) && steps[2] == Finishes(q);
  }

  // ------------------------------------------------------------ no false alarms

  /** Every nonce remembered is one of these. */
  ghost predicate OnlyFrom(ns: Nonces, seen: set<string>) {
    forall nonce :: Knows(ns, nonce) ==> nonce in seen
  }

  predicate CalledReplay(x: Sender, s: Settings, step: Step) {
    step.Begins? && Begin(x, s, step.q).1 == Some(Replayed)
  }

  lemma NextFrom(x: Sender, s: Settings, step: Step, seen: set<string>)
    requires OnlyFrom(x.nonces, seen)
    ensures OnlyFrom(Next(x, s, step).nonces, if Accepts(step) then seen + {step.q.nonce} else seen)
    ensures CalledReplay(x, s, step) ==> step.q.nonce in seen
  {
    hide Knows, Prune, Remember;
    var q, y := step.q, Next(x, s, step);
    forall nonce | Knows(Prune(x.nonces, s, q.now), nonce) ensures nonce in seen { PruneOf(x.nonces, s, q.now, nonce); }
    forall nonce | Knows(Remember(x.nonces, s, q.nonce, q.ts, q.now), nonce) && nonce != q.nonce ensures nonce in seen {
      RememberOf(x.nonces, s, q, nonce);
    }
  }

  /** The sender after some steps. */
  function After(x: Sender, s: Settings, steps: seq<Step>): Sender
    decreases |steps|
  {
    if steps == [] then x else After(Next(x, s, steps[0]), s, steps[1..])
  }

  /** Only a nonce the sender has had accepted before is ever called a replay. */
  lemma {:induction false} NoFalseReplay(x: Sender, s: Settings, steps: seq<Step>, seen: set<string>, j: nat)
    requires OnlyFrom(x.nonces, seen) && j < |steps| && CalledReplay(After(x, s, steps[..j]), s, steps[j])
    ensures steps[j].q.nonce in seen ||
               exists i :: 0 <= i < j && Accepts(steps[i]) && steps[i].q.nonce == steps[j].q.nonce
    decreases |steps|
  {
    hide Next, OnlyFrom, CalledReplay, Accepts;
    var step, rest := steps[0], steps[1..];
    NextFrom(x, s, step, seen);
    if j > 0 {
      assert steps[..j][1..] == rest[..j - 1] && steps[..j][0] == step;
      var more := if Accepts(step) then seen + {step.q.nonce} else seen;
      NoFalseReplay(Next(x, s, step), s, rest, more, j - 1);
      if steps[j].q.nonce !in seen {
        if steps[j].q.nonce in more {
          assert Accepts(steps[0]) && steps[0].q.nonce == steps[j].q.nonce;
        } else {
          var i :| 0 <= i < j - 1 && Accepts(rest[i]) && rest[i].q.nonce == rest[j - 1].q.nonce;
          assert Accepts(steps[i + 1]) && steps[i + 1].q.nonce == steps[j].q.nonce;
        }
      }
    }
  }

  // ------------------------------------------------------------------- handler

  class NonceRegistry {
    const settings: Settings
    var noncesBySender: map<string, Nonces>
    var flying: map<string, multiset<Signed>>

    constructor (settings: Settings)
      ensures this.settings == settings && forall sender :: Contents(sender) == NEW_SENDER
    {
      this.settings := settings;
      noncesBySender, flying := map[], map[];
    }

    function FlyingOf(sender: string): multiset<Signed>
      reads this
    {
      if sender in flying then flying[sender] else multiset{}
    }

    function Contents(sender: string): Sender
      reads this
    {
      Sender(NoncesOf(sender), FlyingOf(sender))
    }

    function NoncesOf(sender: string): Nonces
      reads this
    {
      if sender in noncesBySender then noncesBySender[sender] else []
    }

    method PruneSenderNonces(sender: string, now: int) returns (kept: Nonces)
      modifies this`noncesBySender
      ensures kept == Prune(old(NoncesOf(sender)), settings, now)
      ensures noncesBySender == old(noncesBySender)[sender := kept]
    {
      var all := NoncesOf(sender);
      kept := [];
      for i := 0 to |all|
        invariant kept + Unexpired(all[i..], settings.ttl, now) == Unexpired(all, settings.ttl, now)
      {
        assert all[i..][1..] == all[i + 1..];
        if now - all[i].1 <= settings.ttl {
          kept := kept + [all[i]];
        }
      }
      kept := DropOldest(kept);
      noncesBySender := noncesBySender[sender := kept];
    }

    method DropOldest(ns: Nonces) returns (kept: Nonces)
      ensures kept == Newest(ns, settings.max)
    {
      kept := ns;
      while |kept| > settings.max
        invariant |kept| <= |ns| && kept == ns[|ns| - |kept|..]
        invariant |ns| > settings.max ==> |kept| >= settings.max
        invariant |ns| <= settings.max ==> kept == ns
      {
        kept := kept[1..];
      }
    }

    method IsReplayNonce(sender: string, nonce: string, now: int) returns (replayed: bool)
      modifies this`noncesBySender
      ensures var pruned := Prune(old(NoncesOf(sender)), settings, now);
              replayed == Knows(pruned, nonce) && noncesBySender == old(noncesBySender)[sender := pruned]
    {
      var kept := PruneSenderNonces(sender, now);
      replayed := Knows(kept, nonce);
    }

    method RememberNonce(sender: string, nonce: string, ts: int, now: int)
      modifies this`noncesBySender
      ensures noncesBySender == old(noncesBySender)[sender := Remember(old(NoncesOf(sender)), settings, nonce, ts, now)]
    {
      var kept := PruneSenderNonces(sender, now);
      kept := DropOldest(SetNonce(kept, nonce, ts));
      noncesBySender := noncesBySender[sender := kept];
    }

    /** Up to the await of the signature check. */
    method VerifyPublish(sender: string, q: Signed) returns (refused: Option<Verdict>)
      modifies this
      ensures (Contents(sender), refused) == Begin(old(Contents(sender)), settings, q)
      ensures forall other :: other != sender ==> Contents(other) == old(Contents(other))
    {
      hide Prune, Knows;
      if q.now - q.ts > settings.skew || q.ts - q.now > settings.skew {
        return Some(Stale);
      }
      var replayed := IsReplayNonce(sender, q.nonce, q.now);
      if replayed {
        return Some(Replayed);
      }
      flying := flying[sender := FlyingOf(sender) + multiset{q}];
      refused := None;
    }

    /** From the result of the signature and key checks on. */
    method ResumeVerify(sender: string, q: Signed) returns (verdict: Verdict)
      requires q in FlyingOf(sender)
      modifies this
      ensures (Contents(sender), verdict) == Finish(old(Contents(sender)), settings, q)
      ensures forall other :: other != sender ==> Contents(other) == old(Contents(other))
    {
      hide Remember;
      flying := flying[sender := FlyingOf(sender) - multiset{q}];
      if !q.genuine {
        return Forged;
      }
      RememberNonce(sender, q.nonce, q.ts, q.now);
      verdict := Accepted;
    }
  }
}
