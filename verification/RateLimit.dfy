/** The publish rate limits (src/memory_handler.ts, `fallbackRateLimit` and its three uses). */
module RateLimit {
  import opened Options

  datatype Counter = Counter(count: nat, windowStart: nat)

  datatype Limits = Limits(windowMs: nat, ip: nat, sender: nat, room: nat)

  datatype Level = ByIp | BySender | ByRoom

  datatype Counts = Counts(ip: map<string, Counter>, sender: map<string, Counter>, room: map<string, Counter>)

  datatype Publish = Publish(ip: string, sender: string, room: string, now: nat)

  function Fallback(entry: Option<Counter>, now: nat, windowMs: nat): Counter {
    if entry.None? || now - entry.value.windowStart >= windowMs then Counter(1, now)
    else Counter(entry.value.count + 1, entry.value.windowStart)
  }

  function Lookup(m: map<string, Counter>, key: string): Option<Counter> {
    if key in m then Some(m[key]) else None
  }

  /** Counts the publish at each level until one denies it; an unknown address is not limited. */
  function Admit(c: Counts, l: Limits, p: Publish): (Counts, Option<Level>) {
    var ip := Fallback(Lookup(c.ip, p.ip), p.now, l.windowMs);
    var counted := if p.ip == "" then c else c.(ip := c.ip[p.ip := ip]);
    if p.ip != "" && ip.count > l.ip then (counted, Some(ByIp))
    else
      var sender := Fallback(Lookup(c.sender, p.sender), p.now, l.windowMs);
      var known := counted.(sender := c.sender[p.sender := sender]);
      if sender.count > l.sender then (known, Some(BySender))
      else
        var room := Fallback(Lookup(c.room, p.room), p.now, l.windowMs);
        (known.(room := c.room[p.room := room]), if room.count > l.room then Some(ByRoom) else None)
  }

  // ----------------------------------------------------------------- counting

  function KeyAt(p: Publish, level: Level): string {
    match level
    case ByIp => p.ip
    case BySender => p.sender
    case ByRoom => p.room
  }

  function MaxAt(l: Limits, level: Level): nat {
    match level
    case ByIp => l.ip
    case BySender => l.sender
    case ByRoom => l.room
  }

  function EntryAt(c: Counts, level: Level, key: string): Option<Counter> {
    match level
    case ByIp => Lookup(c.ip, key)
    case BySender => Lookup(c.sender, key)
    case ByRoom => Lookup(c.room, key)
  }

  predicate ClockNeverBack(ps: seq<Publish>, from: nat) {
    ps == [] || (from <= ps[0].now && ClockNeverBack(ps[1..], ps[0].now))
  }

  /** How many publishes of a key are admitted in the half-open interval [lo, hi). */
  function Admitted(c: Counts, l: Limits, ps: seq<Publish>, level: Level, key: string, lo: nat, hi: nat): nat
    decreases |ps|
  {
    if ps == [] then 0
    else
      var (next, denied) := Admit(c, l, ps[0]);
      (if denied.None? && KeyAt(ps[0], level) == key && lo <= ps[0].now < hi then 1 else 0)
      + Admitted(next, l, ps[1..], level, key, lo, hi)
  }

  /** A publish counts a key at most once, and is admitted only within the key's limit. */
  lemma AdmitCounts(c: Counts, l: Limits, p: Publish, level: Level, key: string)
    requires key != ""
    ensures var (next, denied) := Admit(c, l, p);
      var before, after := EntryAt(c, level, key), EntryAt(next, level, key);
      var counted := Fallback(before, p.now, l.windowMs);
      && (after == before || after == Some(counted))
      && (denied.None? && KeyAt(p, level) == key ==> after == Some(counted) && counted.count <= MaxAt(l, level))
  {}

  /** The key has room for one more publish at this time. */
  predicate Allows(e: Option<Counter>, max: nat, now: nat, windowMs: nat) {
    if e.None? || now - e.value.windowStart >= windowMs then max > 0 else e.value.count < max
  }

  /** A publish is admitted exactly when its address (if known), its sender and its room all have room
      for one more; otherwise the first of them that has none denies it. */
  lemma AdmittedIff(c: Counts, l: Limits, p: Publish)
    ensures var denied := Admit(c, l, p).1;
      var ip := p.ip == "" || Allows(EntryAt(c, ByIp, p.ip), l.ip, p.now, l.windowMs);
      var sender := Allows(EntryAt(c, BySender, p.sender), l.sender, p.now, l.windowMs);
      var room := Allows(EntryAt(c, ByRoom, p.room), l.room, p.now, l.windowMs);
      denied == if !ip then Some(ByIp) else if !sender then Some(BySender) else if !room then Some(ByRoom) else None
  {
    assert Allows(EntryAt(c, ByIp, p.ip), l.ip, p.now, l.windowMs)
      <==> Fallback(EntryAt(c, ByIp, p.ip), p.now, l.windowMs).count <= l.ip;
  }

  /** One publish more: in the window that is open, or as the first of a new one. */
  predicate CountsOne(before: Option<Counter>, after: Option<Counter>, now: nat, windowMs: nat) {
    if before.Some? && now - before.value.windowStart < windowMs
    then after == Some(Counter(before.value.count + 1, before.value.windowStart))
    else after == Some(Counter(1, now))
  }

  /** Which levels count a publish: the address, if known; the sender unless the address is denied; the room unless the
      address or the sender is. No other key is counted. */
  lemma AdmitIs(c: Counts, l: Limits, p: Publish, level: Level, key: string)
    ensures var (next, denied) := Admit(c, l, p);
      var reached := match level
        case ByIp => p.ip != ""
        case BySender => denied != Some(ByIp)
        case ByRoom => denied != Some(ByIp) && denied != Some(BySender);
      if reached && key == KeyAt(p, level) then
        CountsOne(EntryAt(c, level, key), EntryAt(next, level, key), p.now, l.windowMs)
      else EntryAt(next, level, key) == EntryAt(c, level, key)
  {}

  /** What a key can still be granted in an interval, given its counter. */
  function Left(e: Option<Counter>, max: nat, windowMs: nat, lo: nat, from: nat): nat {
    if from >= lo + windowMs || max == 0 then 0
    else if e.None? || e.value.windowStart + windowMs < lo then 2 * max - 1
    else
      var remaining := if e.value.count < max then max - e.value.count else 0;
      if e.value.windowStart >= lo then remaining else remaining + max
  }

  predicate Sensible(e: Option<Counter>, from: nat) {
    e.Some? ==> 1 <= e.value.count && e.value.windowStart <= from
  }

  lemma LeftAfter(e: Option<Counter>, max: nat, windowMs: nat, lo: nat, from: nat, now: nat)
    requires Sensible(e, from) && from <= now
    ensures Sensible(e, now) && Left(e, max, windowMs, lo, now) <= Left(e, max, windowMs, lo, from)
    ensures var next := Fallback(e, now, windowMs);
      && Sensible(Some(next), now)
      && (if next.count <= max && lo <= now < lo + windowMs then 1 else 0) + Left(Some(next), max, windowMs, lo, now)
         <= Left(e, max, windowMs, lo, from)
  {}

  lemma {:induction false} AdmittedAtMost(c: Counts, l: Limits, ps: seq<Publish>, level: Level, key: string,
                                          lo: nat, from: nat)
    requires key != "" && ClockNeverBack(ps, from) && Sensible(EntryAt(c, level, key), from)
    ensures Admitted(c, l, ps, level, key, lo, lo + l.windowMs)
         <= Left(EntryAt(c, level, key), MaxAt(l, level), l.windowMs, lo, from)
    decreases |ps|
  {
    hide Left, Sensible, EntryAt, Fallback, Admit;
    if ps != [] {
      var p := ps[0];
      AdmitCounts(c, l, p, level, key);
      LeftAfter(EntryAt(c, level, key), MaxAt(l, level), l.windowMs, lo, from, p.now);
      AdmittedAtMost(Admit(c, l, p).0, l, ps[1..], level, key, lo, p.now);
    }
  }

  /** In any half-open interval of one window's length, whatever else is published or denied, an
      address, sender or room is admitted at most 2 * max - 1 times (never, if its limit is 0). */
  lemma IntervalBound(l: Limits, ps: seq<Publish>, level: Level, key: string, lo: nat)
    requires key != "" && ClockNeverBack(ps, 0)
    ensures var n, max := Admitted(Counts(map[], map[], map[]), l, ps, level, key, lo, lo + l.windowMs),
                   MaxAt(l, level);
            if max == 0 then n == 0 else n <= 2 * max - 1
  {
    AdmittedAtMost(Counts(map[], map[], map[]), l, ps, level, key, lo, 0);
  }

  /** What a key can still be granted at the instant `lo`, given its counter. */
  function LeftAt(e: Option<Counter>, max: nat, lo: nat, from: nat): nat {
    if from > lo then 0
    else if e.Some? && e.value.windowStart == lo then (if e.value.count < max then max - e.value.count else 0)
    else max
  }

  lemma LeftAtAfter(e: Option<Counter>, max: nat, lo: nat, from: nat, now: nat)
    requires Sensible(e, from) && from <= now
    ensures Sensible(e, now) && LeftAt(e, max, lo, now) <= LeftAt(e, max, lo, from)
    ensures var next := Fallback(e, now, 1);
      && Sensible(Some(next), now)
      && (if next.count <= max && now == lo then 1 else 0) + LeftAt(Some(next), max, lo, now)
         <= LeftAt(e, max, lo, from)
  {}

  /** A window of one millisecond is a single instant, in which at most max are admitted. */
  lemma {:induction false} InstantBound(c: Counts, l: Limits, ps: seq<Publish>, level: Level, key: string, lo: nat,
                                        from: nat)
    requires key != "" && ClockNeverBack(ps, from) && Sensible(EntryAt(c, level, key), from) && l.windowMs == 1
    ensures Admitted(c, l, ps, level, key, lo, lo + 1) <= LeftAt(EntryAt(c, level, key), MaxAt(l, level), lo, from)
    ensures Admitted(c, l, ps, level, key, lo, lo + 1) <= MaxAt(l, level)
    decreases |ps|
  {
    hide Sensible, EntryAt, Fallback, Admit, MaxAt;
    if ps != [] {
      var p := ps[0];
      AdmitCounts(c, l, p, level, key);
      LeftAtAfter(EntryAt(c, level, key), MaxAt(l, level), lo, from, p.now);
      InstantBound(Admit(c, l, p).0, l, ps[1..], level, key, lo, p.now);
    }
  }

  /** From the publish that opens a window on, at most max are admitted until the window ends. */
  lemma WindowBound(c: Counts, l: Limits, ps: seq<Publish>, level: Level, key: string)
    requires key != "" && ps != [] && ClockNeverBack(ps, ps[0].now) && Sensible(EntryAt(c, level, key), ps[0].now)
    requires EntryAt(Admit(c, l, ps[0]).0, level, key) == Some(Counter(1, ps[0].now))
    ensures Admitted(c, l, ps, level, key, ps[0].now, ps[0].now + l.windowMs) <= MaxAt(l, level)
  {
    hide Admit, EntryAt, Fallback;
    var now := ps[0].now;
    AdmitCounts(c, l, ps[0], level, key);
    AdmittedAtMost(Admit(c, l, ps[0]).0, l, ps[1..], level, key, now, now);
  }

  // ------------------------------------------------------------- the bound is reached

  /** A publish of one address, one sender and one room. */
  function Hit(now: nat): Publish { Publish("i", "s", "r", now) }

  function Hits(k: nat, now: nat): (ps: seq<Publish>)
    ensures |ps| == k && forall i :: 0 <= i < k ==> ps[i] == Hit(now)
  {
    seq(k, _ => Hit(now))
  }

  /** All three have been counted alike. */
  function Alike(n: nat, start: nat): Counts {
    var counter := Counter(n, start);
    Counts(map["i" := counter], map["s" := counter], map["r" := counter])
  }

  const NO_COUNTS := Counts(map[], map[], map[])

  predicate NoneTighter(l: Limits, max: nat) { max <= l.ip && max <= l.sender && max <= l.room }

  lemma OpeningHit(c: Counts, l: Limits, n: nat, start: nat, now: nat)
    requires c == NO_COUNTS || (c == Alike(n, start) && start + l.windowMs <= now)
    requires NoneTighter(l, 1)
    ensures Admit(c, l, Hit(now)) == (Alike(1, now), None)
  {
    var counter := Counter(1, now);
    assert c.ip["i" := counter] == map["i" := counter];
    assert c.sender["s" := counter] == map["s" := counter];
    assert c.room["r" := counter] == map["r" := counter];
  }

  lemma LaterHit(l: Limits, n: nat, start: nat, now: nat)
    requires start <= now < start + l.windowMs && NoneTighter(l, n + 1)
    ensures Admit(Alike(n, start), l, Hit(now)) == (Alike(n + 1, start), None)
  {
    var c, counter := Alike(n, start), Counter(n + 1, start);
    assert c.ip["i" := counter] == map["i" := counter];
    assert c.sender["s" := counter] == map["s" := counter];
    assert c.room["r" := counter] == map["r" := counter];
  }

  lemma AdmittedStep(c: Counts, l: Limits, p: Publish, rest: seq<Publish>, level: Level, lo: nat)
    ensures var (next, denied) := Admit(c, l, p);
      var key := KeyAt(Hit(0), level);
      Admitted(c, l, [p] + rest, level, key, lo, lo + l.windowMs)
      == (if denied.None? && KeyAt(p, level) == key && lo <= p.now < lo + l.windowMs then 1 else 0)
         + Admitted(next, l, rest, level, key, lo, lo + l.windowMs)
  {
    assert ([p] + rest)[1..] == rest;
  }

  /** Hits within the open window are admitted while there is room. */
  lemma {:induction false} HitsAdmitted(l: Limits, level: Level, n: nat, start: nat, k: nat, now: nat,
                                        rest: seq<Publish>, lo: nat)
    requires start <= now < start + l.windowMs && NoneTighter(l, n + k)
    ensures var key := KeyAt(Hit(0), level);
      Admitted(Alike(n, start), l, Hits(k, now) + rest, level, key, lo, lo + l.windowMs)
      == (if lo <= now < lo + l.windowMs then k else 0)
         + Admitted(Alike(n + k, start), l, rest, level, key, lo, lo + l.windowMs)
    decreases k
  {
    hide Admitted, Admit, Alike;
    if k == 0 {
      assert Hits(k, now) + rest == rest;
    } else {
      assert Hits(k, now) + rest == [Hit(now)] + (Hits(k - 1, now) + rest);
      LaterHit(l, n, start, now);
      AdmittedStep(Alike(n, start), l, Hit(now), Hits(k - 1, now) + rest, level, lo);
      HitsAdmitted(l, level, n + 1, start, k - 1, now, rest, lo);
    }
  }

  lemma {:induction false} HitsInOrder(k: nat, now: nat, rest: seq<Publish>, from: nat)
    requires from <= now && ClockNeverBack(rest, now)
    ensures ClockNeverBack(Hits(k, now) + rest, from)
    decreases k
  {
    if k == 0 {
      assert Hits(k, now) + rest == rest;
    } else {
      assert Hits(k, now) + rest == [Hit(now)] + (Hits(k - 1, now) + rest);
      HitsInOrder(k - 1, now, rest, now);
      ClockStep(Hit(now), Hits(k - 1, now) + rest, from);
    }
  }

  predicate ReachesBound(l: Limits, level: Level, ps: seq<Publish>, lo: nat) {
    && ClockNeverBack(ps, 0)
    && Admitted(NO_COUNTS, l, ps, level, KeyAt(Hit(0), level), lo, lo + l.windowMs) == 2 * MaxAt(l, level) - 1
  }

  /** The interval bound is reached at every level, for every limit that no other level undercuts: one publish opens the
      window, max - 1 come at its end, and max when the next opens. A window of one millisecond is too short for
      that. */
  lemma IntervalBoundTight(l: Limits, level: Level)
    requires var max := MaxAt(l, level); max > 0 && NoneTighter(l, max) && l.windowMs >= 2
    ensures exists ps: seq<Publish>, lo: nat :: ReachesBound(l, level, ps, lo)
  {
    hide Admit, Admitted, ClockNeverBack, Alike;
    var max, w, key := MaxAt(l, level), l.windowMs, KeyAt(Hit(0), level);
    var lo := w - 1;
    var last := Hits(max - 1, w) + [];
    var next := [Hit(w)] + last;
    var late := Hits(max - 1, lo) + next;
    var ps := [Hit(0)] + late;
    NoneAdmitted(Alike(max, w), l, level, key, lo);
    HitsAdmitted(l, level, 1, w, max - 1, w, [], lo);
    OpeningHit(Alike(max, 0), l, max, 0, w);
    AdmittedStep(Alike(max, 0), l, Hit(w), last, level, lo);
    HitsAdmitted(l, level, 1, 0, max - 1, lo, next, lo);
    OpeningHit(NO_COUNTS, l, 0, 0, 0);
    AdmittedStep(NO_COUNTS, l, Hit(0), late, level, lo);
    NoClock(w);
    HitsInOrder(max - 1, w, [], w);
    ClockStep(Hit(w), last, lo);
    HitsInOrder(max - 1, lo, next, 0);
    ClockStep(Hit(0), late, 0);
    assert ReachesBound(l, level, ps, lo);
  }

  lemma NoneAdmitted(c: Counts, l: Limits, level: Level, key: string, lo: nat)
    ensures Admitted(c, l, [], level, key, lo, lo + l.windowMs) == 0
  {}

  lemma NoClock(from: nat)
    ensures ClockNeverBack([], from)
  {}

  lemma ClockStep(p: Publish, rest: seq<Publish>, from: nat)
    requires from <= p.now && ClockNeverBack(rest, p.now)
    ensures ClockNeverBack([p] + rest, from)
  {
    assert ([p] + rest)[1..] == rest;
  }

  class PublishLimiter {
    const limits: Limits
    var ipRateCounts: map<string, Counter>
    var senderRateCounts: map<string, Counter>
    var roomRateCounts: map<string, Counter>

    constructor (limits: Limits)
      ensures this.limits == limits && Contents() == Counts(map[], map[], map[])
    {
      this.limits := limits;
      ipRateCounts, senderRateCounts, roomRateCounts := map[], map[], map[];
    }

    function Contents(): Counts
      reads this
    {
      Counts(ipRateCounts, senderRateCounts, roomRateCounts)
    }

    /** The level that denies the publish, if any. */
    method CheckPublish(p: Publish) returns (denied: Option<Level>)
      modifies this
      ensures (Contents(), denied) == Admit(old(Contents()), limits, p)
    {
      if |p.ip| > 0 {
        var ip := Fallback(Lookup(ipRateCounts, p.ip), p.now, limits.windowMs);
        ipRateCounts := ipRateCounts[p.ip := ip];
        if ip.count > limits.ip {
          return Some(ByIp);
        }
      }
      var sender := Fallback(Lookup(senderRateCounts, p.sender), p.now, limits.windowMs);
      senderRateCounts := senderRateCounts[p.sender := sender];
      if sender.count > limits.sender {
        return Some(BySender);
      }
      var room := Fallback(Lookup(roomRateCounts, p.room), p.now, limits.windowMs);
      roomRateCounts := roomRateCounts[p.room := room];
      denied := if room.count > limits.room then Some(ByRoom) else None;
    }
  }
}
