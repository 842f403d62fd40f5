/** What the two snapshot policies promise when envelopes are delivered out of order
    (src/relay_cache_adapter.ts, `shouldUpdateSnapshotBySourcePolicy`). */
module IssuePolicies {
  import opened Options
  import opened CacheExchange
  import opened IssueProjection
  import opened IssueIndex

  ghost predicate AllTimed(events: set<Event>) {
    forall e :: e in events ==> e.time.Some?
  }

  /** The event of greatest time, and of those the one processed last. */
  ghost predicate Newest(e: Event, events: set<Event>) {
    e in events && e.time.Some? && forall f :: f in events && f.time.Some? ==>
      f.time.value <= e.time.value && (f.time == e.time ==> f.cursor <= e.cursor)
  }

  /** Under `last_write` the snapshot holds the greatest time delivered so far, and the last envelope
      processed with it. */
  lemma {:induction false} LastWriteKeepsNewest(events: set<Event>)
    requires OneEventPerCursor(events) && AllTimed(events) && events != {}
    ensures exists e :: Newest(e, events) && Fold(LastWrite, events) == Some(SnapshotOf(e))
    decreases events
  {
    hide Fold, Newest;
    LastEvent(LastWrite, events);
    var last :|
      IsLast(last, events) && Fold(LastWrite, events) == Step(LastWrite, Fold(LastWrite, events - {last}), last);
    var rest := events - {last};
    if rest == {} {
      assert events == {last};
      NoEvents(LastWrite);
      OnlyEvent(last);
    } else {
      LastWriteKeepsNewest(rest);
      var e :| Newest(e, rest) && Fold(LastWrite, rest) == Some(SnapshotOf(e));
      NewestStep(events, last, e);
    }
  }

  lemma NoEvents(p: Policy)
    ensures Fold(p, {}) == None
  {}

  lemma OnlyEvent(e: Event)
    requires e.time.Some?
    ensures Newest(e, {e})
  {}

  lemma NewestStep(events: set<Event>, last: Event, e: Event)
    requires IsLast(last, events) && AllTimed(events) && Newest(e, events - {last})
    ensures last.time.Some? && e.time.Some? && Newest(if last.time.value < e.time.value then e else last, events)
  {}

  ghost predicate DistinctTimes(events: set<Event>) {
    forall e, f :: e in events && f in events && e.time == f.time ==> e.envelope == f.envelope
  }

  /** What was delivered, whatever the order. */
  ghost function Deliveries(events: set<Event>): set<(Envelope, Option<nat>)> {
    set e | e in events :: (e.envelope, e.time)
  }

  /** With distinct times the final envelope does not depend on the order of delivery. */
  lemma DeliveryOrderFree(a: set<Event>, b: set<Event>)
    requires OneEventPerCursor(a) && OneEventPerCursor(b) && AllTimed(a) && AllTimed(b) && DistinctTimes(a)
    requires Deliveries(a) == Deliveries(b) && a != {}
    ensures var x, y := Fold(LastWrite, a), Fold(LastWrite, b);
            x.Some? && y.Some? && x.value.envelope == y.value.envelope && x.value.time == y.value.time
  {
    hide Fold, Newest, OneEventPerCursor, AllTimed, DistinctTimes, Deliveries;
    var some :| some in a;
    Delivered(a, b, some);
    LastWriteKeepsNewest(a);
    LastWriteKeepsNewest(b);
    var e :| Newest(e, a) && Fold(LastWrite, a) == Some(SnapshotOf(e));
    var f :| Newest(f, b) && Fold(LastWrite, b) == Some(SnapshotOf(f));
    NewestAgree(a, b, e, f);
  }

  lemma NewestAgree(a: set<Event>, b: set<Event>, e: Event, f: Event)
    requires AllTimed(a) && AllTimed(b) && DistinctTimes(a) && Deliveries(a) == Deliveries(b)
    requires Newest(e, a) && Newest(f, b)
    ensures e.envelope == f.envelope && e.time == f.time
  {
    hide DistinctTimes, Deliveries, Newest, AllTimed;
    assert e in a && f in b by { NewestIn(e, a); NewestIn(f, b); }
    Delivered(a, b, e);
    Delivered(b, a, f);
    var g :| g in b && g.envelope == e.envelope && g.time == e.time;
    var h :| h in a && f.envelope == h.envelope && f.time == h.time;
    NewestBound(e, a, h);
    NewestBound(f, b, g);
    SameTimeSameEnvelope(a, h, e);
  }

  lemma Delivered(a: set<Event>, b: set<Event>, e: Event)
    requires Deliveries(a) == Deliveries(b) && e in a
    ensures exists g :: g in b && g.envelope == e.envelope && g.time == e.time
  {
    assert (e.envelope, e.time) in Deliveries(b);
  }

  lemma NewestIn(e: Event, events: set<Event>)
    requires Newest(e, events)
    ensures e in events
  {}

  lemma NewestBound(e: Event, events: set<Event>, f: Event)
    requires Newest(e, events) && AllTimed(events) && f in events
    ensures e in events && e.time.Some? && f.time.Some? && f.time.value <= e.time.value
  {}

  lemma SameTimeSameEnvelope(a: set<Event>, e: Event, f: Event)
    requires DistinctTimes(a) && e in a && f in a && e.time == f.time
    ensures e.envelope == f.envelope
  {}

  predicate FromSource(s: Option<Snapshot>, source: Source) {
    s.Some? && SourceOf(s.value.envelope.payload) == source
  }

  /** Under a preferred source, a snapshot from it is never replaced by one from another source. */
  lemma {:induction false} PreferredStays(source: Source, before: set<Event>, later: set<Event>)
    requires OneEventPerCursor(before + later)
    requires forall e, f :: e in before && f in later ==> e.cursor < f.cursor
    requires FromSource(Fold(Prefer(source), before), source)
    ensures FromSource(Fold(Prefer(source), before + later), source)
    decreases later
  {
    hide Fold, Step, FromSource;
    var p, all := Prefer(source), before + later;
    if later == {} {
      assert all == before;
    } else {
      LastEvent(p, all);
      var last :| IsLast(last, all) && Fold(p, all) == Step(p, Fold(p, all - {last}), last);
      var some :| some in later;
      assert last in later by { assert some in all; }
      assert all - {last} == before + (later - {last});
      PreferredStays(source, before, later - {last});
      StepKeepsSource(source, Fold(p, all - {last}), last);
    }
  }

  /** A later event from the preferred source takes over unless the source dates it before what is
      shown. */
  lemma PreferredTakesOver(source: Source, events: set<Event>, e: Event)
    requires OneEventPerCursor(events) && forall f :: f in events ==> f.cursor < e.cursor
    requires SourceOf(e.envelope.payload) == source
    requires var shown := Fold(Prefer(source), events); shown.Some? ==> !OlderByTimestamp(e.time, shown.value.time)
    ensures OneEventPerCursor(events + {e}) && Fold(Prefer(source), events + {e}) == Some(SnapshotOf(e))
  {
    hide SourceOf, Fold;
    FoldAppend(Prefer(source), events, e);
  }

  lemma LastEvent(p: Policy, events: set<Event>)
    requires OneEventPerCursor(events) && events != {}
    ensures exists last :: IsLast(last, events) && Fold(p, events) == Step(p, Fold(p, events - {last}), last)
  {
    LastExists(events);
    var last :| IsLast(last, events) && Fold(p, events) == Step(p, Fold(p, events - {last}), last);
  }

  lemma StepKeepsSource(source: Source, existing: Option<Snapshot>, e: Event)
    requires FromSource(existing, source)
    ensures FromSource(Step(Prefer(source), existing, e), source)
  {
    hide SourceOf;
  }
}
