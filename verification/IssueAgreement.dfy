/** When the snapshots of the issue index agree with its event log: after one task, over runs of tasks, and when an
    agreement that was lost returns (src/relay_cache_adapter.ts, src/cache_persistence_queue.ts). */
module IssueAgreement {
  import opened Options
  import opened Text
  import opened Json
  import opened CacheExchange
  import opened IssueProjection
  import opened IssueIndex
  import opened IssueOverwrite

  /** The log of the envelope's issue is ahead of its snapshot by accepted copies of the envelope. */
  ghost predicate Lags(x: Index, p: Policy, e: Envelope, time: Option<nat>)
    requires IndexOk(x) && WellFormed(e)
  {
    LoggedUnique(x, e.room, IssueId(e));
    var fold := Fold(p, Logged(x, e.room, IssueId(e)));
    && fold.Some? && fold.value.envelope == e && fold.value.time == time
    && fold != SnapshotAt(x, e.room, IssueId(e)) && Accepts(p, SnapshotAt(x, e.room, IssueId(e)), e, time)
    && forall room, issueId :: ValidRoom(room) && !(room == e.room && issueId == IssueId(e)) ==>
         AgreesAt(x, p, room, issueId)
  }

  ghost predicate State(x: Index, p: Policy, e: Envelope, time: Option<nat>, lagging: bool)
    requires IndexOk(x) && WellFormed(e)
  {
    if lagging then Lags(x, p, e, time) else Agrees(x, p)
  }

  lemma LaggingDisagrees(x: Index, p: Policy, e: Envelope, time: Option<nat>)
    requires IndexOk(x) && WellFormed(e) && Lags(x, p, e, time)
    ensures !Agrees(x, p)
  {
    hide Fold, Accepts, Logged, SnapshotAt, IndexOk, IssueId;
    RoomIsValid(e);
    assert !AgreesAt(x, p, e.room, IssueId(e));
  }

  lemma SameState(x: Index, y: Index, p: Policy, e: Envelope, time: Option<nat>, lagging: bool)
    requires IndexOk(x) && IndexOk(y) && SameIndex(x, y) && WellFormed(e) && State(x, p, e, time, lagging)
    ensures State(y, p, e, time, lagging)
  {
    hide Fold, Accepts, Logged, SnapshotAt, IndexOk, IssueId, ValidRoom;
    RoomIsValid(e);
    forall room, issueId | ValidRoom(room) && AgreesAt(x, p, room, issueId) ensures AgreesAt(y, p, room, issueId) {}
  }

  lemma SnapshotBelow(x: Index, room: string, issueId: string)
    requires IndexOk(x) && ValidRoom(room) && SnapshotAt(x, room, issueId).Some?
    ensures SnapshotAt(x, room, issueId).value.lastCursor <= CurrentCursor(x, room)
  {
    hide CurrentCursor;
    var k := SnapshotKey(room, issueId);
    assert Placed(x, k, x.objects[k]);
    SnapshotKeyInjective(x.objects[k].snapshot.room, x.objects[k].snapshot.issueId, room, issueId);
  }

  /** An envelope the policy has accepted is accepted again. */
  lemma AcceptedAgain(p: Policy, e: Envelope, time: Option<nat>, existing: Option<Snapshot>)
    requires existing.Some? && existing.value.envelope == e && existing.value.time == time
    ensures Accepts(p, existing, e, time)
  {}

  /** One attempt that logs the event brings log and snapshot together unless it stops in between. */
  lemma RecordsState(x: Index, y: Index, p: Policy, e: Envelope, time: Option<nat>, t: Try, event: Event,
                     lagging: bool)
    requires IndexOk(x) && IndexOk(y) && WellFormed(e) && State(x, p, e, time, lagging)
    requires Logs(t.fault) && Records(x, y, p, e, time, t, event)
    ensures State(y, p, e, time, !Shows(t.fault) && Accepts(p, SnapshotAt(x, e.room, IssueId(e)), e, time))
    ensures Accepts(p, SnapshotAt(y, e.room, IssueId(e)), e, time)
         == Accepts(p, SnapshotAt(x, e.room, IssueId(e)), e, time)
  {
    hide Fold, Accepts, Logged, SnapshotAt, IndexOk, IssueId, ValidRoom, CurrentCursor, Logs, Shows;
    RoomIsValid(e);
    var id := IssueId(e);
    LoggedUnique(x, e.room, id);
    LoggedUnique(y, e.room, id);
    FoldAppend(p, Logged(x, e.room, id), event);
    assert Logged(y, e.room, id) == Logged(x, e.room, id) + {event};
    if SnapshotAt(x, e.room, id).Some? { SnapshotBelow(x, e.room, id); }
    var before, fold := SnapshotAt(x, e.room, id), Fold(p, Logged(x, e.room, id));
    AcceptedAgain(p, e, time, Some(SnapshotOf(event)));
    if lagging { AcceptedAgain(p, e, time, fold); } else { assert AgreesAt(x, p, e.room, id); }
    forall room, issueId | ValidRoom(room) && !(room == e.room && issueId == id) ensures AgreesAt(y, p, room, issueId) {
      assert AgreesAt(x, p, room, issueId);
      assert Logged(y, room, issueId) == Logged(x, room, issueId);
    }
    if Shows(t.fault) || !Accepts(p, before, e, time) {
      assert AgreesAt(y, p, e.room, id);
    }
  }

  function LastLogging(tries: seq<Try>): Option<Fault> {
    if tries == [] then None
    else
      var rest := LastLogging(tries[1..]);
      if rest.Some? then rest else if Logs(tries[0].fault) then Some(tries[0].fault) else None
  }

  /** The event is logged by some attempt, but not shown by the last one that logs it. */
  predicate LeftUnshown(tries: seq<Try>, lagging: bool, accepted: bool) {
    var last := LastLogging(tries);
    if last.Some? then accepted && !Shows(last.value) else lagging
  }

  lemma AttemptState(x: Index, s: Settings, e: Envelope, hint: Option<int>, t: Try, lagging: bool)
    requires IndexOk(x) && WellFormed(e) && IssueTopic(e.topic)
    requires State(x, s.policy, e, SourceTime(e.payload, s.dateMs), lagging)
    ensures var time := SourceTime(e.payload, s.dateMs);
      var accepted := Accepts(s.policy, SnapshotAt(x, e.room, IssueId(e)), e, time);
      var out := Attempt(x, s, e, hint, t);
      && IndexOk(out.index)
      && State(out.index, s.policy, e, time, if Logs(t.fault) then accepted && !Shows(t.fault) else lagging)
      && Accepts(s.policy, SnapshotAt(out.index, e.room, IssueId(e)), e, time) == accepted
      && (out.ok <==> Completes(t.fault, accepted))
  {
    CompletesLogs(t.fault, Accepted(x, s, e));
    hide Accepts, Logged, SnapshotAt, IndexOk, IssueId, ValidRoom, CurrentCursor, Logs, Shows, State, Completes;
    hide Project, PutPlain, SourceTime, Records, IssueTopic;
    var time := SourceTime(e.payload, s.dateMs);
    RoomIsValid(e);
    NeverShadows(x, e);
    PutPlainKeeps(x, e);
    var stored := PutPlain(x, e);
    SameState(x, stored, s.policy, e, time, lagging);
    PlainLogsNothing(t.fault);
    if !t.fault.AtPlain? {
      ProjectChanges(stored, s, e, hint, t);
      var y := Project(stored, s, e, hint, t).index;
      if Logs(t.fault) {
        var event: Event :| Records(stored, y, s.policy, e, time, t, event);
        RecordsState(stored, y, s.policy, e, time, t, event, lagging);
      } else {
        SameState(stored, y, s.policy, e, time, lagging);
      }
    }
  }

  lemma PlainLogsNothing(f: Fault)
    ensures f.AtPlain? ==> !Logs(f) && !Completes(f, true) && !Completes(f, false)
  {}

  lemma CompletesLogs(f: Fault, accepted: bool)
    ensures Completes(f, accepted) ==> Logs(f) && (accepted ==> Shows(f))
  {}

  /** Some attempt makes no failing write; `accepted` is what the policy says of the envelope. */
  predicate Succeeds(tries: seq<Try>, accepted: bool) {
    exists i :: 0 <= i < |tries| && Completes(tries[i].fault, accepted)
  }

  lemma SucceedsFirst(tries: seq<Try>, accepted: bool)
    requires tries != []
    ensures Succeeds(tries, accepted) <==> Completes(tries[0].fault, accepted) || Succeeds(tries[1..], accepted)
  {
    hide Completes;
    assert forall i :: 0 < i < |tries| ==> tries[i] == tries[1..][i - 1];
  }

  lemma {:induction false} TaskState(x: Index, s: Settings, e: Envelope, hint: Option<int>, tries: seq<Try>,
                                     lagging: bool)
    requires IndexOk(x) && WellFormed(e) && IssueTopic(e.topic) && tries != []
    requires State(x, s.policy, e, SourceTime(e.payload, s.dateMs), lagging)
    requires lagging ==> Accepted(x, s, e)
    ensures var out := Task(x, s, e, hint, tries);
      && IndexOk(out.index)
      && (out.ok <==> Succeeds(tries, Accepted(x, s, e)))
      && State(out.index, s.policy, e, SourceTime(e.payload, s.dateMs),
               !out.ok && LeftUnshown(tries, lagging, Accepted(x, s, e)))
    decreases |tries|
  {
    hide Accepts, SnapshotAt, IndexOk, IssueId, Logs, Shows, State, Attempt, SourceTime, IssueTopic;
    hide Succeeds, Completes;
    var t := tries[0];
    var accepted := Accepted(x, s, e);
    AttemptState(x, s, e, hint, t, lagging);
    CompletesLogs(t.fault, accepted);
    SucceedsFirst(tries, accepted);
    NoneSucceeds(accepted);
    var first := Attempt(x, s, e, hint, t);
    if !first.ok && |tries| > 1 {
      TaskState(first.index, s, e, hint, tries[1..], if Logs(t.fault) then accepted && !Shows(t.fault) else lagging);
    } else {
      assert |tries| == 1 ==> tries[1..] == [] && LastLogging(tries[1..]) == None;
    }
  }

  lemma NoneSucceeds(accepted: bool)
    ensures !Succeeds([], accepted)
  {}

  /** Some attempt writes the envelope under its own key. */
  predicate PlainWritten(tries: seq<Try>) {
    exists i :: 0 <= i < |tries| && tries[i].fault != AtPlain(false)
  }

  lemma PlainTwice(x: Index, e: Envelope)
    ensures PutPlain(PutPlain(x, e), e) == PutPlain(x, e)
  {
    var y := PutPlain(x, e);
    assert PutPlain(y, e).issues == y.issues && PutPlain(y, e).objects == y.objects;
  }

  /** Other envelopes only change what is under their own key. */
  lemma {:induction false} OtherTask(x: Index, s: Settings, e: Envelope, hint: Option<int>, tries: seq<Try>)
    requires WellFormed(e) && !IssueTopic(e.topic) && tries != []
    ensures Task(x, s, e, hint, tries).index == if PlainWritten(tries) then PutPlain(x, e) else x
    decreases |tries|
  {
    hide PutPlain, IssueTopic, WellFormed, Project;
    PlainTwice(x, e);
    var first := Attempt(x, s, e, hint, tries[0]);
    assert tries == [tries[0]] + tries[1..];
    if !first.ok && |tries| > 1 {
      OtherTask(first.index, s, e, hint, tries[1..]);
      assert PlainWritten(tries) <==> tries[0].fault != AtPlain(false) || PlainWritten(tries[1..]) by {
        if PlainWritten(tries[1..]) {
          var i :| 0 <= i < |tries[1..]| && tries[1..][i].fault != AtPlain(false);
          assert tries[i + 1].fault != AtPlain(false);
        }
        if i :| 0 < i < |tries| && tries[i].fault != AtPlain(false) {
          assert tries[1..][i - 1].fault != AtPlain(false);
        }
      }
    }
  }

  /** When every snapshot is still the fold of its log after a task, told from what the task is given. For an envelope
      about an issue: if some attempt makes no failing write, even though earlier ones failed partway, or if none does,
      unless the policy accepts the envelope and the last attempt to log its event did not show it. For any other: if
      the envelope was not written, or wrote over nothing the agreement rests on. */
  ghost predicate AgreedAfter(x: Index, s: Settings, e: Envelope, tries: seq<Try>)
    requires IndexOk(x) && WellFormed(e)
  {
    if IssueTopic(e.topic) then Succeeds(tries, Accepted(x, s, e)) || !LeftUnshown(tries, false, Accepted(x, s, e))
    else PlainWritten(tries) ==> StaysAgreed(x, s.policy, e)
  }

  lemma AgreementAfterTask(x: Index, s: Settings, e: Envelope, hint: Option<int>, tries: seq<Try>)
    requires IndexOk(x) && Agrees(x, s.policy) && WellFormed(e) && tries != []
    ensures var y := Task(x, s, e, hint, tries).index;
      && (IndexOk(y) && Agrees(y, s.policy) <==> AgreedAfter(x, s, e, tries))
      && (!Reserved(e) ==> IndexOk(y))
  {
    hide Accepted, IndexOk, LeftUnshown, Task, SourceTime, IssueTopic, Lags, Agrees, Shadows;
    hide StaysAgreed, PutPlain, Reserved, WellFormed, PlainWritten, Succeeds;
    var out := Task(x, s, e, hint, tries);
    if IssueTopic(e.topic) {
      TaskState(x, s, e, hint, tries, false);
      if !out.ok && LeftUnshown(tries, false, Accepted(x, s, e)) {
        LaggingDisagrees(out.index, s.policy, e, SourceTime(e.payload, s.dateMs));
      }
    } else {
      OtherTask(x, s, e, hint, tries);
      OverwriteAgreement(x, s.policy, e);
      if !Reserved(e) { UnreservedStays(x, s.policy, e); }
    }
  }

  /** A task about an issue succeeds exactly if some attempt makes no failing write; then log and snapshots agree. */
  lemma SuccessAgrees(x: Index, s: Settings, e: Envelope, hint: Option<int>, tries: seq<Try>)
    requires IndexOk(x) && Agrees(x, s.policy) && WellFormed(e) && IssueTopic(e.topic) && tries != []
    ensures var out := Task(x, s, e, hint, tries);
      && (out.ok <==> Succeeds(tries, Accepted(x, s, e)))
      && (out.ok ==> IndexOk(out.index) && Agrees(out.index, s.policy))
  {
    hide Accepted, IndexOk, LeftUnshown, Task, SourceTime, IssueTopic, Agrees, WellFormed, Succeeds;
    TaskState(x, s, e, hint, tries, false);
  }

  lemma UnreservedStays(x: Index, p: Policy, e: Envelope)
    requires IndexOk(x) && WellFormed(e) && !Reserved(e)
    ensures StaysAgreed(x, p, e) && IndexOk(PutPlain(x, e))
  {
    hide IndexOk, Reserved, Shadows, PutPlain;
    RoomIsValid(e);
    if Shadows(x, e) { ShadowedIsReserved(x, e); }
    PutPlainKeeps(x, e);
  }

  /** A snapshot is lost to the envelope whose id spells its key, though the task succeeds: the log stays, and the two
      no longer agree. */
  lemma SnapshotTaken(x: Index, s: Settings, room: string, issueId: string, e: Envelope, now: nat)
    requires IndexOk(x) && Agrees(x, s.policy) && ValidRoom(room) && SnapshotAt(x, room, issueId).Some?
    requires WellFormed(e) && !IssueTopic(e.topic) && e.room == "issue" && e.id == SNAPSHOTS + (room + ['/'] + issueId)
    ensures var out := Task(x, s, e, None, [Try(now, NoFault)]);
      && out.ok && IndexOk(out.index) && SnapshotAt(out.index, room, issueId).None?
      && Logged(out.index, room, issueId) == Logged(x, room, issueId)
      && !Agrees(out.index, s.policy)
  {
    hide IndexOk, IssueTopic, Agrees, ValidRoom, WellFormed, Logged, Project, PutPlain, SnapshotKey, PlainKey;
    SnapshotIdKey(room, issueId);
    UnderSnapshotKey(x, room, issueId);
    var k := SnapshotKey(room, issueId);
    assert PlainKey(e.room, e.id) == k;
    SnapshotOverwritten(x, e, x.objects[k].snapshot);
    LostSnapshotDisagrees(x, PutPlain(x, e), s.policy, x.objects[k].snapshot);
  }

  /** For instance the id "snapshots/main/bug-1", once bug-1 has been reported in the room "main". */
  lemma SnapshotTakenOnce(s: Settings)
    ensures var bug := Report("main", "bug-1");
      var note := Envelope("issue", "snapshots/main/bug-1", "s", "note", Null, None);
      && WellFormed(bug) && WellFormed(note)
      && var x := FirstTask(s, bug, None);
         && IndexOk(x) && Agrees(x, s.policy) && SnapshotAt(x, "main", "bug-1").Some?
         && var y := Task(x, s, note, None, [Try(0, NoFault)]).index;
            IndexOk(y) && SnapshotAt(y, "main", "bug-1").None? && !Agrees(y, s.policy)
  {
    var note := Envelope("issue", "snapshots/main/bug-1", "s", "note", Null, None);
    assert WellFormed(note) && !IssueTopic(note.topic) && ValidRoom("main") && Name("bug-1");
    hide *;
    assert SNAPSHOTS + ("main" + ['/'] + "bug-1") == "snapshots/main/bug-1";
    ReportShown(s, "main", "bug-1");
    SnapshotTaken(FirstTask(s, Report("main", "bug-1"), None), s, "main", "bug-1", note, 0);
  }

  /** The first report of an issue is shown. */
  lemma ReportShown(s: Settings, room: string, id: string)
    requires ValidRoom(room) && Name(id)
    ensures WellFormed(Report(room, id))
    ensures var x := FirstTask(s, Report(room, id), None);
            IndexOk(x) && Agrees(x, s.policy) && SnapshotAt(x, room, id).Some?
  {
    hide Accepts, IndexOk, IssueId, SourceTime, IssueTopic, Agrees, ValidRoom, WellFormed, Name, Project, PutPlain;
    hide SnapshotKey, Attempt;
    ReportHolds(s, room, id, None);
    EmptyIndexAgrees(s.policy);
    AgreementAfterTask(EMPTY_INDEX, s, Report(room, id), None, [Try(0, NoFault)]);
    FirstTaskSucceeds(s, Report(room, id), None);
    UnderSnapshotKey(FirstTask(s, Report(room, id), None), room, id);
  }

  lemma FirstTaskSucceeds(s: Settings, e: Envelope, hint: Option<int>)
    requires WellFormed(e)
    ensures Task(EMPTY_INDEX, s, e, hint, [Try(0, NoFault)]).ok
  {
    hide WellFormed, IssueTopic, PutPlain, PutEvent, PutCursor, PutSnapshot, Accepts;
  }

  /** What is under a snapshot's key is that snapshot or an envelope. */
  lemma UnderSnapshotKey(x: Index, room: string, issueId: string)
    requires IndexOk(x) && ValidRoom(room) && SnapshotKey(room, issueId) in x.objects
    ensures var item := x.objects[SnapshotKey(room, issueId)];
      !item.PlainItem? ==> item.SnapshotItem? && item.snapshot.room == room && item.snapshot.issueId == issueId
  {
    hide CurrentCursor, EventKey, SnapshotKey, CursorKey, ValidRoom, Name;
    var k := SnapshotKey(room, issueId);
    assert Placed(x, k, x.objects[k]);
    match x.objects[k]
    case EventItem(f) => KindsOfKeyDiffer(f.room, f.cursor, f.envelope.id, room, issueId, "");
    case CursorItem(q, _, _) => KindsOfKeyDiffer("", 0, "", room, issueId, q);
    case SnapshotItem(s) => SnapshotKeyInjective(s.room, s.issueId, room, issueId);
    case PlainItem(_) =>
  }

  /** An event that is logged while the snapshot write fails each time leaves the two apart. */
  lemma FailedTaskDisagrees(x: Index, s: Settings, e: Envelope, hint: Option<int>, now: nat)
    requires IndexOk(x) && Agrees(x, s.policy) && WellFormed(e) && IssueTopic(e.topic)
    requires SnapshotAt(x, e.room, IssueId(e)).None?
    ensures var out := Task(x, s, e, hint, [Try(now, AtSnapshot(false))]);
            !out.ok && IndexOk(out.index) && !Agrees(out.index, s.policy)
  {
    hide IndexOk, Agrees, IssueId, SnapshotAt, Project, PutPlain, SourceTime, IssueTopic;
    var tries := [Try(now, AtSnapshot(false))];
    NeverShadows(x, e);
    AgreementAfterTask(x, s, e, hint, tries);
    assert LastLogging(tries[1..]) == None;
    assert LastLogging(tries) == Some(AtSnapshot(false));
    AttemptState(x, s, e, hint, tries[0], false);
  }

  // ------------------------------------------------------------------- healing

  lemma {:induction false} FoldIsLogged(p: Policy, events: set<Event>)
    requires OneEventPerCursor(events)
    ensures Fold(p, events).Some? ==> exists e :: e in events && Fold(p, events).value == SnapshotOf(e)
    decreases events
  {
    if events != {} {
      LastExists(events);
      var last :| IsLast(last, events) && Fold(p, events) == Step(p, Fold(p, events - {last}), last);
      FoldIsLogged(p, events - {last});
    }
  }

  /** Whether snapshot and log of an issue agree once an attempt has logged an event of it, agreed before or not: the
      event must be shown exactly if folding it in replaces what the log folds to; if it is not, they must have agreed
      before. So what a failed task left behind is made good by the next event that is shown and folded in. */
  lemma RecordsHeal(x: Index, y: Index, p: Policy, e: Envelope, time: Option<nat>, t: Try, event: Event)
    requires IndexOk(x) && IndexOk(y) && WellFormed(e) && Logs(t.fault) && Records(x, y, p, e, time, t, event)
    ensures AgreesAt(y, p, e.room, IssueId(e)) <==> Heals(x, p, e, time, t.fault)
  {
    hide Fold, Accepts, Logged, SnapshotAt, IndexOk, IssueId, ValidRoom, CurrentCursor, Logs, Shows;
    RoomIsValid(e);
    var id := IssueId(e);
    LoggedUnique(x, e.room, id);
    LoggedUnique(y, e.room, id);
    FoldAppend(p, Logged(x, e.room, id), event);
    FoldIsLogged(p, Logged(x, e.room, id));
    assert Logged(y, e.room, id) == Logged(x, e.room, id) + {event};
    if SnapshotAt(x, e.room, id).Some? { SnapshotBelow(x, e.room, id); }
  }

  ghost predicate Heals(x: Index, p: Policy, e: Envelope, time: Option<nat>, f: Fault)
    requires IndexOk(x) && WellFormed(e)
  {
    LoggedUnique(x, e.room, IssueId(e));
    var shown := Shows(f) && Accepts(p, SnapshotAt(x, e.room, IssueId(e)), e, time);
    var folded := Accepts(p, Fold(p, Logged(x, e.room, IssueId(e))), e, time);
    shown == folded && (shown || AgreesAt(x, p, e.room, IssueId(e)))
  }

  lemma AttemptHeals(x: Index, s: Settings, e: Envelope, hint: Option<int>, t: Try)
    requires IndexOk(x) && WellFormed(e) && IssueTopic(e.topic) && Logs(t.fault)
    ensures var y := Attempt(x, s, e, hint, t).index;
      IndexOk(y) && (AgreesAt(y, s.policy, e.room, IssueId(e)) <==>
          Heals(x, s.policy, e, SourceTime(e.payload, s.dateMs), t.fault))
  {
    hide Accepts, Logged, SnapshotAt, IndexOk, IssueId, ValidRoom;
    hide Shows, Project, PutPlain, SourceTime, Records, IssueTopic;
    hide Heals, AgreesAt;
    var time := SourceTime(e.payload, s.dateMs);
    NeverShadows(x, e);
    PutPlainKeeps(x, e);
    var stored := PutPlain(x, e);
    PlainLogsNothing(t.fault);
    ProjectChanges(stored, s, e, hint, t);
    var y := Project(stored, s, e, hint, t).index;
    var event: Event :| Records(stored, y, s.policy, e, time, t, event);
    RecordsHeal(stored, y, s.policy, e, time, t, event);
    HealsAlike(x, stored, s.policy, e, time, t.fault);
  }

  lemma HealsAlike(x: Index, y: Index, p: Policy, e: Envelope, time: Option<nat>, f: Fault)
    requires IndexOk(x) && IndexOk(y) && SameIndex(x, y) && WellFormed(e)
    ensures Heals(x, p, e, time, f) <==> Heals(y, p, e, time, f)
  {
    hide Accepts, Logged, SnapshotAt, IndexOk, IssueId, ValidRoom, Shows, Fold;
    RoomIsValid(e);
  }

  // --------------------------------------------------------------------- runs

  datatype Job = Job(envelope: Envelope, hint: Option<int>, tries: seq<Try>)

  /** The envelope is well formed, its id is not reserved, and the job does not end with an accepted event logged but
      not shown. */
  ghost predicate Sound(x: Index, s: Settings, j: Job) {
    && WellFormed(j.envelope) && !Reserved(j.envelope) && j.tries != []
    && (IssueTopic(j.envelope.topic) ==>
          || Succeeds(j.tries, Accepted(x, s, j.envelope))
          || !LeftUnshown(j.tries, false, Accepted(x, s, j.envelope)))
  }

  lemma SoundAgrees(x: Index, s: Settings, j: Job)
    requires IndexOk(x) && WellFormed(j.envelope) && Sound(x, s, j)
    ensures AgreedAfter(x, s, j.envelope, j.tries)
  {
    hide IndexOk, WellFormed, Reserved, LeftUnshown, StaysAgreed, PlainWritten, Accepted, Succeeds;
    UnreservedStays(x, s.policy, j.envelope);
  }

  ghost predicate SoundRun(x: Index, s: Settings, jobs: seq<Job>)
    decreases |jobs|
  {
    jobs == [] || (Sound(x, s, jobs[0]) && SoundRun(After(x, s, jobs[0]), s, jobs[1..]))
  }

  ghost function After(x: Index, s: Settings, j: Job): Index
    requires WellFormed(j.envelope) && j.tries != []
  {
    Task(x, s, j.envelope, j.hint, j.tries).index
  }

  lemma SoundFirst(x: Index, s: Settings, jobs: seq<Job>)
    requires SoundRun(x, s, jobs)
    ensures jobs != [] ==> WellFormed(jobs[0].envelope) && jobs[0].tries != [] && Sound(x, s, jobs[0])
  {
    hide Reserved, LeftUnshown, Succeeds, IssueTopic, Accepted;
  }

  ghost function RunJobs(x: Index, s: Settings, jobs: seq<Job>): Index
    requires SoundRun(x, s, jobs)
    decreases |jobs|
  {
    hide Sound, After;
    SoundFirst(x, s, jobs);
    if jobs == [] then x else RunJobs(After(x, s, jobs[0]), s, jobs[1..])
  }

  /** Along every such run the snapshots stay the folds of their logs. */
  lemma {:induction false} RunsAgree(x: Index, s: Settings, jobs: seq<Job>)
    requires IndexOk(x) && Agrees(x, s.policy) && SoundRun(x, s, jobs)
    ensures IndexOk(RunJobs(x, s, jobs)) && Agrees(RunJobs(x, s, jobs), s.policy)
    decreases |jobs|
  {
    hide IndexOk, Agrees, Task, LeftUnshown, Shadows, WellFormed;
    if jobs != [] {
      var j := jobs[0];
      AgreementAfterTask(x, s, j.envelope, j.hint, j.tries);
      SoundAgrees(x, s, j);
      RunsAgree(After(x, s, j), s, jobs[1..]);
    }
  }

  /** In particular from the empty index. */
  lemma RunsFromEmptyAgree(s: Settings, jobs: seq<Job>)
    requires SoundRun(EMPTY_INDEX, s, jobs)
    ensures var x := RunJobs(EMPTY_INDEX, s, jobs); IndexOk(x) && Agrees(x, s.policy)
  {
    hide IndexOk, Agrees, SoundRun, RunJobs;
    EmptyIndexAgrees(s.policy);
    RunsAgree(EMPTY_INDEX, s, jobs);
  }
}
