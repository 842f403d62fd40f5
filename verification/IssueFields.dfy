/** What the issue index takes from an envelope, told on the fields of its payload (src/issue_projection.ts). */
module IssueFields {
  import opened Arithmetic
  import opened Options
  import opened Json
  import opened JsonFields
  import opened Text
  import opened CacheExchange
  import opened IssueProjection
  import opened IssueIndex

  /** The nested object gives it. */
  predicate IssueGives(v: Json, name: string, s: string) {
    v.Obj? && "issue" in v.fields && Gives(v.fields["issue"], name, s)
  }

  predicate IssueSilent(v: Json, name: string) {
    v.Obj? && "issue" in v.fields ==> Silent(v.fields["issue"], name)
  }

  // ---------------------------------------------------------------- the issue

  /** The payload names the issue: as `issue_id`, failing that as `issueId`, failing that as `issue.id`, failing that as
      `id`. */
  predicate NamesIssue(p: Json, s: string) {
    || Gives(p, "issue_id", s)
    || (Silent(p, "issue_id")
        && (|| Gives(p, "issueId", s)
            || (Silent(p, "issueId")
                && (IssueGives(p, "id", s) || (IssueSilent(p, "id") && Gives(p, "id", s))))))
  }

  predicate NamesNoIssue(p: Json) {
    Silent(p, "issue_id") && Silent(p, "issueId") && IssueSilent(p, "id") && Silent(p, "id")
  }

  /** An envelope is about the issue its payload names, and about itself if it names none. */
  lemma IssueIdIs(e: Envelope)
    requires WellFormed(e)
    ensures forall s :: NamesIssue(e.payload, s) ==> IssueId(e) == s
    ensures NamesNoIssue(e.payload) ==> IssueId(e) == e.id
    ensures NamesNoIssue(e.payload) <==> !exists s :: NamesIssue(e.payload, s)
  {
    hide Trim, WellFormed;
    var p := e.payload;
    if !NamesNoIssue(p) { assert NamesIssue(p, PayloadIssueId(p)); }
  }

  // --------------------------------------------------------------- the action

  /** What follows "issue.", trimmed, or "upsert" if it is blank. */
  predicate ActionAfterPrefix(text: string, action: string) {
    "issue." <= text && action == if Trim(text[6..]) == "" then "upsert" else Trim(text[6..])
  }

  /** The action is told by the topic if it has one, else by the payload's kind, and is else "upsert". */
  lemma ActionIs(e: Envelope)
    ensures "issue." <= e.topic ==> ActionAfterPrefix(e.topic, Action(e))
    ensures !("issue." <= e.topic) ==>
              && (forall kind ::
                    Gives(e.payload, "kind", kind) && "issue." <= kind ==> ActionAfterPrefix(kind, Action(e)))
              && (forall kind :: Gives(e.payload, "kind", kind) && !("issue." <= kind) ==> Action(e) == kind)
              && (Silent(e.payload, "kind") ==> Action(e) == "upsert")
  {
    hide Trim;
  }

  // ------------------------------------------------------- the source and its time

  /** The time of a change is `source_updated_at_ms` if that is a number that is not negative once its fraction is cut
      off; failing that, what `issue.updated_at` is parsed to, if that is not negative; otherwise unknown. */
  lemma SourceTimeIs(p: Json, dateMs: string -> Option<int>)
    ensures forall n: nat :: GivesNumber(p, "source_updated_at_ms", n) ==> SourceTime(p, dateMs) == Some(n)
    ensures !(exists n: nat :: GivesNumber(p, "source_updated_at_ms", n)) ==>
              && (forall raw :: IssueGives(p, "updated_at", raw) ==>
                   SourceTime(p, dateMs)
                   == if dateMs(raw).Some? && dateMs(raw).value >= 0 then Some(dateMs(raw).value) else None)
              && (IssueSilent(p, "updated_at") ==> SourceTime(p, dateMs) == None)
  {
    hide Trim, Trunc, GivesNumber;
    NumberGiven(p, "source_updated_at_ms");
    var direct := Member(p, "source_updated_at_ms");
    if direct.Some? && direct.value.Num? && Trunc(direct.value.mantissa, direct.value.exponent) >= 0 {
      assert GivesNumber(p, "source_updated_at_ms", Trunc(direct.value.mantissa, direct.value.exponent));
    }
  }

  /** Two texts alike but for the case of ASCII letters. */
  predicate AlikeButCase(s: string, t: string) {
    |s| == |t| && forall i :: 0 <= i < |s| ==> s[i] == t[i] || ('A' <= s[i] <= 'Z' && t[i] == s[i] - 'A' + 'a')
  }

  predicate Lowered(s: string) { forall i :: 0 <= i < |s| ==> !('A' <= s[i] <= 'Z') }

  lemma LowerCaseIs(s: string, t: string)
    requires Lowered(t)
    ensures LowerCase(s) == t <==> AlikeButCase(s, t)
  {
    if AlikeButCase(s, t) {
      assert forall i :: 0 <= i < |s| ==> LowerCase(s)[i] == t[i];
    }
    if LowerCase(s) == t {
      forall i | 0 <= i < |s| ensures s[i] == t[i] || ('A' <= s[i] <= 'Z' && t[i] == s[i] - 'A' + 'a') {
        assert LowerCase(s)[i] == t[i];
      }
    }
  }

  /** The source is told by the payload's `source`, in any case. */
  lemma SourceIs(p: Json)
    ensures SourceOf(p) == GitHub <==> exists s :: Gives(p, "source", s) && AlikeButCase(s, "github")
    ensures SourceOf(p) == Bit <==> exists s :: Gives(p, "source", s) && AlikeButCase(s, "bit")
  {
    var s := TextMember(p, "source");
    LowerCaseIs(s, "github");
    LowerCaseIs(s, "bit");
    hide Trim, LowerCase, AlikeButCase;
    LowerCaseLength(s);
    assert s != "" ==> Gives(p, "source", s);
  }

  lemma LowerCaseLength(s: string)
    ensures |LowerCase(s)| == |s|
  {}

  // --------------------------------------------------------------- the cursor

  /** A cursor the room is known by: in memory, or on record. */
  predicate Known(x: Index, room: string, n: nat) {
    || (room in x.cursors && x.cursors[room] == n)
    || (CursorKey(room) in x.objects && x.objects[CursorKey(room)].CursorItem?
        && x.objects[CursorKey(room)].room == room && x.objects[CursorKey(room)].cursor == n)
  }

  /** The current cursor is the greatest the room is known by, or zero. */
  lemma CurrentIsGreatest(x: Index, room: string)
    ensures var current := CurrentCursor(x, room);
      (current == 0 || Known(x, room, current)) && forall n: nat :: Known(x, room, n) ==> n <= current
  {
    hide CursorKey;
  }

  /** The next cursor is the least above every cursor the room is known by that is not below the hint. */
  lemma NextCursorIsLeast(x: Index, room: string, hint: Option<int>)
    ensures var next := NextCursor(x, room, hint);
      && next > CurrentCursor(x, room) && (hint.Some? ==> next >= hint.value)
      && (next == CurrentCursor(x, room) + 1 || hint == Some(next))
      && (forall n: nat :: Known(x, room, n) ==> next > n)
      && (next == 1 || hint == Some(next) || Known(x, room, next - 1))
  {
    hide CurrentCursor, Known;
    CurrentIsGreatest(x, room);
  }

  // ------------------------------------------------------------ what a task logs

  /** The event that a task about an issue leaves in the log. */
  ghost predicate LogsEnvelope(x: Index, y: Index, s: Settings, e: Envelope, issueId: string)
    requires WellFormed(e)
  {
    exists event :: event in Logged(y, e.room, issueId) && EventOf(x, s, e, issueId, event)
  }

  predicate EventOf(x: Index, s: Settings, e: Envelope, issueId: string, event: Event) {
    && event.room == e.room && event.issueId == issueId && event.envelope == e && event.action == Action(e)
    && event.time == SourceTime(e.payload, s.dateMs) && event.cursor > CurrentCursor(x, e.room)
  }

  lemma AttemptLogs(x: Index, s: Settings, e: Envelope, hint: Option<int>, t: Try)
    requires IndexOk(x) && WellFormed(e) && IssueTopic(e.topic)
    ensures var out := Attempt(x, s, e, hint, t);
      IndexOk(out.index) && (out.ok ==> LogsEnvelope(x, out.index, s, e, IssueId(e)))
  {
    hide Accepts, Logged, SnapshotAt, IndexOk, IssueId, SourceTime, Action, IssueTopic, Project, PutPlain;
    hide CurrentCursor;
    NeverShadows(x, e);
    PutPlainKeeps(x, e);
    RoomIsValid(e);
    if !t.fault.AtPlain? {
      var stored := PutPlain(x, e);
      ProjectChanges(stored, s, e, hint, t);
      var y := Project(stored, s, e, hint, t).index;
      if Attempt(x, s, e, hint, t).ok {
        CompletesMeansLogs(t.fault, Accepted(stored, s, e));
        var event: Event :| Records(stored, y, s.policy, e, SourceTime(e.payload, s.dateMs), t, event);
        assert event in Logged(y, e.room, IssueId(e));
        assert EventOf(x, s, e, IssueId(e), event);
      }
    }
  }

  /** The snapshot shows just this event. */
  predicate Shown(snapshot: Option<Snapshot>, event: Event) {
    && snapshot.Some?
    && snapshot.value.room == event.room && snapshot.value.issueId == event.issueId
    && snapshot.value.lastCursor == event.cursor && snapshot.value.envelope == event.envelope
    && snapshot.value.time == event.time && snapshot.value.updatedAt == event.updatedAt
  }

  /** An attempt that succeeds leaves an event with the time of the attempt, and the snapshot of its issue shows it if
      the policy accepts it, and is what it was if not. */
  lemma AttemptShows(x: Index, s: Settings, e: Envelope, hint: Option<int>, t: Try)
    requires IndexOk(x) && WellFormed(e) && IssueTopic(e.topic) && Attempt(x, s, e, hint, t).ok
    ensures var y, id := Attempt(x, s, e, hint, t).index, IssueId(e);
      exists event :: event in Logged(y, e.room, id) && EventOf(x, s, e, id, event) && event.updatedAt == t.now
        && if Accepts(s.policy, SnapshotAt(x, e.room, id), e, event.time) then Shown(SnapshotAt(y, e.room, id), event)
           else SnapshotAt(y, e.room, id) == SnapshotAt(x, e.room, id)
  {
    hide Accepts, Logged, SnapshotAt, IndexOk, IssueId, SourceTime, Action, IssueTopic, Project, PutPlain;
    hide CurrentCursor;
    NeverShadows(x, e);
    PutPlainKeeps(x, e);
    RoomIsValid(e);
    var stored, time, id := PutPlain(x, e), SourceTime(e.payload, s.dateMs), IssueId(e);
    ProjectChanges(stored, s, e, hint, t);
    var y := Project(stored, s, e, hint, t).index;
    CompletesMeansLogs(t.fault, Accepted(stored, s, e));
    var event: Event :| Records(stored, y, s.policy, e, time, t, event);
    assert event in Logged(y, e.room, id);
    assert EventOf(x, s, e, id, event);
    assert SnapshotAt(stored, e.room, id) == SnapshotAt(x, e.room, id);
  }

  lemma CompletesMeansLogs(f: Fault, accepted: bool)
    ensures Completes(f, accepted) ==> Logs(f)
  {}

  /** After a task that succeeds, the envelope is in the log of its issue, after every event of the room there was. */
  lemma {:induction false} TaskLogs(x: Index, s: Settings, e: Envelope, hint: Option<int>, tries: seq<Try>)
    requires IndexOk(x) && WellFormed(e) && IssueTopic(e.topic) && tries != []
    ensures var out := Task(x, s, e, hint, tries);
      IndexOk(out.index) && (out.ok ==> exists z :: LogsEnvelope(z, out.index, s, e, IssueId(e)))
    decreases |tries|
  {
    hide IndexOk, Attempt, LogsEnvelope, IssueTopic, IssueId;
    AttemptLogs(x, s, e, hint, tries[0]);
    var first := Attempt(x, s, e, hint, tries[0]);
    if !first.ok && |tries| > 1 { TaskLogs(first.index, s, e, hint, tries[1..]); }
  }

  /** An envelope is filed under the issue its payload names, with the action and the time it tells. */
  lemma FiledUnderItsIssue(x: Index, s: Settings, e: Envelope, hint: Option<int>, tries: seq<Try>, issueId: string)
    requires IndexOk(x) && WellFormed(e) && IssueTopic(e.topic) && tries != []
    requires NamesIssue(e.payload, issueId) || (NamesNoIssue(e.payload) && issueId == e.id)
    ensures var out := Task(x, s, e, hint, tries);
      out.ok ==> exists event :: event in Logged(out.index, e.room, issueId) && event.envelope == e
                                 && event.action == Action(e) && event.time == SourceTime(e.payload, s.dateMs)
  {
    hide IndexOk, Task, IssueTopic, IssueId, NamesIssue, NamesNoIssue, Action, SourceTime, Logged;
    TaskLogs(x, s, e, hint, tries);
    IssueIdIs(e);
  }

  // ------------------------------------------------------ the envelope's own object

  /** The envelope is stored as itself under "<room>/<id>", among the issues or among the objects by its topic. */
  predicate StoredAsItself(x: Index, e: Envelope) {
    var k := e.room + "/" + e.id;
    if IssueTopic(e.topic) then k in x.issues && x.issues[k] == e else k in x.objects && x.objects[k] == PlainItem(e)
  }

  lemma AttemptStores(x: Index, s: Settings, e: Envelope, hint: Option<int>, t: Try)
    requires WellFormed(e)
    ensures Attempt(x, s, e, hint, t).ok ==> StoredAsItself(Attempt(x, s, e, hint, t).index, e)
  {
    hide SnapshotKey, EventKey, CursorKey, NextCursor, Accepts, SnapshotAt, IssueId, Action, SourceTime, WellFormed;
    assert PlainKey(e.room, e.id) == e.room + "/" + e.id;
  }

  /** After a task that succeeds the envelope is stored as itself. */
  lemma {:induction false} TaskStores(x: Index, s: Settings, e: Envelope, hint: Option<int>, tries: seq<Try>)
    requires WellFormed(e) && tries != []
    ensures var out := Task(x, s, e, hint, tries); out.ok ==> StoredAsItself(out.index, e)
    decreases |tries|
  {
    hide Attempt, StoredAsItself, WellFormed;
    AttemptStores(x, s, e, hint, tries[0]);
    var first := Attempt(x, s, e, hint, tries[0]);
    if !first.ok && |tries| > 1 { TaskStores(first.index, s, e, hint, tries[1..]); }
  }
}
