/** Keys, identifiers and derived fields of the issue index (src/issue_projection.ts). */
module IssueProjection {
  import opened Options
  import opened Json
  import opened Text
  import opened CacheExchange
  import R2CacheStore

  // -------------------------------------------------------------------- keys

  const PAD_WIDTH: nat := 12

  function PadStart(s: string): string {
    if |s| >= PAD_WIDTH then s else Zeros(PAD_WIDTH - |s|) + s
  }

  function EventPrefix(room: string): string { "issue/events/" + room + ['/'] }

  function EventKey(room: string, cursor: int, id: string): string {
    EventPrefix(room) + (PadStart(Decimal(if cursor < 0 then 0 else cursor)) + (['-'] + id))
  }

  function SnapshotKey(room: string, issueId: string): string { "issue/snapshots/" + room + ['/'] + issueId }

  function CursorKey(room: string): string { "issue/cursors/" + room }

  function ParseEventCursor(room: string, key: string): Option<nat> {
    if !(EventPrefix(room) <= key) then None
    else
      var suffix := key[|EventPrefix(room)|..];
      var (digits, _) := CutAt(suffix, '-');
      if '-' !in suffix || digits == "" then None
      else
        var n := R2CacheStore.ParseInt(digits);
        if n.Some? && n.value > 0 then Some(n.value) else None
  }

  lemma PadStartDigits(n: nat)
    ensures var p := PadStart(Decimal(n)); p != "" && AllDigits(p) && '-' !in p && ParseNat(p) == n
  {
    var d := Decimal(n);
    DecimalParses(n);
    if |d| < PAD_WIDTH {
      ParseNatAppend(Zeros(PAD_WIDTH - |d|), d);
      ParseZeros(PAD_WIDTH - |d|);
    }
  }

  lemma ParseIntDigits(s: string)
    requires s != "" && AllDigits(s)
    ensures R2CacheStore.ParseInt(s) == Some(ParseNat(s))
  {
    assert IsDigit(s[0]);
  }

  /** Reading a printed event key gives back its cursor, whatever the envelope's id. */
  lemma EventKeyRoundTrip(room: string, cursor: nat, id: string)
    requires cursor > 0
    ensures ParseEventCursor(room, EventKey(room, cursor, id)) == Some(cursor)
  {
    hide Decimal, R2CacheStore.ParseInt;
    var p := PadStart(Decimal(cursor));
    var rest := p + (['-'] + id);
    PadStartDigits(cursor);
    assert p + ['-'] + id == rest;
    CutAtConcat(p, id, '-');
    ParseIntDigits(p);
    assert EventKey(room, cursor, id)[|EventPrefix(room)|..] == rest;
  }

  // ---------------------------------------------------------------- key order

  /** Digit strings of one length, each followed by anything, are ordered as numbers. */
  lemma {:induction false} DigitsOrder(a: string, b: string, s: string, t: string)
    requires |a| == |b| && AllDigits(a) && AllDigits(b) && ParseNat(a) < ParseNat(b)
    ensures Before(a + s, b + t)
    decreases |a|
  {
    hide ParseNat, Pow10;
    var x, y := a + s, b + t;
    assert a == [a[0]] + a[1..] && b == [b[0]] + b[1..];
    assert x[1..] == a[1..] + s && y[1..] == b[1..] + t;
    ParseNatAppend([a[0]], a[1..]);
    ParseNatAppend([b[0]], b[1..]);
    ParseNatBound(a[1..]);
    ParseNatBound(b[1..]);
    OneDigit(a[0]);
    OneDigit(b[0]);
    if a[0] == b[0] {
      DigitsOrder(a[1..], b[1..], s, t);
    } else {
      LeadingDigit(DigitValue(a[0]), DigitValue(b[0]), ParseNat(a[1..]), ParseNat(b[1..]), Pow10(|a| - 1));
    }
  }

  lemma OneDigit(c: char)
    requires IsDigit(c)
    ensures AllDigits([c]) && ParseNat([c]) == DigitValue(c)
  {
    assert [c][..0] == "";
  }

  lemma LeadingDigit(x: nat, y: nat, s: nat, t: nat, p: nat)
    requires x != y && s < p && t < p && x * p + s < y * p + t
    ensures x < y
  {
    assert x >= y + 1 ==> x * p >= (y + 1) * p;
  }

  lemma PadStartLength(n: nat)
    requires n < Pow10(PAD_WIDTH)
    ensures |PadStart(Decimal(n))| == PAD_WIDTH
  {
    DecimalLength(n, PAD_WIDTH);
  }

  /** The digits an event key gives a cursor. */
  function Width(n: nat): nat { |PadStart(Decimal(n))| }

  /** The smaller cursor is at most the leading digits of the greater, as many as the smaller is printed with. */
  predicate InOrder(m: nat, n: nat) {
    Width(m) <= Width(n) && m <= n / Pow10(Width(n) - Width(m))
  }

  lemma {:induction false} WidthGrows(m: nat, n: nat)
    requires m <= n
    ensures |Decimal(m)| <= |Decimal(n)| && Width(m) <= Width(n)
  {
    if m >= 10 { WidthGrows(m / 10, n / 10); }
  }

  /** Two events of a room are listed in the order of their cursors exactly when the cursors are in order in this
      sense, whatever the ids. */
  lemma EventKeyOrder(room: string, m: nat, n: nat, a: string, b: string)
    requires m < n
    ensures Before(EventKey(room, m, a), EventKey(room, n, b)) <==> InOrder(m, n)
    ensures Before(EventKey(room, n, b), EventKey(room, m, a)) <==> !InOrder(m, n)
  {
    hide Decimal, Pow10, Before, PadStart;
    var p, q := PadStart(Decimal(m)), PadStart(Decimal(n));
    WidthGrows(m, n);
    PadStartDigits(m);
    PadStartDigits(n);
    var q1, q2 := q[..|p|], q[|p|..];
    assert q == q1 + q2 && (q2 == "" ==> q1 == q);
    var x, y := p + (['-'] + a), q + (['-'] + b);
    assert y == q1 + (q2 + (['-'] + b));
    PaddedOrder(p, q1, q2, a, b);
    LeadingDigits(q1, q2);
    BeforePrefix(EventPrefix(room), x, y);
    BeforePrefix(EventPrefix(room), y, x);
    BeforeExclusive(x, y);
  }

  lemma BeforeExclusive(x: string, y: string)
    requires Before(x, y) || Before(y, x)
    ensures Before(x, y) <==> !Before(y, x)
  {
    hide Before;
    BeforeIrreflexive(x);
    if Before(x, y) && Before(y, x) { BeforeTransitive(x, y, x); }
  }

  lemma LeadingDigits(a: string, b: string)
    requires AllDigits(a) && AllDigits(b)
    ensures AllDigits(a + b) && ParseNat(a + b) / Pow10(|b|) == ParseNat(a)
  {
    hide ParseNat, Pow10;
    ParseNatAppend(a, b);
    ParseNatBound(b);
    QuotientOf(ParseNat(a), Pow10(|b|), ParseNat(b));
  }

  lemma QuotientOf(q: nat, d: nat, r: nat)
    requires r < d
    ensures (q * d + r) / d == q
  {
    var k := (q * d + r) / d;
    assert k > q ==> k * d >= (q + 1) * d;
    assert k < q ==> (k + 1) * d <= q * d;
  }

  /** A dash sorts before every digit. */
  lemma PaddedOrder(p: string, q1: string, q2: string, a: string, b: string)
    requires |p| == |q1| && AllDigits(p) && AllDigits(q1) && AllDigits(q2) && (q2 == "" ==> ParseNat(p) != ParseNat(q1))
    ensures var x, y := p + (['-'] + a), q1 + (q2 + (['-'] + b));
      if ParseNat(p) <= ParseNat(q1) then Before(x, y) else Before(y, x)
  {
    hide ParseNat, Before;
    var s, t := ['-'] + a, q2 + (['-'] + b);
    if ParseNat(p) < ParseNat(q1) {
      DigitsOrder(p, q1, s, t);
    } else if ParseNat(p) > ParseNat(q1) {
      DigitsOrder(q1, p, t, s);
    } else {
      SameDigits(p, q1);
      HeadBefore(s, t);
      BeforePrefix(p, s, t);
    }
  }

  lemma {:induction false} SameDigits(a: string, b: string)
    requires |a| == |b| && AllDigits(a) && AllDigits(b) && ParseNat(a) == ParseNat(b)
    ensures a == b
  {
    if a != "" {
      var n := |a| - 1;
      SameDigits(a[..n], b[..n]);
      assert a == a[..n] + [a[n]] && b == b[..n] + [b[n]];
    }
  }

  /** Below 10^12 cursors are always in order. */
  lemma InOrderBelow(m: nat, n: nat)
    requires m < n < Pow10(PAD_WIDTH)
    ensures InOrder(m, n)
  {
    hide Decimal, PadStart, Pow10;
    PadStartLength(m);
    PadStartLength(n);
    PowerOfNone();
  }

  lemma PowerOfNone()
    ensures Pow10(0) == 1
  {}

  /** At 10^12 they are not. */
  lemma InOrderEnds()
    ensures !InOrder(Pow10(PAD_WIDTH) - 1, Pow10(PAD_WIDTH))
  {
    hide Pow10, Decimal;
    PowerDigits(PAD_WIDTH);
    TenthOf(PAD_WIDTH);
  }

  lemma TenthOf(k: nat)
    requires k > 0
    ensures Pow10(1) == 10 && Pow10(k) / Pow10(1) == Pow10(k - 1) && Pow10(k) - 1 >= 9 * Pow10(k - 1) > 0
  {}

  lemma HeadBefore(x: string, y: string)
    requires x != "" && y != "" && UnitRank(x[0]) < UnitRank(y[0])
    ensures Before(x, y)
  {}

  lemma {:induction false} PowerDigits(k: nat)
    ensures Decimal(Pow10(k))[0] == '1' && |Decimal(Pow10(k))| == k + 1
    ensures k > 0 ==> Decimal(Pow10(k) - 1)[0] == '9' && |Decimal(Pow10(k) - 1)| == k
  {
    hide *;
    SmallDecimals();
    if k > 0 {
      var p := Pow10(k - 1);
      PowerDigits(k - 1);
      PowerStep(k);
      OneMoreDigit(p, 0);
      if k > 1 {
        PowerAboveOne(k - 1);
        OneMoreDigit(p - 1, 9);
      }
    }
  }

  lemma SmallDecimals()
    ensures Pow10(0) == 1 && Decimal(1) == [DigitChar(1)] && Decimal(9) == [DigitChar(9)]
    ensures DigitChar(1) == '1' && DigitChar(9) == '9'
  {}

  lemma PowerStep(k: nat)
    requires k > 0
    ensures Pow10(k) == 10 * Pow10(k - 1) + 0 && Pow10(k) - 1 == 10 * (Pow10(k - 1) - 1) + 9
  {}

  lemma OneMoreDigit(n: nat, d: nat)
    requires n > 0 && d < 10
    ensures Decimal(10 * n + d) == Decimal(n) + [DigitChar(d)]
  {}

  lemma PowerAboveOne(k: nat)
    requires k > 0
    ensures Pow10(k) > 1
  {}

  // ---------------------------------------------------- keys never collide

  lemma SlashSplits(a: string, b: string, s: string, t: string)
    requires '/' !in a && '/' !in b && a + ['/'] + s == b + ['/'] + t
    ensures a == b && s == t
  {
    CutAtConcat(a, s, '/');
    CutAtConcat(b, t, '/');
  }

  lemma RoomHasNoSlash(room: string)
    requires ValidRoom(room)
    ensures '/' !in room
  {}

  /** An event key names one room and one cursor. */
  lemma EventKeyInjective(r: string, m: nat, a: string, q: string, n: nat, b: string)
    requires ValidRoom(r) && ValidRoom(q) && m > 0 && n > 0
    requires EventKey(r, m, a) == EventKey(q, n, b)
    ensures r == q && m == n
  {
    hide Decimal, CutAt;
    RoomHasNoSlash(r);
    RoomHasNoSlash(q);
    var x, y := PadStart(Decimal(m)) + (['-'] + a), PadStart(Decimal(n)) + (['-'] + b);
    ConcatAssociative("issue/events/", r + ['/'], x);
    ConcatAssociative("issue/events/", q + ['/'], y);
    assert "issue/events/" + r + ['/'] == "issue/events/" + (r + ['/']);
    assert "issue/events/" + q + ['/'] == "issue/events/" + (q + ['/']);
    PrefixInjective("issue/events/", r + ['/'] + x, q + ['/'] + y);
    SlashSplits(r, q, x, y);
    EventKeyRoundTrip(r, m, a);
    EventKeyRoundTrip(q, n, b);
  }

  lemma SnapshotKeyInjective(r: string, a: string, q: string, b: string)
    requires ValidRoom(r) && ValidRoom(q) && SnapshotKey(r, a) == SnapshotKey(q, b)
    ensures r == q && a == b
  {
    hide CutAt;
    RoomHasNoSlash(r);
    RoomHasNoSlash(q);
    assert SnapshotKey(r, a) == "issue/snapshots/" + (r + ['/'] + a);
    assert SnapshotKey(q, b) == "issue/snapshots/" + (q + ['/'] + b);
    PrefixInjective("issue/snapshots/", r + ['/'] + a, q + ['/'] + b);
    SlashSplits(r, q, a, b);
  }

  lemma CursorKeyInjective(r: string, q: string)
    requires CursorKey(r) == CursorKey(q)
    ensures r == q
  {
    PrefixInjective("issue/cursors/", r, q);
  }

  /** The key of an envelope stored as itself. */
  function PlainKey(room: string, id: string): string { room + ['/'] + id }

  predicate IndexKey(k: string) { "issue/" <= k }

  lemma KindsOfKeyDiffer(r: string, n: int, a: string, q: string, b: string, p: string)
    ensures EventKey(r, n, a) != SnapshotKey(q, b) && EventKey(r, n, a) != CursorKey(p)
    ensures SnapshotKey(q, b) != CursorKey(p)
    ensures IndexKey(EventKey(r, n, a)) && IndexKey(SnapshotKey(q, b)) && IndexKey(CursorKey(p))
  {
    hide Decimal;
    assert EventKey(r, n, a)[6] == 'e' && SnapshotKey(q, b)[6] == 's' && CursorKey(p)[6] == 'c';
  }

  /** An envelope's own key falls among the index's keys only in the room called "issue". */
  lemma PlainKeyApart(room: string, id: string)
    requires ValidRoom(room)
    ensures IndexKey(PlainKey(room, id)) <==> room == "issue"
  {
    RoomHasNoSlash(room);
    var k := PlainKey(room, id);
    if IndexKey(k) {
      assert k == "issue" + ['/'] + k[6..];
      SlashSplits(room, "issue", id, k[6..]);
    }
    if room == "issue" { assert k[..6] == "issue/"; }
  }

  // ---------------------------------------------------------- derived fields

  predicate IssueTopic(topic: string) { topic == "issue" || "issue." <= topic }

  function Member(v: Json, name: string): Option<Json> {
    if v.Obj? && name in v.fields then Some(v.fields[name]) else None
  }

  /** A string member, trimmed; empty when absent. */
  function TextMember(v: Json, name: string): string {
    var m := Member(v, name);
    if m.Some? && m.value.Str? then Trim(m.value.s) else ""
  }

  function PayloadIssueId(payload: Json): string {
    var issue := Member(payload, "issue");
    if TextMember(payload, "issue_id") != "" then TextMember(payload, "issue_id")
    else if TextMember(payload, "issueId") != "" then TextMember(payload, "issueId")
    else if issue.Some? && TextMember(issue.value, "id") != "" then TextMember(issue.value, "id")
    else TextMember(payload, "id")
  }

  /** The issue an envelope is about; its own id when the payload names none. */
  function IssueId(e: Envelope): (id: string)
    requires WellFormed(e)
    ensures Name(id)
  {
    if PayloadIssueId(e.payload) != "" then PayloadIssueId(e.payload) else e.id
  }

  function Action(e: Envelope): (action: string)
    ensures action != ""
  {
    var kind := TextMember(e.payload, "kind");
    if "issue." <= e.topic then
      if Trim(e.topic[6..]) != "" then Trim(e.topic[6..]) else "upsert"
    else if "issue." <= kind then
      if Trim(kind[6..]) != "" then Trim(kind[6..]) else "upsert"
    else if kind != "" then kind
    else "upsert"
  }

  /** The time the source gives the change, in milliseconds; `dateMs` is `Date.parse`. */
  function SourceTime(payload: Json, dateMs: string -> Option<int>): Option<nat> {
    var direct := Member(payload, "source_updated_at_ms");
    if direct.Some? && direct.value.Num? && Trunc(direct.value.mantissa, direct.value.exponent) >= 0 then
      Some(Trunc(direct.value.mantissa, direct.value.exponent))
    else
      var issue := Member(payload, "issue");
      var raw := if issue.Some? then TextMember(issue.value, "updated_at") else "";
      if raw == "" then None
      else
        var ms := dateMs(raw);
        if ms.Some? && ms.value >= 0 then Some(ms.value) else None
  }

  datatype Source = GitHub | Bit | Other

  /** ASCII only: no other character has a lower case among the letters compared with. */
  function LowerCase(s: string): string {
    seq(|s|, i requires 0 <= i < |s| => if 'A' <= s[i] <= 'Z' then s[i] - 'A' + 'a' else s[i])
  }

  function SourceOf(payload: Json): Source {
    var name := LowerCase(TextMember(payload, "source"));
    if name == "github" then GitHub else if name == "bit" then Bit else Other
  }
}
