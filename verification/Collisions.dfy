/** When two envelopes with one id pass for duplicates (src/cache_exchange.ts, `classifyCacheExchangeCollision`): the
    text compared joins sender, topic, payload and signature by line ends, and a sender may hold line ends itself. */
module Collisions {
  import opened Options
  import opened Json
  import opened Text
  import opened CacheExchange
  import CanonicalJson

  predicate Agree(a: Envelope, b: Envelope) {
    a.sender == b.sender && a.topic == b.topic && Same(a.payload, b.payload) && a.signature == b.signature
  }

  function LineEnds(s: string): nat {
    if s == "" then 0 else (if s[0] == '\n' then 1 else 0) + LineEnds(s[1..])
  }

  lemma {:induction false} NoLineEnds(s: string)
    requires '\n' !in s
    ensures LineEnds(s) == 0
  {
    if s != "" { NoLineEnds(s[1..]); }
  }

  lemma {:induction false} LineSplit(a: string, b: string, s: string, t: string)
    requires LineEnds(a) == LineEnds(b) && a + ['\n'] + s == b + ['\n'] + t
    ensures a == b && s == t
  {
    var u, w := a + ['\n'] + s, b + ['\n'] + t;
    assert u[0] == w[0];
    if a == "" && b == "" {
      assert u == ['\n'] + s && w == ['\n'] + t;
      ConsInjective('\n', '\n', s, t);
    } else if a != "" && b != "" {
      assert u[1..] == a[1..] + ['\n'] + s && w[1..] == b[1..] + ['\n'] + t;
      LineSplit(a[1..], b[1..], s, t);
      assert a == [a[0]] + a[1..] && b == [b[0]] + b[1..];
    }
  }

  /** If the senders hold equally many line ends, a collision is a duplicate exactly when sender, topic, payload (up
      to key order) and signature agree. */
  lemma DuplicateIffAgree(a: Envelope, b: Envelope)
    requires WellFormed(a) && WellFormed(b) && LineEnds(a.sender) == LineEnds(b.sender)
    ensures Classify(a, b) == Duplicate <==> Agree(a, b)
  {
    ValidNames(a);
    ValidNames(b);
    NoLineEnds(a.topic);
    NoLineEnds(b.topic);
    CanonicalJson.CanonicalUnambiguous(a.payload, b.payload);
    var s, t := ['\n'] + SignatureText(a), ['\n'] + SignatureText(b);
    if Classify(a, b) == Duplicate {
      var p, q := CanonicalJson.Canonical(a.payload) + s, CanonicalJson.Canonical(b.payload) + t;
      LineSplit(a.sender, b.sender, a.topic + ['\n'] + p, b.topic + ['\n'] + q);
      LineSplit(a.topic, b.topic, p, q);
      CanonicalJson.CanonicalThen(a.payload, s);
      CanonicalJson.CanonicalThen(b.payload, t);
      CanonicalJson.PrefixFree(a.payload, b.payload, s, t);
      ConsInjective('\n', '\n', SignatureText(a), SignatureText(b));
    }
  }

  // -------------------------------------------------------- misclassified senders

  /** A line more: `t` is `s`, a line end and `more`. */
  predicate OneMore(s: string, more: string, t: string) { t == s + (['\n'] + more) }

  /** Beyond a shorter sender, the longer one goes on with a topic, or a topic and a canonical JSON text, or these and
      the start of a signature. */
  ghost predicate Extends(s: string, t: string) {
    || (exists topic :: ValidTopic(topic) && OneMore(s, topic, t))
    || (exists topic, v: Value :: ValidTopic(topic) && OneMore(s, topic + (['\n'] + CanonicalJson.Canonical(v)), t))
    || (exists topic, v: Value, u :: ValidTopic(topic) && u != "" && !IsSpace(u[0])
         && OneMore(s, topic + (['\n'] + (CanonicalJson.Canonical(v) + (['\n'] + u))), t))
  }

  /** Different envelopes with these senders that pass for duplicates. */
  ghost predicate Misclassified(a: Envelope, b: Envelope, s: string, t: string) {
    && WellFormed(a) && WellFormed(b) && a.sender == s && b.sender == t
    && Classify(a, b) == Duplicate && !Agree(a, b)
  }

  /** Equal texts, cut at the end of the first line of the one: the other line is the same, or goes on beyond it. */
  lemma NextLine(a: string, x: string, b: string, y: string)
    requires '\n' !in a && a + (['\n'] + x) == b + (['\n'] + y)
    ensures a == b || exists more :: OneMore(a, more, b) && x == more + (['\n'] + y)
  {
    var u, w := a + (['\n'] + x), b + (['\n'] + y);
    assert u[|a|] == '\n' && w[|b|] == '\n';
    assert u[..|a|] == a && w[..|b|] == b;
    assert forall i :: 0 <= i < |a| ==> u[i] == a[i] && u[i] != '\n';
    if |a| < |b| {
      var more := b[|a| + 1..];
      assert b == w[..|b|] && b[|a|] == '\n';
      assert b == a + (['\n'] + more);
      assert x == u[|a| + 1..] && w[|a| + 1..] == more + (['\n'] + y);
      assert OneMore(a, more, b);
    }
  }

  /** Beyond a shorter sender, whatever lines it holds. */
  lemma SendersExtend(a: Envelope, b: Envelope)
    requires WellFormed(a) && WellFormed(b) && Classify(a, b) == Duplicate && |a.sender| < |b.sender|
    ensures Extends(a.sender, b.sender)
  {
    hide ValidTopic, Name, ValidRoom, IsSpace, CanonicalJson.Canonical;
    ValidNames(a);
    var s, t := a.sender, b.sender;
    var canonA, canonB := CanonicalJson.Canonical(a.payload), CanonicalJson.Canonical(b.payload);
    var sigA, sigB := SignatureText(a), SignatureText(b);
    TextOf(a);
    TextOf(b);
    var restB := b.topic + (['\n'] + (canonB + (['\n'] + sigB)));
    var more := SenderGoesOn(s, t, a.topic + (['\n'] + (canonA + (['\n'] + sigA))), restB);
    NextLine(a.topic, canonA + (['\n'] + sigA), more, restB);
    if more != a.topic {
      var more2 :| OneMore(a.topic, more2, more) && canonA + (['\n'] + sigA) == more2 + (['\n'] + restB);
      OneLine(a.payload);
      NextLine(canonA, sigA, more2, restB);
      if more2 != canonA {
        var more3 :| OneMore(canonA, more3, more2) && sigA == more3 + (['\n'] + restB);
        StartsSignature(a, more3, restB);
      }
    }
  }

  lemma OneLine(v: Value)
    ensures '\n' !in CanonicalJson.Canonical(v)
  {
    CanonicalJson.PrintOneLine(v, "");
  }

  lemma SenderGoesOn(s: string, t: string, x: string, y: string) returns (more: string)
    requires s + (['\n'] + x) == t + (['\n'] + y) && |s| < |t|
    ensures OneMore(s, more, t) && x == more + (['\n'] + y)
  {
    var u, w := s + (['\n'] + x), t + (['\n'] + y);
    more := t[|s| + 1..];
    assert u[|s|] == '\n' && w[|s|] == t[|s|];
    assert u[..|s|] == s && w[..|s|] == t[..|s|];
    assert t == s + (['\n'] + more);
    assert x == u[|s| + 1..] && w[|s| + 1..] == more + (['\n'] + y);
  }

  /** A signature is trimmed, so it cannot start with the line end. */
  lemma StartsSignature(e: Envelope, u: string, rest: string)
    requires WellFormed(e) && SignatureText(e) == u + (['\n'] + rest)
    ensures u != "" && !IsSpace(u[0])
  {
    hide ValidTopic, ValidRoom;
    assert IsSpace('\n');
    assert SignatureText(e) != "" && SignatureText(e)[0] == if u == "" then '\n' else u[0];
  }

  const ZERO: Value := Num(0, 0)

  lemma ZeroText()
    ensures CanonicalJson.Canonical(ZERO) == "0" && Valid(Null) && CanonicalJson.Canonical(Null) == "null"
  {}

  /** The envelope of the longer sender and the text it is compared by. */
  lemma LongerText(t: string, topic: string)
    requires Name(t) && ValidTopic(topic)
    ensures var b := Envelope("r", "m", t, topic, ZERO, Some("z"));
      WellFormed(b) && CanonicalSignature(b) == t + (['\n'] + (topic + (['\n'] + "0\nz")))
  {
    ZeroText();
    hide CanonicalJson.Canonical;
    assert "0" + (['\n'] + "z") == "0\nz";
  }

  lemma ShortNames()
    ensures ValidRoom("r") && Name("m") && Name("z") && ValidTopic("t") && ValidTopic("null")
    ensures Name("0\nz") && Name("t\n0\nz")
  {}

  lemma ShorterWellFormed(s: string, topic: string, v: Value, signature: string)
    requires Name(s) && ValidTopic(topic) && Name(signature)
    ensures WellFormed(Envelope("r", "m", s, topic, v, Some(signature)))
  {
    ShortNames();
  }

  /** Two envelopes with one text whose senders differ. */
  lemma SameTextMisclassified(a: Envelope, b: Envelope, more: string)
    requires WellFormed(a) && WellFormed(b) && OneMore(a.sender, more, b.sender)
    requires a.sender + (['\n'] + (a.topic + (['\n'] +
                (CanonicalJson.Canonical(a.payload) + (['\n'] + SignatureText(a))))))
          == CanonicalSignature(b)
    ensures Misclassified(a, b, a.sender, b.sender)
  {
    hide CanonicalSignature, CanonicalJson.Canonical, WellFormed, Same;
    TextOf(a);
    assert |b.sender| > |a.sender|;
  }

  lemma ExtendedByTopic(s: string, t: string, topic: string)
    requires Name(s) && Name(t) && ValidTopic(topic) && OneMore(s, topic, t)
    ensures exists a, b :: Misclassified(a, b, s, t)
  {
    ShortNames();
    ZeroText();
    hide *;
    LongerText(t, "null");
    var a := Envelope("r", "m", s, topic, Null, Some("0\nz"));
    var b := Envelope("r", "m", t, "null", ZERO, Some("z"));
    ShorterWellFormed(s, topic, Null, "0\nz");
    TopicLines(s, topic, t);
    SignatureOf(a);
    SameTextMisclassified(a, b, topic);
  }

  lemma ExtendedByPayload(s: string, t: string, topic: string, v: Value)
    requires Name(s) && Name(t) && ValidTopic(topic) && OneMore(s, topic + (['\n'] + CanonicalJson.Canonical(v)), t)
    ensures exists a, b :: Misclassified(a, b, s, t)
  {
    ShortNames();
    hide *;
    LongerText(t, "t");
    var a := Envelope("r", "m", s, topic, v, Some("t\n0\nz"));
    var b := Envelope("r", "m", t, "t", ZERO, Some("z"));
    ShorterWellFormed(s, topic, v, "t\n0\nz");
    PayloadLines(s, topic, CanonicalJson.Canonical(v), t);
    SignatureOf(a);
    SameTextMisclassified(a, b, topic + (['\n'] + CanonicalJson.Canonical(v)));
  }

  lemma ExtendedBySignature(s: string, t: string, topic: string, v: Value, u: string)
    requires Name(s) && Name(t) && ValidTopic(topic) && u != "" && !IsSpace(u[0])
    requires OneMore(s, topic + (['\n'] + (CanonicalJson.Canonical(v) + (['\n'] + u))), t)
    ensures exists a, b :: Misclassified(a, b, s, t)
  {
    ShortNames();
    hide *;
    LongerText(t, "t");
    var signature := u + (['\n'] + "t\n0\nz");
    var a := Envelope("r", "m", s, topic, v, Some(signature));
    var b := Envelope("r", "m", t, "t", ZERO, Some("z"));
    SignatureName(u);
    ShorterWellFormed(s, topic, v, signature);
    SignatureLines(s, topic, CanonicalJson.Canonical(v), u, t);
    SignatureOf(a);
    SameTextMisclassified(a, b, topic + (['\n'] + (CanonicalJson.Canonical(v) + (['\n'] + u))));
  }

  lemma SignatureOf(e: Envelope)
    ensures e.signature.Some? ==> SignatureText(e) == e.signature.value
  {}

  /** Each such pair of senders is reached. */
  lemma ExtendingMisclassified(s: string, t: string)
    requires Name(s) && Name(t) && Extends(s, t)
    ensures exists a, b :: Misclassified(a, b, s, t)
  {
    hide ValidTopic, Name, IsSpace, CanonicalJson.Canonical, Misclassified, OneMore;
    if topic :| ValidTopic(topic) && OneMore(s, topic, t) {
      ExtendedByTopic(s, t, topic);
    } else if topic, v: Value :| ValidTopic(topic) && OneMore(s, topic + (['\n'] + CanonicalJson.Canonical(v)), t) {
      ExtendedByPayload(s, t, topic, v);
    } else {
      var topic, v: Value, u :| ValidTopic(topic) && u != "" && !IsSpace(u[0])
        && OneMore(s, topic + (['\n'] + (CanonicalJson.Canonical(v) + (['\n'] + u))), t);
      ExtendedBySignature(s, t, topic, v, u);
    }
  }

  lemma TextOf(e: Envelope)
    ensures CanonicalSignature(e)
         == e.sender + (['\n'] + (e.topic + (['\n'] +
              (CanonicalJson.Canonical(e.payload) + (['\n'] + SignatureText(e))))))
  {
    hide CanonicalJson.Canonical;
    ConcatAssociative(e.sender, ['\n'],
                      e.topic + (['\n'] + (CanonicalJson.Canonical(e.payload) + (['\n'] + SignatureText(e)))));
  }

  lemma SignatureName(u: string)
    requires u != "" && !IsSpace(u[0])
    ensures Name(u + (['\n'] + "t\n0\nz"))
  {}

  /** The last step of each case: one text cut in two ways. */
  lemma Regroup(s: string, more: string, t: string, rest: string)
    requires OneMore(s, more, t)
    ensures t + (['\n'] + rest) == s + (['\n'] + (more + (['\n'] + rest)))
  {
    ConcatAssociative(s, ['\n'] + more, ['\n'] + rest);
    ConcatAssociative(['\n'], more, ['\n'] + rest);
  }

  lemma TopicLines(s: string, topic: string, t: string)
    requires OneMore(s, topic, t)
    ensures s + (['\n'] + (topic + (['\n'] + ("null" + (['\n'] + "0\nz")))))
         == t + (['\n'] + ("null" + (['\n'] + "0\nz")))
  {
    Regroup(s, topic, t, "null" + (['\n'] + "0\nz"));
  }

  lemma PayloadLines(s: string, topic: string, text: string, t: string)
    requires OneMore(s, topic + (['\n'] + text), t)
    ensures s + (['\n'] + (topic + (['\n'] + (text + (['\n'] + "t\n0\nz")))))
         == t + (['\n'] + ("t" + (['\n'] + "0\nz")))
  {
    Regroup(s, topic + (['\n'] + text), t, "t\n0\nz");
    ConcatAssociative(topic, ['\n'] + text, ['\n'] + "t\n0\nz");
    ConcatAssociative(['\n'], text, ['\n'] + "t\n0\nz");
    assert "t" + (['\n'] + "0\nz") == "t\n0\nz";
  }

  lemma SignatureLines(s: string, topic: string, text: string, u: string, t: string)
    requires OneMore(s, topic + (['\n'] + (text + (['\n'] + u))), t)
    ensures s + (['\n'] + (topic + (['\n'] + (text + (['\n'] + (u + (['\n'] + "t\n0\nz")))))))
         == t + (['\n'] + ("t" + (['\n'] + "0\nz")))
  {
    var tail := ['\n'] + "t\n0\nz";
    Regroup(s, topic + (['\n'] + (text + (['\n'] + u))), t, "t\n0\nz");
    ConcatAssociative(topic, ['\n'] + (text + (['\n'] + u)), tail);
    ConcatAssociative(['\n'], text + (['\n'] + u), tail);
    ConcatAssociative(text, ['\n'] + u, tail);
    ConcatAssociative(['\n'], u, tail);
    assert "t" + (['\n'] + "0\nz") == "t\n0\nz";
  }

  /** Two senders admit different envelopes that pass for duplicates exactly when one goes on beyond the other with
      what can follow a sender in the text compared. */
  lemma MisclassifiedIff(s: string, t: string)
    ensures (exists a, b :: Misclassified(a, b, s, t)) <==> Name(s) && Name(t) && (Extends(s, t) || Extends(t, s))
  {
    hide ValidTopic, Name, Extends, CanonicalSignature, Same;
    if a, b :| Misclassified(a, b, s, t) {
      SendersOf(a, b, s, t);
      if |s| < |t| {
        SendersExtend(a, b);
      } else if |t| < |s| {
        SendersExtend(b, a);
      } else {
        SameLengthAgree(a, b);
      }
    }
    if Name(s) && Name(t) && Extends(s, t) { ExtendingMisclassified(s, t); }
    if Name(s) && Name(t) && Extends(t, s) {
      ExtendingMisclassified(t, s);
      var a, b :| Misclassified(a, b, t, s);
      MisclassifiedBothWays(a, b, t, s);
    }
  }

  /** For instance the senders "s" and "s", a line end, "t". */
  lemma NewlineSenderMisclassified()
    ensures exists a, b :: Misclassified(a, b, "s", "s\nt")
  {
    ShortNames();
    assert Name("s") && Name("s\nt") && OneMore("s", "t", "s\nt");
    hide *;
    ExtendedByTopic("s", "s\nt", "t");
  }

  lemma SendersOf(a: Envelope, b: Envelope, s: string, t: string)
    requires Misclassified(a, b, s, t)
    ensures Name(s) && Name(t) && Classify(b, a) == Duplicate
  {
    hide ValidTopic, ValidRoom, CanonicalSignature, Name;
  }

  lemma MisclassifiedBothWays(a: Envelope, b: Envelope, s: string, t: string)
    requires Misclassified(a, b, s, t)
    ensures Misclassified(b, a, t, s)
  {
    hide CanonicalJson.Canonical, WellFormed;
    CanonicalJson.CanonicalUnambiguous(a.payload, b.payload);
    CanonicalJson.CanonicalUnambiguous(b.payload, a.payload);
  }

  /** Senders of one length are the same if the texts are. */
  lemma SameLengthAgree(a: Envelope, b: Envelope)
    requires WellFormed(a) && WellFormed(b) && Classify(a, b) == Duplicate && |a.sender| == |b.sender|
    ensures Agree(a, b)
  {
    assert a.sender == b.sender by {
      hide CanonicalJson.Canonical, WellFormed;
      assert CanonicalSignature(a)[..|a.sender|] == a.sender;
      assert CanonicalSignature(b)[..|b.sender|] == b.sender;
    }
    DuplicateIffAgree(a, b);
  }
}
