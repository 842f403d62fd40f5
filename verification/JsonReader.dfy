/** Reading JSON text by the grammar of RFC 8259, written without regard to the printer, and the proof that canonical
    text reads back: every literal, separator, quote and escape is the one the grammar gives the value, and the keys of
    every object come in order. White space between tokens is not read, since canonical text has none. */
module JsonReader {
  import opened Options
  import opened Ordering
  import opened Text
  import opened Json
  import opened CanonicalJson

  // ----------------------------------------------------------------- strings

  /** The two-character escapes of section 7. */
  const ESCAPES: map<char, char> :=
    map['"' := '"', '\\' := '\\', '/' := '/', 'b' := '\U{8}', 'f' := '\U{C}', 'n' := '\n', 'r' := '\r', 't' := '\t']

  /** The character a four-digit escape names; halves of surrogate pairs are not read. */
  function ReadUnit(digits: string): Option<char>
    requires |digits| == 4
  {
    if !(IsHexDigit(digits[0]) && IsHexDigit(digits[1]) && IsHexDigit(digits[2]) && IsHexDigit(digits[3])) then None
    else
      var n := HexNumber(digits);
      if n < 0xD800 || 0xE000 <= n < 0x1_0000 then Some(n as char) else None
  }

  /** Reads a string from after its opening quote; gives the string and what follows its closing quote. */
  function ReadString(s: string): (r: Option<(string, string)>)
    ensures r.Some? ==> |r.value.1| < |s|
  {
    if s == "" || s[0] < ' ' then None
    else if s[0] == '"' then Some(("", s[1..]))
    else if s[0] != '\\' then Cons(s[0], ReadString(s[1..]))
    else if |s| >= 2 && s[1] in ESCAPES then Cons(ESCAPES[s[1]], ReadString(s[2..]))
    else if |s| >= 6 && s[1] == 'u' && ReadUnit(s[2..6]).Some? then Cons(ReadUnit(s[2..6]).value, ReadString(s[6..]))
    else None
  }

  function Cons(c: char, r: Option<(string, string)>): Option<(string, string)> {
    if r.None? then None else Some(([c] + r.value.0, r.value.1))
  }

  // ----------------------------------------------------------------- numbers

  /** The number characters at the front. */
  function Token(s: string): (r: (string, string))
    ensures |r.0| + |r.1| == |s|
  {
    if s == "" || !NumberChar(s[0]) then ("", s)
    else
      var (token, rest) := Token(s[1..]);
      ([s[0]] + token, rest)
  }

  /** An integer part: no leading zero. */
  predicate Integer(s: string) { s != "" && AllDigits(s) && (s[0] == '0' ==> s == "0") }

  predicate SomeDigits(s: string) { s != "" && AllDigits(s) }

  /** `int [ frac ] [ exp ]` of section 6, with a small `e` and a signed exponent. */
  predicate Unsigned(s: string) {
    var (mantissa, exponent) := CutAt(s, 'e');
    var (whole, fraction) := CutAt(mantissa, '.');
    && Integer(whole) && ('.' in mantissa ==> SomeDigits(fraction))
    && ('e' in s ==> exponent != "" && (exponent[0] == '+' || exponent[0] == '-') && SomeDigits(exponent[1..]))
  }

  function ReadNumber(token: string): Option<Json> {
    if Unsigned(token) then
      var (m, e) := ReadNatural(token);
      Some(Num(m, e))
    else if token != "" && token[0] == '-' && Unsigned(token[1..]) then
      var (m, e) := ReadNatural(token[1..]);
      Some(Num(0 - m, e))
    else None
  }

  // ------------------------------------------------------------------ values

  type Result = Option<(Json, string)>

  /** Reads the value at the front; gives it and what follows. */
  function ReadValue(s: string): (r: Result)
    ensures r.Some? ==> |r.value.1| < |s|
    decreases |s|, 0
  {
    if "null" <= s then Some((Null, s[4..]))
    else if "true" <= s then Some((Bool(true), s[4..]))
    else if "false" <= s then Some((Bool(false), s[5..]))
    else if "\"" <= s then
      var r := ReadString(s[1..]);
      if r.None? then None else Some((Str(r.value.0), r.value.1))
    else if "[]" <= s then Some((Arr([]), s[2..]))
    else if "[" <= s then ReadItems(s[1..], [])
    else if "{}" <= s then Some((Obj([], map[]), s[2..]))
    else if "{" <= s then ReadFields(s[1..], [], map[])
    else
      var (token, rest) := Token(s);
      var number := ReadNumber(token);
      if token == "" || number.None? then None else Some((number.value, rest))
  }

  /** Reads an item, and more after a comma, up to the closing bracket. */
  function ReadItems(s: string, before: seq<Json>): (r: Result)
    ensures r.Some? ==> |r.value.1| < |s|
    decreases |s|, 1
  {
    var item := ReadValue(s);
    if item.None? then None
    else
      var (v, rest) := item.value;
      if "," <= rest then ReadItems(rest[1..], before + [v])
      else if "]" <= rest then Some((Arr(before + [v]), rest[1..]))
      else None
  }

  /** Reads a member, and more after a comma, up to the closing brace. A key that comes again keeps its place. */
  function ReadFields(s: string, keys: seq<string>, fields: map<string, Json>): (r: Result)
    ensures r.Some? ==> |r.value.1| < |s|
    decreases |s|, 1
  {
    if !("\"" <= s) then None
    else
      var name := ReadString(s[1..]);
      if name.None? || !(":" <= name.value.1) then None
      else
        var key := name.value.0;
        var member := ReadValue(name.value.1[1..]);
        if member.None? then None
        else
          var (v, rest) := member.value;
          var known := if key in fields then keys else keys + [key];
          if "," <= rest then ReadFields(rest[1..], known, fields[key := v])
          else if "}" <= rest then Some((Obj(known, fields[key := v]), rest[1..]))
          else None
  }

  // -------------------------------------------------------------- reading strings back

  lemma HexReads(d: nat)
    requires d < 16
    ensures IsHexDigit(HexDigit(d)) && HexValue(HexDigit(d)) == d
  {}

  lemma ControlReads(c: char, rest: string)
    requires c < ' ' && ShortEscape(c) == ' '
    ensures var s := EscapeThen(c, rest);
      |s| >= 6 && s[0] == '\\' && s[1] == 'u' && ReadUnit(s[2..6]) == Some(c) && s[6..] == rest
  {
    var h, l := c as nat / 16, c as nat % 16;
    var s := EscapeThen(c, rest);
    HexReads(h);
    HexReads(l);
    HexReads(0);
    var digits := [HexDigit(0), HexDigit(0), HexDigit(h), HexDigit(l)];
    assert HexDigit(0) == '0';
    assert s == ['\\', 'u'] + digits + rest;
    assert s[2..6] == digits && s[6..] == rest;
    assert HexNumber(digits) == c as nat;
  }

  lemma ShortReads(c: char, rest: string)
    requires ShortEscape(c) != ' '
    ensures var s := EscapeThen(c, rest);
      |s| >= 2 && s[0] == '\\' && s[1] in ESCAPES && ESCAPES[s[1]] == c && s[2..] == rest
  {
    assert EscapeThen(c, rest) == ['\\', ShortEscape(c)] + rest;
  }

  lemma PlainReads(c: char, rest: string)
    requires c >= ' ' && ShortEscape(c) == ' '
    ensures var s := EscapeThen(c, rest); s != "" && s[0] == c && c != '\\' && c != '"' && s[1..] == rest
  {}

  /** A printed string reads back. */
  lemma {:induction false} QuotedReads(s: string, rest: string)
    ensures ReadString(QuotedThen(s, rest)) == Some((s, rest))
  {
    if s != "" {
      hide ReadUnit, EscapeThen, ShortEscape;
      var c, more := s[0], QuotedThen(s[1..], rest);
      QuotedReads(s[1..], rest);
      assert s == [c] + s[1..];
      if ShortEscape(c) != ' ' {
        ShortReads(c, more);
      } else if c < ' ' {
        ControlReads(c, more);
        assert 'u' !in ESCAPES;
      } else {
        PlainReads(c, more);
      }
    }
  }

  // -------------------------------------------------------------- reading numbers back

  /** What follows a value in a document is no number character. */
  lemma {:induction false} TokenReads(a: string, rest: string)
    requires NumberChars(a) && Stops(rest)
    ensures Token(a + rest) == (a, rest)
  {
    if a == "" {
      assert a + rest == rest;
    } else {
      assert (a + rest)[1..] == a[1..] + rest;
      TokenReads(a[1..], rest);
      assert a == [a[0]] + a[1..];
    }
  }

  lemma FixedUnsigned(whole: string, fraction: string)
    requires Integer(whole) && AllDigits(fraction)
    ensures Unsigned(Fixed(whole, fraction))
  {
    hide ReadFixed;
    ReadFixedFixed(whole, fraction, 0);
    CutAtNothing(Fixed(whole, fraction), 'e');
    FixedCut(whole, fraction);
  }

  lemma FixedCut(whole: string, fraction: string)
    requires AllDigits(whole) && AllDigits(fraction)
    ensures CutAt(Fixed(whole, fraction), '.') == (whole, fraction)
    ensures '.' in Fixed(whole, fraction) <==> fraction != ""
  {
    if fraction == "" { CutAtNothing(whole, '.'); } else { CutAtConcat(whole, fraction, '.'); }
  }

  lemma ExponentialUnsigned(whole: string, fraction: string, x: int)
    requires Integer(whole) && AllDigits(fraction)
    ensures Unsigned(Fixed(whole, fraction) + ['e'] + SignedText(x))
  {
    hide ReadFixed, CutAt, Fixed;
    var s := Fixed(whole, fraction);
    ReadFixedFixed(whole, fraction, 0);
    CutAtConcat(s, SignedText(x), 'e');
    FixedCut(whole, fraction);
    SignedDigits(x);
    assert (s + ['e'] + SignedText(x))[|s|] == 'e';
  }

  lemma SignedDigits(x: int)
    ensures var s := SignedText(x); s != "" && (s[0] == '+' || s[0] == '-') && SomeDigits(s[1..])
  {
    assert SignedText(x)[1..] == Decimal(if x < 0 then -x else x);
  }

  lemma ZerosPlain(k: nat)
    ensures AllDigits(Zeros(k))
  {}

  /** All four forms of a positive number are written by the grammar. */
  lemma PointUnsigned(d: string, n: int)
    requires SomeDigits(d) && d[0] != '0'
    ensures Unsigned(PointText(d, n))
  {
    hide Unsigned, Fixed, CutAt;
    if |d| <= n <= 21 {
      LongerInteger(d, n - |d|);
      FixedUnsigned(d + Zeros(n - |d|), "");
      assert Fixed(d + Zeros(n - |d|), "") == d + Zeros(n - |d|) by { FixedAlone(d + Zeros(n - |d|)); }
    } else if 0 < n <= 21 {
      DigitsSplit(d, n);
      FixedUnsigned(d[..n], d[n..]);
    } else if -6 < n <= 0 {
      ParseLeadingZeros(-n, d);
      AllDigitsConcat(Zeros(-n), d);
      FixedUnsigned("0", Zeros(-n) + d);
    } else {
      DigitsSplit(d, 1);
      ExponentialUnsigned(d[..1], d[1..], n - 1);
    }
  }

  lemma FixedAlone(whole: string)
    ensures Fixed(whole, "") == whole
  {}

  lemma AllDigitsConcat(a: string, b: string)
    requires AllDigits(a) && AllDigits(b)
    ensures AllDigits(a + b)
  {}

  lemma LongerInteger(d: string, k: nat)
    requires SomeDigits(d) && d[0] != '0'
    ensures Integer(d + Zeros(k))
  {
    assert (d + Zeros(k))[0] == d[0];
  }

  /** A printed number reads back. */
  lemma NumberReads(m: int, e: int)
    requires NormalNumber(m, e)
    ensures ReadNumber(NumberText(m, e)) == Some(Num(m, e))
  {
    hide PointText, Unsigned, ReadNatural, ParseNat;
    if m == 0 {
      ZeroReads();
    } else {
      var k := if m < 0 then -m else m;
      var d := Decimal(k);
      DecimalParses(k);
      PointUnsigned(d, |d| + e);
      ReadPoint(d, |d| + e);
      if m < 0 {
        assert NumberText(m, e)[1..] == NaturalText(k, e);
        MinusIsNoDigit(NumberText(m, e));
      }
    }
  }

  lemma ZeroReads()
    ensures Unsigned("0") && ReadNatural("0") == (0, 0)
  {
    hide CutAt, ReadFixed;
    FixedUnsigned("0", "");
    ReadFixedAlone("0", "");
    assert "0" + "" == "0";
  }

  lemma MinusIsNoDigit(s: string)
    requires s != "" && s[0] == '-'
    ensures !Unsigned(s)
  {
    var (mantissa, _) := CutAt(s, 'e');
    var (whole, _) := CutAt(mantissa, '.');
    assert whole != "" && whole[0] == '-';
  }

  // -------------------------------------------------------------- reading values back

  /** The value with the keys of every object in code-unit order. */
  function Ordered(v: Json): Json
    requires Valid(v)
    decreases v
  {
    match v
    case Arr(items) => Arr(seq(|items|, i requires 0 <= i < |items| => Ordered(items[i])))
    case Obj(_, fields) => Obj(SortedKeys(v), map k | k in fields :: Ordered(fields[k]))
    case _ => v
  }

  /** The keys of every object ascend in code-unit order. */
  ghost predicate KeysAscend(v: Json) {
    match v
    case Arr(items) => forall i :: 0 <= i < |items| ==> KeysAscend(items[i])
    case Obj(keys, fields) => Ascending(Before, keys) && forall k :: k in fields ==> KeysAscend(fields[k])
    case _ => true
  }

  lemma {:induction false} OrderedSame(v: Json)
    requires Valid(v)
    ensures Same(v, Ordered(v)) && KeysAscend(Ordered(v)) && Valid(Ordered(v))
    decreases v
  {
    match v
    case Arr(items) =>
      forall i | 0 <= i < |items|
        ensures Same(items[i], Ordered(items[i])) && KeysAscend(Ordered(items[i])) && Valid(Ordered(items[i])) {
        OrderedSame(items[i]);
      }
    case Obj(keys, fields) =>
      BeforeIsOrder();
      SortAscending(Before, keys);
      AscendingDistinct(SortedKeys(v));
      forall k | k in fields
        ensures Same(fields[k], Ordered(fields[k])) && KeysAscend(Ordered(fields[k])) && Valid(Ordered(fields[k])) {
        OrderedSame(fields[k]);
      }
    case _ =>
  }

  lemma AscendingDistinct(keys: seq<string>)
    requires Ascending(Before, keys)
    ensures Distinct(keys)
  {
    forall i, j | 0 <= i < j < |keys| ensures keys[i] != keys[j] { BeforeIrreflexive(keys[i]); }
  }

  /** What is printed of a value, and of what follows it, reads back as the value with its keys in order, and as what
      follows. */
  lemma {:induction false} PrintReads(v: Json, rest: string)
    requires Valid(v) && Stops(rest)
    ensures ReadValue(PrintThen(v, rest)) == Some((Ordered(v), rest))
    decreases v, 3
  {
    hide ReadItems, ReadFields, ReadString, ReadNumber, Token, NumberText, QuotedThen;
    match v
    case Null => assert ("null" + rest)[4..] == rest;
    case Bool(b) => BoolReads(b, rest);
    case Num(m, e) => NumberValueReads(m, e, rest);
    case Str(s) =>
      QuotedReads(s, rest);
      ReadsByHead(PrintThen(v, rest));
      assert PrintThen(v, rest)[1..] == QuotedThen(s, rest);
    case Arr(items) => ArrayReads(v, rest);
    case Obj(_, _) => ObjectReads(v, rest);
  }

  /** The first character chooses what is read. */
  lemma ReadsByHead(s: string)
    requires s != ""
    ensures s[0] == '"' ==>
              ReadValue(s) == if ReadString(s[1..]).None? then None
                              else Some((Str(ReadString(s[1..]).value.0), ReadString(s[1..]).value.1))
    ensures s[0] == '[' && |s| > 1 ==>
              ReadValue(s) == if s[1] == ']' then Some((Arr([]), s[2..])) else ReadItems(s[1..], [])
    ensures s[0] == '{' && |s| > 1 ==>
              ReadValue(s) == if s[1] == '}' then Some((Obj([], map[]), s[2..])) else ReadFields(s[1..], [], map[])
    ensures IsDigit(s[0]) || s[0] == '-' ==>
              var (token, rest) := Token(s);
              ReadValue(s) == if token == "" || ReadNumber(token).None? then None
                              else Some((ReadNumber(token).value, rest))
  {
    hide ReadItems, ReadFields, ReadString, ReadNumber, Token;
  }

  lemma BoolReads(b: bool, rest: string)
    ensures ReadValue((if b then "true" else "false") + rest) == Some((Bool(b), rest))
  {
    hide ReadItems, ReadFields, ReadString, ReadNumber, Token;
    var word := if b then "true" else "false";
    var s := word + rest;
    assert word <= s && s[0] == word[0] && s[|word|..] == rest;
  }

  lemma NumberValueReads(m: int, e: int, rest: string)
    requires NormalNumber(m, e) && Stops(rest)
    ensures ReadValue(NumberText(m, e) + rest) == Some((Num(m, e), rest))
  {
    hide ReadValue, ReadNumber, NumberText, Token;
    var s := NumberText(m, e) + rest;
    NumberTextChars(m, e);
    ReadsByHead(s);
    TokenReads(NumberText(m, e), rest);
    NumberReads(m, e);
    assert s[0] == NumberText(m, e)[0];
  }

  lemma {:induction false} ArrayReads(v: Json, rest: string)
    requires Valid(v) && v.Arr? && Stops(rest)
    ensures ReadValue(PrintThen(v, rest)) == Some((Ordered(v), rest))
    decreases v, 2
  {
    hide ReadItems, ReadFields, ReadValue;
    var s := PrintThen(v, rest);
    assert s != "" && s[0] == '[';
    ReadsByHead(s);
    if v.items == [] {
      assert s == "[]" + rest && s[0] == '[' && s[1] == ']' && s[2..] == rest;
      assert Ordered(v).items == [];
    } else {
      var first := PrintThen(v.items[0], ItemsThen(v, 1, rest));
      assert s == ['['] + first && s[1..] == first;
      PrintHead(v.items[0], ItemsThen(v, 1, rest));
      assert s[1] == first[0];
      ItemsStop(v, 1, rest);
      ItemsRead(v, 0, rest);
      assert Ordered(v).items[..0] == [];
    }
  }

  lemma ItemsStop(v: Json, i: nat, rest: string)
    requires Valid(v) && v.Arr? && i <= |v.items|
    ensures Stops(ItemsThen(v, i, rest))
  {
    hide PrintThen;
  }

  /** The items from the i-th on. */
  lemma {:induction false} ItemsRead(v: Json, i: nat, rest: string)
    requires Valid(v) && v.Arr? && i < |v.items|
    ensures ReadItems(PrintThen(v.items[i], ItemsThen(v, i + 1, rest)), Ordered(v).items[..i])
            == Some((Ordered(v), rest))
    decreases v, 1, |v.items| - i
  {
    hide ReadFields, ReadValue, ReadString, ReadNumber, Token;
    var after := ItemsThen(v, i + 1, rest);
    var done := Ordered(v).items;
    ItemsStop(v, i + 1, rest);
    PrintReads(v.items[i], after);
    assert done[..i + 1] == done[..i] + [Ordered(v.items[i])];
    if i + 1 < |v.items| {
      assert after[1..] == PrintThen(v.items[i + 1], ItemsThen(v, i + 2, rest));
      ItemsRead(v, i + 1, rest);
    } else {
      assert after == "]" + rest;
      assert done[..i + 1] == done;
    }
  }

  /** The members read so far. */
  function Members(v: Json, ks: seq<string>): map<string, Json>
    requires Valid(v) && v.Obj? && forall k :: k in ks ==> k in v.fields
  {
    map k | k in ks :: Ordered(v.fields[k])
  }

  lemma {:induction false} ObjectReads(v: Json, rest: string)
    requires Valid(v) && v.Obj? && Stops(rest)
    ensures ReadValue(PrintThen(v, rest)) == Some((Ordered(v), rest))
    decreases v, 2
  {
    var ks := SortedKeys(v);
    var s := PrintThen(v, rest);
    assert s == ['{'] + BodyThen(v, ks, rest);
    ReadsByHead(s);
    hide ReadItems, ReadFields, ReadValue, PrintThen, SortedKeys, FieldsThen, Members;
    if ks == [] {
      assert s == ['{'] + BodyThen(v, ks, rest) && BodyThen(v, ks, rest) == ['}'] + rest;
      assert s == "{}" + rest && s[0] == '{' && s[1] == '}' && s[2..] == rest;
      AllMembers(v, ks);
      NoMembers(v);
    } else {
      var first := FieldThen(v, ks[0], FieldsThen(v, ks, 1, rest));
      assert s == ['{'] + first && s[1..] == first && s[1] == '"';
      SortedDistinct(v);
      NoMembers(v);
      FieldsRead(v, ks, 0, rest);
      assert ks[..0] == [] && Members(v, ks[..0]) == map[];
    }
  }

  lemma NoMembers(v: Json)
    requires Valid(v) && v.Obj?
    ensures Members(v, []) == map[]
  {}

  lemma SortedDistinct(v: Json)
    requires Valid(v) && v.Obj?
    ensures Distinct(SortedKeys(v))
  {
    BeforeIsOrder();
    SortAscending(Before, v.keys);
    AscendingDistinct(SortedKeys(v));
  }

  lemma FieldsStop(v: Json, ks: seq<string>, i: nat, rest: string)
    requires Valid(v) && v.Obj? && i <= |ks| && forall k :: k in ks ==> k in v.fields
    ensures Stops(FieldsThen(v, ks, i, rest))
  {
    hide FieldThen;
  }

  lemma MembersNext(v: Json, ks: seq<string>, i: nat)
    requires Valid(v) && v.Obj? && i < |ks| && Distinct(ks) && forall k :: k in ks ==> k in v.fields
    ensures ks[i] !in Members(v, ks[..i])
    ensures Members(v, ks[..i + 1]) == Members(v, ks[..i])[ks[i] := Ordered(v.fields[ks[i]])]
    ensures ks[..i + 1] == ks[..i] + [ks[i]]
  {
    assert ks[..i + 1] == ks[..i] + [ks[i]];
  }

  /** The members from the i-th on. */
  lemma {:induction false} FieldsRead(v: Json, ks: seq<string>, i: nat, rest: string)
    requires Valid(v) && v.Obj? && ks == SortedKeys(v) && Distinct(ks) && i < |ks|
    ensures ReadFields(FieldThen(v, ks[i], FieldsThen(v, ks, i + 1, rest)), ks[..i], Members(v, ks[..i]))
         == Some((Ordered(v), rest))
    decreases v, 1, |ks| - i
  {
    hide ReadItems, ReadValue, ReadString, QuotedThen, Members, SortedKeys, PrintThen, Ordered, Same;
    var k, after := ks[i], FieldsThen(v, ks, i + 1, rest);
    var value := PrintThen(v.fields[k], after);
    var s := FieldThen(v, k, after);
    assert s[1..] == QuotedThen(k, [':'] + value);
    QuotedReads(k, [':'] + value);
    assert ([':'] + value)[1..] == value;
    FieldsStop(v, ks, i + 1, rest);
    PrintReads(v.fields[k], after);
    MembersNext(v, ks, i);
    if i + 1 < |ks| {
      assert after[1..] == FieldThen(v, ks[i + 1], FieldsThen(v, ks, i + 2, rest));
      FieldsRead(v, ks, i + 1, rest);
    } else {
      assert after == "}" + rest;
      assert ks[..i + 1] == ks;
      AllMembers(v, ks);
    }
  }

  lemma AllMembers(v: Json, ks: seq<string>)
    requires Valid(v) && v.Obj? && ks == SortedKeys(v)
    ensures Obj(ks, Members(v, ks)) == Ordered(v)
  {
    hide Valid, SortedKeys;
    assert forall k :: k in ks <==> k in v.fields;
    var m := Members(v, ks);
    hide Members;
    assert forall k :: k in m <==> k in v.fields;
    match v
    case Obj(_, fields) =>
  }

  /** Canonical text reads back, all of it, as an equal value, and the keys of every object come in code-unit order. */
  lemma CanonicalReads(v: Json)
    requires Valid(v)
    ensures var r := ReadValue(Canonical(v));
      r.Some? && r.value.1 == "" && Same(v, r.value.0) && KeysAscend(r.value.0)
  {
    hide ReadValue, PrintThen;
    PrintReads(v, "");
    OrderedSame(v);
  }

  // -------------------------------------------------------------- the form chosen

  /** Of the ways to write a character, the shortest: as itself unless it must be escaped, with the two-character escape
      if there is one, and otherwise with four digits, letters in lower case. */
  lemma EscapeForm(c: char)
    ensures EscapeThen('"', "") == "\\\"" && EscapeThen('\\', "") == "\\\\" && EscapeThen('\n', "") == "\\n"
    ensures EscapeThen('\r', "") == "\\r" && EscapeThen('\t', "") == "\\t"
    ensures EscapeThen('\U{8}', "") == "\\b" && EscapeThen('\U{C}', "") == "\\f"
    ensures var text := EscapeThen(c, "");
      if c in {'"', '\\', '\n', '\r', '\t', '\U{8}', '\U{C}'} then |text| == 2
      else if c < ' ' then
        && |text| == 6 && text[..4] == "\\u00" && ReadUnit(text[2..6]) == Some(c)
        && forall i :: 4 <= i < 6 ==> !('A' <= text[i] <= 'F')
      else text == [c]
  {
    if c < ' ' && ShortEscape(c) == ' ' {
      ControlReads(c, "");
      LowerHex(c as nat / 16);
      LowerHex(c as nat % 16);
      var text := EscapeThen(c, "");
      assert text == ['\\', 'u', '0', '0', HexDigit(c as nat / 16), HexDigit(c as nat % 16)];
    }
  }

  lemma LowerHex(d: nat)
    requires d < 16
    ensures !('A' <= HexDigit(d) <= 'F')
  {}

  /** Where the decimal point of a number stands, counted from its first digit. */
  function PointPlace(m: int, e: int): int {
    |Decimal(if m < 0 then -m else m)| + e
  }

  lemma LastDigit(m: nat)
    requires m % 10 != 0
    ensures var d := Decimal(m); d[|d| - 1] != '0'
  {}

  /** The form ECMAScript gives a number: an exponent only from 10^21 on and below 10^-6, with one digit before the
      point; and no fraction that ends in a zero. */
  lemma NumberForm(m: nat, e: int)
    requires NormalNumber(m, e) && m > 0
    ensures var text, p := NumberText(m, e), PointPlace(m, e);
      var (mantissa, _) := CutAt(text, 'e');
      && ('e' in text <==> !(-6 < p <= 21))
      && ('.' in mantissa ==> mantissa[|mantissa| - 1] != '0')
      && ('e' in text ==> |CutAt(mantissa, '.').0| == 1)
  {
    hide CutAt, Fixed, Decimal, SignedText, Zeros;
    var d, p := Decimal(m), PointPlace(m, e);
    LastDigit(m);
    assert SomeDigits(d);
    if |d| <= p <= 21 {
      ZerosPlain(p - |d|);
      AllDigitsConcat(d, Zeros(p - |d|));
      CutAtNothing(d + Zeros(p - |d|), 'e');
    } else if 0 < p <= 21 {
      DigitsSplit(d, p);
      FixedForm(d[..p], d[p..]);
    } else if -6 < p <= 0 {
      ZerosPlain(-p);
      AllDigitsConcat(Zeros(-p), d);
      assert (Zeros(-p) + d)[|Zeros(-p) + d| - 1] == d[|d| - 1];
      FixedForm("0", Zeros(-p) + d);
    } else {
      DigitsSplit(d, 1);
      FixedForm(d[..1], d[1..]);
      var mantissa := Fixed(d[..1], d[1..]);
      CutAtConcat(mantissa, SignedText(p - 1), 'e');
      assert (mantissa + ['e'] + SignedText(p - 1))[|mantissa|] == 'e';
      FixedCut(d[..1], d[1..]);
    }
  }

  lemma FixedForm(whole: string, fraction: string)
    requires AllDigits(whole) && AllDigits(fraction) && (fraction != "" ==> fraction[|fraction| - 1] != '0')
    ensures var s := Fixed(whole, fraction);
      'e' !in s && CutAt(s, 'e') == (s, "") && ('.' in s ==> s[|s| - 1] != '0')
  {
    hide CutAt, ReadFixed;
    ReadFixedFixed(whole, fraction, 0);
    CutAtNothing(Fixed(whole, fraction), 'e');
  }

  /** A negative number is a minus sign and its opposite. */
  lemma NegativeForm(m: int, e: int)
    requires m > 0
    ensures NumberText(0 - m, e) == "-" + NumberText(m, e) && NumberText(0, 0) == "0"
  {
    hide NaturalText;
  }
}
