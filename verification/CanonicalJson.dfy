/** The canonical JSON printer of src/signing.ts, and the proof that it is unambiguous. */
module CanonicalJson {
  import opened Ordering
  import opened Text
  import opened Json

  // ----------------------------------------------------------------- numbers

  /** ECMAScript's Number-to-string of a positive number whose digits are `d` and whose decimal
      point stands after the first `n` of them. */
  function PointText(d: string, n: int): string
    requires d != ""
  {
    if |d| <= n <= 21 then d + Zeros(n - |d|)
    else if 0 < n <= 21 then Fixed(d[..n], d[n..])
    else if -6 < n <= 0 then Fixed("0", Zeros(-n) + d)
    else Fixed(d[..1], d[1..]) + ['e'] + SignedText(n - 1)
  }

  function Fixed(whole: string, fraction: string): string {
    if fraction == "" then whole else whole + ['.'] + fraction
  }

  function SignedText(x: int): string {
    if x < 0 then ['-'] + Decimal(-x) else ['+'] + Decimal(x)
  }

  function NaturalText(m: nat, e: int): string
    requires m > 0
  {
    PointText(Decimal(m), |Decimal(m)| + e)
  }

  function NumberText(m: int, e: int): string {
    if m == 0 then "0"
    else if m < 0 then ['-'] + NaturalText(-m, e)
    else NaturalText(m, e)
  }

  /** Reads `whole.fraction`. */
  function ReadFixed(s: string, x: int): (nat, int) {
    var (whole, fraction) := CutAt(s, '.');
    if AllDigits(whole + fraction) then Normalize(ParseNat(whole + fraction), x - |fraction|) else (0, 0)
  }

  function ReadSigned(s: string): int {
    if s == "" || !AllDigits(s[1..]) then 0
    else if s[0] == '-' then 0 - ParseNat(s[1..])
    else ParseNat(s[1..])
  }

  /** Reads a printed positive number back. */
  function ReadNatural(s: string): (nat, int) {
    var (mantissa, exponent) := CutAt(s, 'e');
    ReadFixed(mantissa, ReadSigned(exponent))
  }

  lemma ReadFixedFixed(whole: string, fraction: string, x: int)
    requires AllDigits(whole) && AllDigits(fraction)
    ensures ReadFixed(Fixed(whole, fraction), x) == Normalize(ParseNat(whole + fraction), x - |fraction|)
    ensures 'e' !in Fixed(whole, fraction)
  {
    hide ParseNat, Normalize, CutAt;
    if fraction == "" { CutAtNothing(whole, '.'); } else { CutAtConcat(whole, fraction, '.'); }
  }

  lemma ReadFixedAlone(whole: string, fraction: string)
    requires AllDigits(whole) && AllDigits(fraction)
    ensures ReadNatural(Fixed(whole, fraction)) == Normalize(ParseNat(whole + fraction), 0 - |fraction|)
  {
    hide ParseNat, Normalize, CutAt, ReadFixed;
    ReadFixedFixed(whole, fraction, 0);
    CutAtNothing(Fixed(whole, fraction), 'e');
  }

  lemma ReadSignedText(x: int)
    ensures ReadSigned(SignedText(x)) == x
  {
    assert SignedText(x)[1..] == Decimal(if x < 0 then -x else x);
    DecimalParses(if x < 0 then -x else x);
  }

  lemma ReadExponential(whole: string, fraction: string, x: int)
    requires AllDigits(whole) && AllDigits(fraction)
    ensures ReadNatural(Fixed(whole, fraction) + ['e'] + SignedText(x))
         == Normalize(ParseNat(whole + fraction), x - |fraction|)
  {
    hide ParseNat, Normalize, CutAt, ReadFixed, ReadSigned, SignedText;
    ReadFixedFixed(whole, fraction, x);
    CutAtConcat(Fixed(whole, fraction), SignedText(x), 'e');
    ReadSignedText(x);
  }

  lemma ParseLeadingZeros(z: nat, d: string)
    requires AllDigits(d)
    ensures AllDigits(Zeros(z) + d) && ParseNat("0" + (Zeros(z) + d)) == ParseNat(d)
  {
    assert "0" + (Zeros(z) + d) == Zeros(1 + z) + d;
    ParseZeros(1 + z);
    ParseNatAppend(Zeros(1 + z), d);
  }

  lemma ReadTrailingZeros(d: string, z: nat)
    requires AllDigits(d) && ParseNat(d) > 0
    ensures ReadNatural(d + Zeros(z)) == Normalize(ParseNat(d), z)
  {
    hide ParseNat, Normalize, ReadNatural, Pow10;
    ParseZeros(z);
    ParseNatAppend(d, Zeros(z));
    ReadFixedAlone(d + Zeros(z), "");
    assert d + Zeros(z) + "" == d + Zeros(z);
    NormalizeScaled(ParseNat(d), z, 0);
  }

  lemma DigitsSplit(d: string, k: nat)
    requires k <= |d| && AllDigits(d)
    ensures AllDigits(d[..k]) && AllDigits(d[k..]) && d[..k] + d[k..] == d
  {}

  lemma ReadPlain(d: string, n: nat)
    requires n <= |d| && AllDigits(d)
    ensures ReadNatural(Fixed(d[..n], d[n..])) == Normalize(ParseNat(d), n - |d|)
  {
    hide ParseNat, Normalize, ReadNatural, Fixed;
    DigitsSplit(d, n);
    ReadFixedAlone(d[..n], d[n..]);
  }

  lemma ReadSmall(d: string, z: nat)
    requires AllDigits(d)
    ensures ReadNatural(Fixed("0", Zeros(z) + d)) == Normalize(ParseNat(d), 0 - z - |d|)
  {
    hide ParseNat, Normalize, ReadNatural, Fixed, Zeros;
    ParseLeadingZeros(z, d);
    ReadFixedAlone("0", Zeros(z) + d);
  }

  lemma ReadScientific(d: string, n: int)
    requires d != "" && AllDigits(d)
    ensures ReadNatural(Fixed(d[..1], d[1..]) + ['e'] + SignedText(n - 1)) == Normalize(ParseNat(d), n - |d|)
  {
    hide ParseNat, Normalize, ReadNatural, Fixed, SignedText;
    DigitsSplit(d, 1);
    ReadExponential(d[..1], d[1..], n - 1);
  }

  predicate Reads(s: string, d: string, n: int)
    requires AllDigits(d)
  {
    ReadNatural(s) == Normalize(ParseNat(d), n - |d|)
  }

  lemma ReadPointInRange(d: string, n: int)
    requires d != "" && AllDigits(d) && ParseNat(d) > 0 && -6 < n <= 21
    ensures Reads(PointText(d, n), d, n)
  {
    hide ParseNat, Normalize, CutAt, Pow10;
    if n <= 0 {
      ReadSmall(d, -n);
    } else if |d| <= n {
      ReadTrailingZeros(d, n - |d|);
    } else {
      ReadPlain(d, n);
    }
  }

  lemma ReadPointOutOfRange(d: string, n: int)
    requires d != "" && AllDigits(d) && !(-6 < n <= 21)
    ensures Reads(PointText(d, n), d, n)
  {
    ReadScientific(d, n);
  }

  /** Reading back what was printed, in each of the printer's four forms. */
  lemma ReadPoint(d: string, n: int)
    requires d != "" && AllDigits(d) && ParseNat(d) > 0
    ensures Reads(PointText(d, n), d, n)
  {
    if -6 < n <= 21 { ReadPointInRange(d, n); } else { ReadPointOutOfRange(d, n); }
  }

  lemma NaturalTextInjective(m: nat, e: int, m': nat, e': int)
    requires m > 0 && m' > 0 && NormalNumber(m, e) && NormalNumber(m', e')
    requires NaturalText(m, e) == NaturalText(m', e')
    ensures m == m' && e == e'
  {
    hide ParseNat, ReadNatural, PointText;
    DecimalParses(m);
    DecimalParses(m');
    ReadPoint(Decimal(m), |Decimal(m)| + e);
    ReadPoint(Decimal(m'), |Decimal(m')| + e');
  }

  lemma NaturalTextNotZero(m: nat, e: int)
    requires m > 0 && NormalNumber(m, e)
    ensures NaturalText(m, e) != "0"
  {
    hide PointText, CutAt;
    ReadPoint(Decimal(m), |Decimal(m)| + e);
    ReadFixedAlone("0", "");
    assert "0" + "" == "0";
  }

  lemma PointTextHead(d: string, n: int)
    requires d != "" && IsDigit(d[0])
    ensures PointText(d, n) != "" && IsDigit(PointText(d, n)[0])
  {}

  predicate NumberChar(c: char) { IsDigit(c) || c == '+' || c == '-' || c == '.' || c == 'e' }

  predicate NumberChars(s: string) { forall i :: 0 <= i < |s| ==> NumberChar(s[i]) }

  lemma FixedChars(whole: string, fraction: string)
    requires AllDigits(whole) && AllDigits(fraction)
    ensures NumberChars(Fixed(whole, fraction))
  {}

  lemma SignedTextChars(x: int)
    ensures NumberChars(SignedText(x))
  {}

  lemma NumberCharsConcat(s: string, t: string)
    requires NumberChars(s) && NumberChars(t)
    ensures NumberChars(s + t)
  {}

  lemma PointTextChars(d: string, n: int)
    requires d != "" && AllDigits(d)
    ensures NumberChars(PointText(d, n))
  {
    if |d| <= n <= 21 {
      NumberCharsConcat(d, Zeros(n - |d|));
    } else if 0 < n <= 21 {
      DigitsSplit(d, n);
      FixedChars(d[..n], d[n..]);
    } else if -6 < n <= 0 {
      ParseLeadingZeros(-n, d);
      FixedChars("0", Zeros(-n) + d);
    } else {
      DigitsSplit(d, 1);
      FixedChars(d[..1], d[1..]);
      NumberCharsConcat(Fixed(d[..1], d[1..]), ['e']);
      SignedTextChars(n - 1);
      NumberCharsConcat(Fixed(d[..1], d[1..]) + ['e'], SignedText(n - 1));
    }
  }

  lemma NumberTextChars(m: int, e: int)
    ensures NumberText(m, e) != "" && NumberChars(NumberText(m, e))
    ensures if m < 0 then NumberText(m, e)[0] == '-' else IsDigit(NumberText(m, e)[0])
  {
    hide PointText, NumberChar;
    ZeroIsDigit();
    if m != 0 {
      var d := Decimal(if m < 0 then -m else m);
      PointTextHead(d, |d| + e);
      PointTextChars(d, |d| + e);
      var t := PointText(d, |d| + e);
      assert t == NaturalText(if m < 0 then -m else m, e);
      NumberCharsConcat(['-'], t);
    }
  }

  lemma ZeroIsDigit()
    ensures IsDigit('0') && NumberChars("0") && NumberChars(['-'])
  {}

  /** Two numbers print alike only when they are the same number. */
  lemma NumberTextInjective(m: int, e: int, m': int, e': int)
    requires NormalNumber(m, e) && NormalNumber(m', e')
    requires NumberText(m, e) == NumberText(m', e')
    ensures m == m' && e == e'
  {
    hide NaturalText;
    NumberTextChars(m, e);
    NumberTextChars(m', e');
    if m > 0 { NaturalTextNotZero(m, e); }
    if m' > 0 { NaturalTextNotZero(m', e'); }
    if m > 0 && m' > 0 {
      NaturalTextInjective(m, e, m', e');
    } else if m < 0 && m' < 0 {
      ConsInjective('-', '-', NaturalText(-m, e), NaturalText(-m', e'));
      NaturalTextInjective(-m, e, -m', e');
    }
  }

  // ----------------------------------------------------------------- strings

  /** The letter of a two-character escape, or a blank. */
  function ShortEscape(c: char): char {
    if c == '"' then '"'
    else if c == '\\' then '\\'
    else if c == '\U{8}' then 'b'
    else if c == '\U{C}' then 'f'
    else if c == '\n' then 'n'
    else if c == '\r' then 'r'
    else if c == '\t' then 't'
    else ' '
  }

  /** One character as `JSON.stringify` escapes it (section 7 of RFC 8259), before `rest`. */
  function EscapeThen(c: char, rest: string): string {
    if ShortEscape(c) != ' ' then ['\\'] + ([ShortEscape(c)] + rest)
    else if c < ' ' then
      ['\\'] + (['u'] + (['0'] + (['0'] + ([HexDigit(c as nat / 16)] + ([HexDigit(c as nat % 16)] + rest)))))
    else [c] + rest
  }

  /** The escapes form a prefix code. */
  lemma EscapePrefixFree(c: char, d: char, s: string, t: string)
    requires EscapeThen(c, s) == EscapeThen(d, t)
    ensures c == d && s == t
  {
    assert EscapeThen(c, s)[0] == EscapeThen(d, t)[0];
    assert EscapeThen(c, s)[1..] == EscapeThen(d, t)[1..];
    if EscapeThen(c, s)[0] == '\\' {
      if ShortEscape(c) != ' ' && ShortEscape(d) != ' ' {
        ConsInjective(ShortEscape(c), ShortEscape(d), s, t);
      } else {
        assert EscapeThen(c, s)[1] == EscapeThen(d, t)[1];
        ControlEscapeInjective(c, d, s, t);
      }
    } else {
      ConsInjective(c, d, s, t);
    }
  }

  lemma ControlEscapeInjective(c: char, d: char, s: string, t: string)
    requires c < ' ' && d < ' ' && ShortEscape(c) == ShortEscape(d) == ' '
    requires EscapeThen(c, s) == EscapeThen(d, t)
    ensures c == d && s == t
  {
    var a, b := EscapeThen(c, s), EscapeThen(d, t);
    assert a[4] == HexDigit(c as nat / 16) && b[4] == HexDigit(d as nat / 16);
    assert a[5] == HexDigit(c as nat % 16) && b[5] == HexDigit(d as nat % 16);
    HexDigitInjective(c as nat / 16, d as nat / 16);
    HexDigitInjective(c as nat % 16, d as nat % 16);
    assert c as nat == d as nat;
    assert s == a[6..] && t == b[6..];
  }

  lemma HexDigitInjective(x: nat, y: nat)
    requires x < 16 && y < 16 && HexDigit(x) == HexDigit(y)
    ensures x == y
  {}

  /** The characters of a string literal after its opening quote, then `rest`. */
  function QuotedThen(s: string, rest: string): string {
    if s == "" then ['"'] + rest else EscapeThen(s[0], QuotedThen(s[1..], rest))
  }

  lemma {:induction false} QuotedPrefixFree(s: string, t: string, x: string, y: string)
    requires QuotedThen(s, x) == QuotedThen(t, y)
    ensures s == t && x == y
  {
    assert QuotedThen(s, x)[0] == QuotedThen(t, y)[0];
    if s == "" && t == "" {
      ConsInjective('"', '"', x, y);
    } else if s != "" && t != "" {
      EscapePrefixFree(s[0], t[0], QuotedThen(s[1..], x), QuotedThen(t[1..], y));
      QuotedPrefixFree(s[1..], t[1..], x, y);
      assert s == [s[0]] + s[1..] && t == [t[0]] + t[1..];
    }
  }

  // ------------------------------------------------------------------ values

  /** The canonical text: object keys in code-unit order, no white space. */
  function Canonical(v: Json): string
    requires Valid(v)
  {
    PrintThen(v, "")
  }

  /** The canonical text of `v`, followed by `rest`. */
  function PrintThen(v: Json, rest: string): string
    requires Valid(v)
    decreases v
  {
    match v
    case Null => "null" + rest
    case Bool(b) => (if b then "true" else "false") + rest
    case Num(m, e) => NumberText(m, e) + rest
    case Str(s) => ['"'] + QuotedThen(s, rest)
    case Arr(items) =>
      ['['] + if items == [] then [']'] + rest else PrintThen(items[0], ItemsThen(v, 1, rest))
    case Obj(keys, fields) =>
      var ks := SortedKeys(v);
      ['{'] + BodyThen(v, ks, rest)
  }

  function SortedKeys(v: Json): (ks: seq<string>)
    requires Valid(v) && v.Obj?
    ensures forall k :: k in ks <==> k in v.fields
  {
    SortKeepsElements(Before, v.keys);
    Sort(Before, v.keys)
  }

  function ItemsThen(v: Json, i: nat, rest: string): string
    requires Valid(v) && v.Arr? && i <= |v.items|
    decreases v, |v.items| - i
  {
    if i == |v.items| then [']'] + rest
    else [','] + PrintThen(v.items[i], ItemsThen(v, i + 1, rest))
  }

  function BodyThen(v: Json, ks: seq<string>, rest: string): string
    requires Valid(v) && v.Obj? && forall k :: k in ks ==> k in v.fields
    decreases v, |ks| + 2
  {
    if ks == [] then ['}'] + rest else FieldThen(v, ks[0], FieldsThen(v, ks, 1, rest))
  }

  function FieldThen(v: Json, k: string, rest: string): string
    requires Valid(v) && v.Obj? && k in v.fields
    decreases v, 0
  {
    ['"'] + QuotedThen(k, [':'] + PrintThen(v.fields[k], rest))
  }

  function FieldsThen(v: Json, ks: seq<string>, i: nat, rest: string): string
    requires Valid(v) && v.Obj? && i <= |ks| && forall k :: k in ks ==> k in v.fields
    decreases v, |ks| - i + 1
  {
    if i == |ks| then ['}'] + rest
    else [','] + FieldThen(v, ks[i], FieldsThen(v, ks, i + 1, rest))
  }

  /** What can follow a value: nothing, a separator, or a line end. */
  predicate Stops(s: string) { s == "" || s[0] == ',' || s[0] == ']' || s[0] == '}' || s[0] == '\n' }

  lemma PrintHead(v: Json, rest: string)
    requires Valid(v)
    ensures PrintThen(v, rest) != ""
    ensures var c := PrintThen(v, rest)[0];
            match v
            case Null => c == 'n'
            case Bool(b) => c == (if b then 't' else 'f')
            case Num(m, e) => IsDigit(c) || c == '-'
            case Str(_) => c == '"'
            case Arr(_) => c == '['
            case Obj(_, _) => c == '{'
  {
    if v.Num? { NumberTextChars(v.mantissa, v.exponent); }
  }

  /** Number characters never occur right after a number. */
  lemma {:induction false} TokensAgree(a: string, b: string, s: string, t: string)
    requires NumberChars(a) && NumberChars(b) && Stops(s) && Stops(t) && a + s == b + t
    ensures a == b && s == t
  {
    assert a + s != "" ==> (a + s)[0] == (b + t)[0];
    if a == "" && b == "" {
      PrefixInjective("", s, t);
    } else if a != "" && b != "" {
      assert (a + s)[1..] == a[1..] + s && (b + t)[1..] == b[1..] + t;
      TokensAgree(a[1..], b[1..], s, t);
      assert a == [a[0]] + a[1..] && b == [b[0]] + b[1..];
    }
  }

  /** The central step: a value's text determines the value, whatever follows it. */
  lemma {:induction false} PrefixFree(v: Json, w: Json, s: string, t: string)
    requires Valid(v) && Valid(w) && Stops(s) && Stops(t)
    requires PrintThen(v, s) == PrintThen(w, t)
    ensures Same(v, w) && s == t
    decreases v, 2
  {
    PrintHead(v, s);
    PrintHead(w, t);
    match (v, w)
    case (Null, Null) => PrefixInjective("null", s, t);
    case (Bool(x), Bool(y)) => PrefixInjective(if x then "true" else "false", s, t);
    case (Num(m, e), Num(m', e')) =>
      NumberTextChars(m, e);
      NumberTextChars(m', e');
      TokensAgree(NumberText(m, e), NumberText(m', e'), s, t);
      NumberTextInjective(m, e, m', e');
    case (Str(x), Str(y)) =>
      ConsInjective('"', '"', QuotedThen(x, s), QuotedThen(y, t));
      QuotedPrefixFree(x, y, s, t);
    case (Arr(_), Arr(_)) => ArraysPrefixFree(v, w, s, t);
    case (Obj(_, _), Obj(_, _)) => ObjectsPrefixFree(v, w, s, t);
  }

  lemma {:induction false} ArraysPrefixFree(v: Json, w: Json, s: string, t: string)
    requires Valid(v) && Valid(w) && v.Arr? && w.Arr?
    requires PrintThen(v, s) == PrintThen(w, t)
    ensures Same(v, w) && s == t
    decreases v, 1
  {
    var a := if v.items == [] then [']'] + s else PrintThen(v.items[0], ItemsThen(v, 1, s));
    var b := if w.items == [] then [']'] + t else PrintThen(w.items[0], ItemsThen(w, 1, t));
    ConsInjective('[', '[', a, b);
    if v.items != [] { PrintHead(v.items[0], ItemsThen(v, 1, s)); }
    if w.items != [] { PrintHead(w.items[0], ItemsThen(w, 1, t)); }
    if v.items == [] || w.items == [] {
      assert a[0] == b[0];
      ConsInjective(']', ']', s, t);
    } else {
      PrefixFree(v.items[0], w.items[0], ItemsThen(v, 1, s), ItemsThen(w, 1, t));
      ItemsPrefixFree(v, w, 1, s, t);
    }
  }

  lemma {:induction false} ItemsPrefixFree(v: Json, w: Json, i: nat, s: string, t: string)
    requires Valid(v) && Valid(w) && v.Arr? && w.Arr? && i <= |v.items| && i <= |w.items|
    requires ItemsThen(v, i, s) == ItemsThen(w, i, t)
    ensures |v.items| == |w.items| && s == t
    ensures forall j :: i <= j < |v.items| ==> Same(v.items[j], w.items[j])
    decreases v, 0, |v.items| - i
  {
    assert ItemsThen(v, i, s)[0] == ItemsThen(w, i, t)[0];
    if i == |v.items| || i == |w.items| {
      ConsInjective(']', ']', s, t);
    } else {
      var a, b := ItemsThen(v, i + 1, s), ItemsThen(w, i + 1, t);
      ConsInjective(',', ',', PrintThen(v.items[i], a), PrintThen(w.items[i], b));
      PrefixFree(v.items[i], w.items[i], a, b);
      ItemsPrefixFree(v, w, i + 1, s, t);
    }
  }

  lemma {:induction false} ObjectsPrefixFree(v: Json, w: Json, s: string, t: string)
    requires Valid(v) && Valid(w) && v.Obj? && w.Obj?
    requires PrintThen(v, s) == PrintThen(w, t)
    ensures Same(v, w) && s == t
    decreases v, 1, 1
  {
    var ks, ls := SortedKeys(v), SortedKeys(w);
    ConsInjective('{', '{', BodyThen(v, ks, s), BodyThen(w, ls, t));
    BodiesPrefixFree(v, w, ks, ls, s, t);
    SameByKeys(v, w, ks, ls);
  }

  lemma {:induction false} BodiesPrefixFree(v: Json, w: Json, ks: seq<string>, ls: seq<string>, s: string, t: string)
    requires Valid(v) && Valid(w) && v.Obj? && w.Obj?
    requires (forall k :: k in ks ==> k in v.fields) && (forall k :: k in ls ==> k in w.fields)
    requires BodyThen(v, ks, s) == BodyThen(w, ls, t)
    ensures |ks| == |ls| && s == t
    ensures forall j :: 0 <= j < |ks| ==> ks[j] == ls[j] && Same(v.fields[ks[j]], w.fields[ls[j]])
    decreases v, 1, 0
  {
    assert BodyThen(v, ks, s)[0] == BodyThen(w, ls, t)[0];
    if ks == [] || ls == [] {
      ConsInjective('}', '}', s, t);
    } else {
      FieldPrefixFree(v, w, ks[0], ls[0], FieldsThen(v, ks, 1, s), FieldsThen(w, ls, 1, t));
      FieldsPrefixFree(v, w, ks, ls, 1, s, t);
    }
  }

  lemma SameByKeys(v: Json, w: Json, ks: seq<string>, ls: seq<string>)
    requires v.Obj? && w.Obj? && |ks| == |ls|
    requires forall k :: k in ks <==> k in v.fields
    requires forall k :: k in ls <==> k in w.fields
    requires forall j :: 0 <= j < |ks| ==> ks[j] == ls[j] && Same(v.fields[ks[j]], w.fields[ls[j]])
    ensures Same(v, w)
  {
    assert ks == ls;
    assert v.fields.Keys == w.fields.Keys;
  }

  lemma {:induction false} FieldPrefixFree(v: Json, w: Json, k: string, l: string, s: string, t: string)
    requires Valid(v) && Valid(w) && v.Obj? && w.Obj? && k in v.fields && l in w.fields
    requires Stops(s) && Stops(t) && FieldThen(v, k, s) == FieldThen(w, l, t)
    ensures k == l && s == t && Same(v.fields[k], w.fields[l])
    decreases v, 0, 0
  {
    var a, b := PrintThen(v.fields[k], s), PrintThen(w.fields[l], t);
    ConsInjective('"', '"', QuotedThen(k, [':'] + a), QuotedThen(l, [':'] + b));
    QuotedPrefixFree(k, l, [':'] + a, [':'] + b);
    ConsInjective(':', ':', a, b);
    PrefixFree(v.fields[k], w.fields[l], s, t);
  }

  lemma {:induction false} FieldsPrefixFree(v: Json, w: Json, ks: seq<string>, ls: seq<string>, i: nat,
                                            s: string, t: string)
    requires Valid(v) && Valid(w) && v.Obj? && w.Obj? && i <= |ks| && i <= |ls|
    requires (forall k :: k in ks ==> k in v.fields) && (forall k :: k in ls ==> k in w.fields)
    requires FieldsThen(v, ks, i, s) == FieldsThen(w, ls, i, t)
    ensures |ks| == |ls| && s == t
    ensures forall j :: i <= j < |ks| ==> ks[j] == ls[j] && Same(v.fields[ks[j]], w.fields[ls[j]])
    decreases v, 0, |ks| - i
  {
    hide Valid, Same, FieldThen;
    assert FieldsThen(v, ks, i, s)[0] == FieldsThen(w, ls, i, t)[0];
    if i == |ks| || i == |ls| {
      ConsInjective('}', '}', s, t);
    } else {
      var a, b := FieldsThen(v, ks, i + 1, s), FieldsThen(w, ls, i + 1, t);
      ConsInjective(',', ',', FieldThen(v, ks[i], a), FieldThen(w, ls[i], b));
      FieldPrefixFree(v, w, ks[i], ls[i], a, b);
      FieldsPrefixFree(v, w, ks, ls, i + 1, s, t);
    }
  }

  // ------------------------------------------------------ the other direction

  lemma {:induction false} SameText(v: Json, w: Json, s: string)
    requires Valid(v) && Valid(w) && Same(v, w)
    ensures PrintThen(v, s) == PrintThen(w, s)
    decreases v, 2
  {
    if v.Arr? {
      if v.items != [] {
        SameItems(v, w, 1, s);
        SameText(v.items[0], w.items[0], ItemsThen(v, 1, s));
      }
    } else if v.Obj? {
      SameKeys(v, w);
      SameBody(v, w, SortedKeys(v), s);
    }
  }

  lemma {:induction false} SameBody(v: Json, w: Json, ks: seq<string>, s: string)
    requires Valid(v) && Valid(w) && v.Obj? && Same(v, w) && forall k :: k in ks ==> k in v.fields
    ensures BodyThen(v, ks, s) == BodyThen(w, ks, s)
    decreases v, 1
  {
    if ks != [] {
      SameFields(v, w, ks, 1, s);
      SameText(v.fields[ks[0]], w.fields[ks[0]], FieldsThen(v, ks, 1, s));
    }
  }

  lemma SameKeys(v: Json, w: Json)
    requires Valid(v) && Valid(w) && Same(v, w) && v.Obj?
    ensures SortedKeys(v) == SortedKeys(w)
  {
    BeforeIsOrder();
    SortOrderFree(Before, v.keys, w.keys);
  }

  lemma {:induction false} SameItems(v: Json, w: Json, i: nat, s: string)
    requires Valid(v) && Valid(w) && v.Arr? && Same(v, w) && i <= |v.items|
    ensures ItemsThen(v, i, s) == ItemsThen(w, i, s)
    decreases v, 0, |v.items| - i
  {
    if i < |v.items| {
      hide Same, Valid;
      ItemsSame(v, w, i);
      SameItems(v, w, i + 1, s);
      SameText(v.items[i], w.items[i], ItemsThen(v, i + 1, s));
    }
  }

  lemma {:induction false} SameFields(v: Json, w: Json, ks: seq<string>, i: nat, s: string)
    requires Valid(v) && Valid(w) && v.Obj? && Same(v, w) && i <= |ks| && forall k :: k in ks ==> k in v.fields
    ensures FieldsThen(v, ks, i, s) == FieldsThen(w, ks, i, s)
    decreases v, 0, |ks| - i
  {
    if i < |ks| {
      hide QuotedThen, Same, Valid;
      FieldsSame(v, w, ks[i]);
      SameFields(v, w, ks, i + 1, s);
      SameText(v.fields[ks[i]], w.fields[ks[i]], FieldsThen(v, ks, i + 1, s));
    }
  }

  lemma ItemsSame(v: Json, w: Json, i: nat)
    requires Valid(v) && Valid(w) && v.Arr? && Same(v, w) && i < |v.items|
    ensures w.Arr? && |w.items| == |v.items| && Valid(v.items[i]) && Valid(w.items[i]) && Same(v.items[i], w.items[i])
  {}

  lemma FieldsSame(v: Json, w: Json, k: string)
    requires Valid(v) && Valid(w) && v.Obj? && Same(v, w) && k in v.fields
    ensures w.Obj? && k in w.fields && Valid(v.fields[k]) && Valid(w.fields[k]) && Same(v.fields[k], w.fields[k])
  {}

  /** Canonical JSON is unambiguous: equal texts are exactly equal values up to key order. */
  lemma CanonicalUnambiguous(v: Json, w: Json)
    requires Valid(v) && Valid(w)
    ensures Canonical(v) == Canonical(w) <==> Same(v, w)
  {
    if Canonical(v) == Canonical(w) {
      PrefixFree(v, w, "", "");
    }
    if Same(v, w) {
      SameText(v, w, "");
    }
  }

  // ------------------------------------------------------------ concatenation

  lemma {:induction false} QuotedAppend(s: string, x: string, y: string)
    ensures QuotedThen(s, x + y) == QuotedThen(s, x) + y
  {
    if s == "" {
      ConcatAssociative(['"'], x, y);
    } else {
      QuotedAppend(s[1..], x, y);
      EscapeAppend(s[0], QuotedThen(s[1..], x), y);
    }
  }

  lemma EscapeAppend(c: char, x: string, y: string)
    ensures EscapeThen(c, x + y) == EscapeThen(c, x) + y
  {
    if ShortEscape(c) != ' ' {
      ConcatAssociative([ShortEscape(c)], x, y);
      ConcatAssociative(['\\'], [ShortEscape(c)] + x, y);
    } else if c < ' ' {
      var h, l := [HexDigit(c as nat / 16)], [HexDigit(c as nat % 16)];
      ConcatAssociative(l, x, y);
      ConcatAssociative(h, l + x, y);
      ConcatAssociative(['0'], h + (l + x), y);
      ConcatAssociative(['0'], ['0'] + (h + (l + x)), y);
      ConcatAssociative(['u'], ['0'] + (['0'] + (h + (l + x))), y);
      ConcatAssociative(['\\'], ['u'] + (['0'] + (['0'] + (h + (l + x)))), y);
    } else {
      ConcatAssociative([c], x, y);
    }
  }

  /** Printing `v` and then `x + y` is printing `v` and then `x`, followed by `y`. */
  lemma {:induction false} PrintAppend(v: Json, x: string, y: string)
    requires Valid(v)
    ensures PrintThen(v, x + y) == PrintThen(v, x) + y
    decreases v, 2
  {
    match v
    case Null => ConcatAssociative("null", x, y);
    case Bool(b) => ConcatAssociative(if b then "true" else "false", x, y);
    case Num(m, e) => ConcatAssociative(NumberText(m, e), x, y);
    case Str(s) =>
      QuotedAppend(s, x, y);
      ConcatAssociative(['"'], QuotedThen(s, x), y);
    case Arr(items) =>
      if items == [] {
        ConcatAssociative([']'], x, y);
        ConcatAssociative(['['], [']'] + x, y);
      } else {
        ItemsAppend(v, 1, x, y);
        PrintAppend(items[0], ItemsThen(v, 1, x), y);
        ConcatAssociative(['['], PrintThen(items[0], ItemsThen(v, 1, x)), y);
      }
    case Obj(_, _) =>
      BodyAppend(v, SortedKeys(v), x, y);
      ConcatAssociative(['{'], BodyThen(v, SortedKeys(v), x), y);
  }

  lemma {:induction false} ItemsAppend(v: Json, i: nat, x: string, y: string)
    requires Valid(v) && v.Arr? && i <= |v.items|
    ensures ItemsThen(v, i, x + y) == ItemsThen(v, i, x) + y
    decreases v, 0, |v.items| - i
  {
    if i == |v.items| {
      ConcatAssociative([']'], x, y);
    } else {
      ItemsAppend(v, i + 1, x, y);
      PrintAppend(v.items[i], ItemsThen(v, i + 1, x), y);
      ConcatAssociative([','], PrintThen(v.items[i], ItemsThen(v, i + 1, x)), y);
    }
  }

  lemma {:induction false} BodyAppend(v: Json, ks: seq<string>, x: string, y: string)
    requires Valid(v) && v.Obj? && forall k :: k in ks ==> k in v.fields
    ensures BodyThen(v, ks, x + y) == BodyThen(v, ks, x) + y
    decreases v, 1
  {
    if ks == [] {
      ConcatAssociative(['}'], x, y);
    } else {
      FieldsAppend(v, ks, 1, x, y);
      FieldAppend(v, ks[0], FieldsThen(v, ks, 1, x), y);
    }
  }

  lemma {:induction false} FieldAppend(v: Json, k: string, x: string, y: string)
    requires Valid(v) && v.Obj? && k in v.fields
    ensures FieldThen(v, k, x + y) == FieldThen(v, k, x) + y
    decreases v, 0, 0
  {
    var t := PrintThen(v.fields[k], x);
    PrintAppend(v.fields[k], x, y);
    ConcatAssociative([':'], t, y);
    QuotedAppend(k, [':'] + t, y);
    ConcatAssociative(['"'], QuotedThen(k, [':'] + t), y);
  }

  lemma {:induction false} FieldsAppend(v: Json, ks: seq<string>, i: nat, x: string, y: string)
    requires Valid(v) && v.Obj? && i <= |ks| && forall k :: k in ks ==> k in v.fields
    ensures FieldsThen(v, ks, i, x + y) == FieldsThen(v, ks, i, x) + y
    decreases v, 0, |ks| - i + 1
  {
    if i == |ks| {
      ConcatAssociative(['}'], x, y);
    } else {
      FieldsAppend(v, ks, i + 1, x, y);
      FieldAppend(v, ks[i], FieldsThen(v, ks, i + 1, x), y);
      ConcatAssociative([','], FieldThen(v, ks[i], FieldsThen(v, ks, i + 1, x)), y);
    }
  }

  lemma CanonicalThen(v: Json, rest: string)
    requires Valid(v)
    ensures PrintThen(v, rest) == Canonical(v) + rest
  {
    PrintAppend(v, "", rest);
    assert "" + rest == rest;
  }

  // -------------------------------------------------------------------- lines

  lemma {:induction false} QuotedOneLine(s: string, rest: string)
    requires '\n' !in rest
    ensures '\n' !in QuotedThen(s, rest)
  {
    if s != "" {
      QuotedOneLine(s[1..], rest);
      EscapeOneLine(s[0], QuotedThen(s[1..], rest));
    }
  }

  lemma EscapeOneLine(c: char, rest: string)
    requires '\n' !in rest
    ensures '\n' !in EscapeThen(c, rest)
  {
    if ShortEscape(c) == ' ' && c < ' ' {
      HexIsNoLineEnd(c as nat / 16);
      HexIsNoLineEnd(c as nat % 16);
    }
  }

  lemma HexIsNoLineEnd(d: nat)
    requires d < 16
    ensures HexDigit(d) != '\n'
  {}

  /** A printed value has no line end. */
  lemma {:induction false} PrintOneLine(v: Json, rest: string)
    requires Valid(v) && '\n' !in rest
    ensures '\n' !in PrintThen(v, rest)
    decreases v, 2
  {
    match v
    case Null =>
    case Bool(_) =>
    case Num(m, e) => NumberTextChars(m, e);
    case Str(s) => QuotedOneLine(s, rest);
    case Arr(items) =>
      if items != [] {
        ItemsOneLine(v, 1, rest);
        PrintOneLine(items[0], ItemsThen(v, 1, rest));
      }
    case Obj(_, _) =>
      var ks := SortedKeys(v);
      if ks != [] {
        FieldsOneLine(v, ks, 1, rest);
        FieldOneLine(v, ks[0], FieldsThen(v, ks, 1, rest));
      }
  }

  lemma {:induction false} ItemsOneLine(v: Json, i: nat, rest: string)
    requires Valid(v) && v.Arr? && i <= |v.items| && '\n' !in rest
    ensures '\n' !in ItemsThen(v, i, rest)
    decreases v, 0, |v.items| - i
  {
    if i < |v.items| {
      ItemsOneLine(v, i + 1, rest);
      PrintOneLine(v.items[i], ItemsThen(v, i + 1, rest));
    }
  }

  lemma {:induction false} FieldOneLine(v: Json, k: string, rest: string)
    requires Valid(v) && v.Obj? && k in v.fields && '\n' !in rest
    ensures '\n' !in FieldThen(v, k, rest)
    decreases v, 0, 0
  {
    PrintOneLine(v.fields[k], rest);
    QuotedOneLine(k, [':'] + PrintThen(v.fields[k], rest));
  }

  lemma {:induction false} FieldsOneLine(v: Json, ks: seq<string>, i: nat, rest: string)
    requires Valid(v) && v.Obj? && i <= |ks| && (forall k :: k in ks ==> k in v.fields) && '\n' !in rest
    ensures '\n' !in FieldsThen(v, ks, i, rest)
    decreases v, 0, |ks| - i + 1
  {
    if i < |ks| {
      FieldsOneLine(v, ks, i + 1, rest);
      FieldOneLine(v, ks[i], FieldsThen(v, ks, i + 1, rest));
    }
  }
}
