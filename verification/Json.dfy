/** JSON values as `JSON.parse` builds them (src/contracts.ts): an object keeps the order its keys
    were added in beside the values, and a finite number is `mantissa * 10^exponent`. */
module Json {
  import opened Ordering
  import Text

  datatype Json =
    | Null
    | Bool(b: bool)
    | Num(mantissa: int, exponent: int)
    | Str(s: string)
    | Arr(items: seq<Json>)
    | Obj(keys: seq<string>, fields: map<string, Json>)

  predicate NormalNumber(m: int, e: int) {
    if m == 0 then e == 0 else m % 10 != 0
  }

  /** Numbers in lowest terms; objects list each of their keys once. */
  predicate Valid(v: Json) {
    match v
    case Num(m, e) => NormalNumber(m, e)
    case Arr(items) => forall i :: 0 <= i < |items| ==> Valid(items[i])
    case Obj(keys, fields) =>
      && Distinct(keys)
      && (forall k :: k in keys ==> k in fields)
      && (forall k :: k in fields ==> k in keys)
      && (forall k :: k in fields ==> Valid(fields[k]))
    case _ => true
  }

  /** Equality up to the order of object keys. */
  predicate Same(v: Json, w: Json) {
    match (v, w)
    case (Arr(a), Arr(b)) => |a| == |b| && forall i :: 0 <= i < |a| ==> Same(a[i], b[i])
    case (Obj(_, f), Obj(_, g)) => f.Keys == g.Keys && forall k :: k in f ==> Same(f[k], g[k])
    case _ => v == w
  }

  /** Brings `m * 10^e` to lowest terms. */
  function Normalize(m: nat, e: int): (r: (nat, int))
    ensures NormalNumber(r.0, r.1)
    ensures NormalNumber(m, e) ==> r == (m, e)
    decreases m
  {
    if m == 0 then (0, 0) else if m % 10 == 0 then Normalize(m / 10, e + 1) else (m, e)
  }

  lemma NormalizeStep(x: nat, e: int)
    requires x > 0
    ensures Normalize(10 * x, e) == Normalize(x, e + 1)
  {}

  lemma {:induction false} NormalizeScaled(m: nat, k: nat, e: int)
    requires m > 0
    ensures Normalize(m * Text.Pow10(k), e) == Normalize(m, e + k)
  {
    if k > 0 {
      var p := Text.Pow10(k - 1);
      Text.ScaleByTen(m, p);
      Text.ProductPositive(m, p);
      NormalizeStep(m * p, e);
      NormalizeScaled(m, k - 1, e + 1);
    }
  }

  function OfNat(n: nat): (v: Json)
    ensures Valid(v) && v.Num?
  {
    var r := Normalize(n, 0);
    Num(r.0, r.1)
  }

  /** `Math.trunc`. */
  function Trunc(m: int, e: int): int {
    if e >= 0 then m * Text.Pow10(e)
    else if m >= 0 then m / Text.Pow10(-e)
    else -((-m) / Text.Pow10(-e))
  }

  lemma {:induction false} NormalizeKeepsValue(m: nat, e: nat)
    ensures var r := Normalize(m, e);
            r.1 >= 0 && (m > 0 ==> r.1 >= e) && Trunc(r.0, r.1) == m * Text.Pow10(e)
    decreases m
  {
    if m > 0 && m % 10 == 0 {
      NormalizeKeepsValue(m / 10, e + 1);
      Text.ScaleByTen(m / 10, Text.Pow10(e));
    }
  }

  lemma TruncOfNat(n: nat)
    ensures var v := OfNat(n); Trunc(v.mantissa, v.exponent) == n
  {
    NormalizeKeepsValue(n, 0);
  }
}
