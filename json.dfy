/**
 * The untyped metadata a host item carries: JSON values, objects as ordered key/value
 * lists (the order is the object's key enumeration order), and the handful of
 * JavaScript operations the locator applies to them: property access, `in`, `??`,
 * `typeof ... === 'object'`, truthiness, `Number(...)` and `String(...)`.
 */
module Json {
  import opened Wrappers

  datatype Json =
    | Null
    | Bool(b: bool)
    | Num(n: int)
    | Str(s: string)
    | Arr(elems: seq<Json>)
    | Obj(fields: seq<(string, Json)>)

  /** An object's own properties, in enumeration order. */
  type Bag = seq<(string, Json)>

  function Keys(bag: Bag): (ks: seq<string>)
    ensures |ks| == |bag|
    ensures forall i :: 0 <= i < |bag| ==> ks[i] == bag[i].0
  {
    if bag == [] then [] else [bag[0].0] + Keys(bag[1..])
  }

  /** `k in bag` for a JavaScript object: the key is present, whatever its value. */
  predicate Has(bag: Bag, k: string) {
    k in Keys(bag)
  }

  /** Every JavaScript object has pairwise distinct keys. */
  ghost predicate DistinctKeys(bag: Bag) {
    forall i, j :: 0 <= i < j < |bag| ==> bag[i].0 != bag[j].0
  }

  /** `bag[k]`: the value stored under `k`, `None` standing for `undefined`. */
  function Lookup(bag: Bag, k: string): (r: Option<Json>)
    ensures r.Some? <==> Has(bag, k)
    ensures r.Some? ==> exists i :: 0 <= i < |bag| && bag[i] == (k, r.value)
  {
    if bag == [] then None
    else if bag[0].0 == k then Some(bag[0].1)
    else Lookup(bag[1..], k)
  }

  /**
   * `bag[k] = v`: an existing key keeps its place and takes the new value, a new key
   * is added at the end.
   */
  function Set(bag: Bag, k: string, v: Json): (r: Bag)
    ensures Keys(r) == if Has(bag, k) then Keys(bag) else Keys(bag) + [k]
    ensures Lookup(r, k) == Some(v)
    ensures forall k' :: k' != k ==> Lookup(r, k') == Lookup(bag, k')
  {
    PutKeys(bag, k, v);
    assert forall k' :: Lookup(Put(bag, k, v), k') == if k' == k then Some(v) else Lookup(bag, k') by {
      forall k' ensures Lookup(Put(bag, k, v), k') == if k' == k then Some(v) else Lookup(bag, k') {
        PutLookup(bag, k, v, k');
      }
    }
    Put(bag, k, v)
  }

  /** The assignment's walk over the entries. */
  function Put(bag: Bag, k: string, v: Json): Bag {
    if bag == [] then [(k, v)]
    else if bag[0].0 == k then [(k, v)] + bag[1..]
    else [bag[0]] + Put(bag[1..], k, v)
  }

  lemma {:induction false} PutKeys(bag: Bag, k: string, v: Json)
    ensures Keys(Put(bag, k, v)) == if Has(bag, k) then Keys(bag) else Keys(bag) + [k]
  {
    if bag != [] {
      KeysCons(bag[0], bag[1..]);
      assert bag == [bag[0]] + bag[1..];
      if bag[0].0 == k {
        KeysCons((k, v), bag[1..]);
      } else {
        PutKeys(bag[1..], k, v);
        KeysCons(bag[0], Put(bag[1..], k, v));
        assert Has(bag, k) <==> Has(bag[1..], k);
      }
    }
  }

  lemma {:induction false} PutLookup(bag: Bag, k: string, v: Json, k': string)
    ensures Lookup(Put(bag, k, v), k') == if k' == k then Some(v) else Lookup(bag, k')
  {
    if bag != [] {
      if bag[0].0 == k {
        assert ([(k, v)] + bag[1..])[1..] == bag[1..];
      } else {
        PutLookup(bag[1..], k, v, k');
        assert ([bag[0]] + Put(bag[1..], k, v))[1..] == Put(bag[1..], k, v);
      }
    }
  }

  lemma KeysCons(e: (string, Json), rest: Bag)
    ensures Keys([e] + rest) == [e.0] + Keys(rest)
  {
    assert ([e] + rest)[1..] == rest;
  }

  lemma {:induction false} SetKeepsDistinct(bag: Bag, k: string, v: Json)
    requires DistinctKeys(bag)
    ensures DistinctKeys(Set(bag, k, v))
  {
    var r := Set(bag, k, v);
    forall i, j | 0 <= i < j < |r| ensures r[i].0 != r[j].0 {
      assert Keys(r)[i] == r[i].0 && Keys(r)[j] == r[j].0;
      if Has(bag, k) {
        assert Keys(bag)[i] == bag[i].0 && Keys(bag)[j] == bag[j].0;
      } else {
        assert Keys(r) == Keys(bag) + [k];
        if j < |bag| {
          assert Keys(bag)[i] == bag[i].0 && Keys(bag)[j] == bag[j].0;
        } else {
          assert Keys(bag)[i] == bag[i].0;
        }
      }
    }
  }

  /** In a bag with distinct keys, the entry at index i is what `bag[key]` reads. */
  lemma {:induction false} LookupAt(bag: Bag, i: nat)
    requires DistinctKeys(bag) && i < |bag|
    ensures Lookup(bag, bag[i].0) == Some(bag[i].1)
  {
    if i > 0 {
      assert bag[0].0 != bag[i].0;
      assert DistinctKeys(bag[1..]) by {
        forall a, b | 0 <= a < b < |bag[1..]| ensures bag[1..][a].0 != bag[1..][b].0 {
          assert bag[1..][a] == bag[a + 1] && bag[1..][b] == bag[b + 1];
        }
      }
      LookupAt(bag[1..], i - 1);
    }
  }

  /** Writing a key adds at most that key. */
  lemma SetHas(bag: Bag, k: string, v: Json)
    ensures forall k' :: Has(Set(bag, k, v), k') <==> Has(bag, k') || k' == k
  {
    forall k' ensures Has(Set(bag, k, v), k') <==> Has(bag, k') || k' == k {
      assert Has(Set(bag, k, v), k') == (k' in Keys(Set(bag, k, v)));
    }
  }

  /** The tail of a bag with distinct keys has distinct keys. */
  lemma DistinctTail(bag: Bag)
    requires DistinctKeys(bag) && bag != []
    ensures DistinctKeys(bag[1..])
  {
    forall a, b | 0 <= a < b < |bag[1..]| ensures bag[1..][a].0 != bag[1..][b].0 {
      assert bag[1..][a] == bag[a + 1] && bag[1..][b] == bag[b + 1];
    }
  }

  lemma ConsUpdate<T>(s: seq<T>, i: nat, x: T)
    requires 0 < i < |s|
    ensures [s[0]] + s[1..][i - 1 := x] == s[i := x]
  {
  }

  /** In a bag with distinct keys, writing the key of entry i rewrites that entry only. */
  lemma {:induction false} SetAt(bag: Bag, i: nat, v: Json)
    requires DistinctKeys(bag) && i < |bag|
    ensures Set(bag, bag[i].0, v) == bag[i := (bag[i].0, v)]
  {
    if i > 0 {
      var k := bag[i].0;
      var tail := bag[1..];
      assert bag[0].0 != k;
      DistinctTail(bag);
      assert tail[i - 1] == bag[i];
      SetAt(tail, i - 1, v);
      ConsUpdate(bag, i, (k, v));
    }
  }

  /** `a ?? b`: `null` and `undefined` both fall through to `b`. */
  function Coalesce(a: Option<Json>, b: Option<Json>): Option<Json> {
    if a.Some? && a.value != Null then a else b
  }

  /** `v.k`: a property read; only objects have the properties the locator asks for. */
  function Prop(v: Json, k: string): Option<Json> {
    if v.Obj? then Lookup(v.fields, k) else None
  }

  /** `k in v` for a value already known to be a non-null object. */
  predicate HasProp(v: Json, k: string) {
    v.Obj? && Has(v.fields, k)
  }

  /** `typeof v === 'object'`, which is true of `null` and of arrays too. */
  predicate IsObjectType(v: Json) {
    v.Null? || v.Arr? || v.Obj?
  }

  /** JavaScript truthiness. */
  predicate Truthy(v: Json) {
    match v
    case Null => false
    case Bool(b) => b
    case Num(n) => n != 0
    case Str(s) => s != ""
    case Arr(_) => true
    case Obj(_) => true
  }

  /**
   * `Number(v)`. Exact for numbers, `null` and booleans; strings, arrays and objects
   * (which JavaScript parses or turns into NaN) are abstracted as 0.
   */
  function ToNumber(v: Json): int {
    match v
    case Num(n) => n
    case Bool(b) => if b then 1 else 0
    case _ => 0
  }

  /** `String(v)`. Arrays are abstracted as the empty string (exact for `[]`). */
  function ToText(v: Json): string {
    match v
    case Null => "null"
    case Bool(b) => if b then "true" else "false"
    case Num(n) => IntText(n)
    case Str(s) => s
    case Arr(_) => ""
    case Obj(_) => "[object Object]"
  }

  const Digits := "0123456789"
  const NumberChars := "-.0123456789"

  /** The decimal digits of a natural number, most significant first. */
  function NatText(n: nat): (t: string)
    ensures |t| > 0
    ensures forall c :: c in t ==> c in Digits
  {
    if n < 10 then [Digits[n]] else NatText(n / 10) + [Digits[n % 10]]
  }

  /** `${n}` for an integer. */
  function IntText(n: int): (t: string)
    ensures |t| > 0
    ensures forall c :: c in t ==> c in NumberChars
  {
    if n < 0 then "-" + NatText(-n) else NatText(n)
  }

  /** Decimal digits of a fraction in [0, 1), at most `fuel` of them. */
  function FractionText(f: real, fuel: nat): (t: string)
    requires 0.0 <= f < 1.0
    ensures forall c :: c in t ==> c in Digits
    decreases fuel
  {
    if f == 0.0 || fuel == 0 then ""
    else
      var d := (f * 10.0).Floor;
      [Digits[d]] + FractionText(f * 10.0 - d as real, fuel - 1)
  }

  /**
   * `${x}` for a number: integer part, then the fractional digits (at most 17) when
   * there are any. Exact for every value whose decimal expansion ends within 17
   * digits, which includes every multiplier of the resistance catalogue.
   */
  function NumberText(x: real): (t: string)
    ensures |t| > 0
    ensures forall c :: c in t ==> c in NumberChars
    ensures x == x.Floor as real ==> t == IntText(x.Floor)
    ensures x < 0.0 <==> t[0] == '-'
  {
    var a := if x < 0.0 then -x else x;
    var whole := a.Floor;
    var frac := a - whole as real;
    var body := NatText(whole) + (if frac == 0.0 then "" else "." + FractionText(frac, 17));
    assert body[0] != '-' by { assert body[0] == NatText(whole)[0] && NatText(whole)[0] in NatText(whole); }
    assert x == x.Floor as real ==> frac == 0.0 && whole == (if x < 0.0 then -x.Floor else x.Floor);
    if x < 0.0 then "-" + body else body
  }

  /** The fractional multipliers of the resistance catalogue print as written. */
  lemma FractionalMultiplierTexts()
    ensures NumberText(0.25) == "0.25"
    ensures NumberText(0.5) == "0.5"
    ensures NumberText(1.5) == "1.5"
  {
    assert FractionText(0.5, 16) == "5" by { assert FractionText(0.0, 15) == ""; }
    assert FractionText(0.25, 17) == "25";
    assert FractionText(0.5, 17) == "5" by { assert FractionText(0.0, 16) == ""; }
  }
}
