/**
 * The state locator's read side. Three conventions are tried in a fixed order and
 * the first one that yields a health value wins: the hp-tracker key, flat
 * `"<prefix>/<field>"` keys over an ordered prefix list, and a nested object found
 * by scanning the top-level values.
 */
module GrimoireParser {
  import opened Wrappers
  import opened Json
  import opened Types

  const TrackerPrefix := "com.bitperfect-software.hp-tracker"
  /** `HP_TRACKER_KEY`. */
  const TrackerKey := "com.bitperfect-software.hp-tracker/data"

  /** `POSSIBLE_PREFIXES`, in the order they are tried. */
  const Prefixes := [
    "com.battle-system.gmg",
    "com.battle-system",
    "com.grimoire",
    "grimoire",
    "battle-system",
    "hp-tracker",
    "com.hp-tracker"
  ]

  // Field-name synonyms of the flat convention, in the order they are tried.
  const HpKeys := ["hp", "currentHp", "current-hp"]
  const MaxHpKeys := ["maxHp", "max-hp", "hpMax", "hp-max"]
  const TempHpKeys := ["tempHp", "temp-hp", "temporaryHp"]
  const ManaKeys := ["mana", "mp", "currentMana"]
  const MaxManaKeys := ["maxMana", "max-mana", "manaMax"]
  const ArmorKeys := ["ac", "armor", "defence", "defense"]
  const NameKeys := ["name", "displayName"]

  /** The convention a bag's health data was found in, and under which key or prefix. */
  datatype Convention = Tracker | Flat(prefix: string) | Nested(key: string)

  /** The name `detectGrimoirePrefix` reports for a convention. */
  function ConventionName(c: Convention): string {
    match c
    case Tracker => TrackerKey
    case Flat(p) => p
    case Nested(k) => k
  }

  /** `${prefix}/${key}`. */
  function FullKey(prefix: string, key: string): string {
    prefix + "/" + key
  }

  /** In a composite key over a slash-free prefix, the first slash follows the prefix. */
  lemma SlashAfterPrefix(p: string, a: string)
    requires '/' !in p
    ensures FullKey(p, a)[|p|] == '/'
    ensures forall i :: 0 <= i < |p| ==> FullKey(p, a)[i] != '/'
  {
    forall i | 0 <= i < |p| ensures FullKey(p, a)[i] != '/' {
      assert FullKey(p, a)[i] == p[i];
    }
  }

  /** Composite keys over slash-free prefixes split at their first slash. */
  lemma FullKeyInjective(p: string, a: string, q: string, b: string)
    requires '/' !in p && '/' !in q
    requires FullKey(p, a) == FullKey(q, b)
    ensures p == q && a == b
  {
    var x := FullKey(p, a);
    SlashAfterPrefix(p, a);
    SlashAfterPrefix(q, b);
    assert |p| == |q|;
    assert p == x[..|p|] && q == x[..|q|];
    assert a == x[|p| + 1..] && b == x[|q| + 1..];
  }

  /** Under one prefix, different fields give different composite keys. */
  lemma FullKeySamePrefix(p: string, a: string, b: string)
    requires FullKey(p, a) == FullKey(p, b)
    ensures a == b
  {
    assert a == FullKey(p, a)[|p| + 1..];
  }

  /** None of the known prefixes, the tracker's included, contains a slash. */
  lemma PrefixesSlashFree()
    ensures forall i :: 0 <= i < |Prefixes| ==> '/' !in Prefixes[i]
    ensures '/' !in TrackerPrefix && TrackerPrefix !in Prefixes
    ensures TrackerKey == FullKey(TrackerPrefix, "data")
  {
  }

  /** Some synonym of the list is present under the prefix. */
  predicate AnyPresent(bag: Bag, prefix: string, keys: seq<string>) {
    exists i :: 0 <= i < |keys| && Has(bag, FullKey(prefix, keys[i]))
  }

  /** Synonym i is the first one present under the prefix. */
  predicate FirstPresentAt(bag: Bag, prefix: string, keys: seq<string>, i: int) {
    && 0 <= i < |keys|
    && Has(bag, FullKey(prefix, keys[i]))
    && forall j :: 0 <= j < i ==> !Has(bag, FullKey(prefix, keys[j]))
  }

  /** Past an absent first synonym, presence is decided by the rest. */
  lemma AnyPresentTail(bag: Bag, prefix: string, keys: seq<string>)
    requires keys != [] && !Has(bag, FullKey(prefix, keys[0]))
    ensures AnyPresent(bag, prefix, keys) <==> AnyPresent(bag, prefix, keys[1..])
  {
    if AnyPresent(bag, prefix, keys[1..]) {
      var i :| 0 <= i < |keys[1..]| && Has(bag, FullKey(prefix, keys[1..][i]));
      assert keys[i + 1] == keys[1..][i];
    }
    if AnyPresent(bag, prefix, keys) {
      var i :| 0 <= i < |keys| && Has(bag, FullKey(prefix, keys[i]));
      assert i > 0 && keys[1..][i - 1] == keys[i];
    }
  }

  /** Past an absent first synonym, synonym i of the rest is synonym i + 1 of the whole. */
  lemma FirstPresentTail(bag: Bag, prefix: string, keys: seq<string>, i: int)
    requires keys != [] && !Has(bag, FullKey(prefix, keys[0]))
    requires FirstPresentAt(bag, prefix, keys[1..], i)
    ensures FirstPresentAt(bag, prefix, keys, i + 1) && keys[i + 1] == keys[1..][i]
  {
    forall j | 0 <= j < i + 1 ensures !Has(bag, FullKey(prefix, keys[j])) {
      if j > 0 { assert keys[j] == keys[1..][j - 1]; }
    }
  }

  /**
   * `findValue`: the value under the first synonym whose composite key is present
   * (present with a `null` value counts), `None` for `undefined` when none is.
   */
  function FindValue(bag: Bag, prefix: string, keys: seq<string>): (r: Option<Json>)
    ensures r.Some? <==> AnyPresent(bag, prefix, keys)
    ensures r.Some? ==> exists i :: FirstPresentAt(bag, prefix, keys, i) && r == Lookup(bag, FullKey(prefix, keys[i]))
  {
    if keys == [] then None
    else if Has(bag, FullKey(prefix, keys[0])) then
      assert FirstPresentAt(bag, prefix, keys, 0);
      Lookup(bag, FullKey(prefix, keys[0]))
    else
      var r := FindValue(bag, prefix, keys[1..]);
      AnyPresentTail(bag, prefix, keys);
      assert r.Some? ==> exists i :: FirstPresentAt(bag, prefix, keys, i) && r == Lookup(bag, FullKey(prefix, keys[i])) by {
        if r.Some? {
          var i :| FirstPresentAt(bag, prefix, keys[1..], i) && r == Lookup(bag, FullKey(prefix, keys[1..][i]));
          FirstPresentTail(bag, prefix, keys, i);
        }
      }
      r
  }

  /**
   * The composite key of the first present synonym; this is the loop that
   * `findTempHpKey` and the first half of `findHpKey` run.
   */
  function FirstPresentKey(bag: Bag, prefix: string, keys: seq<string>): (r: Option<string>)
    ensures r.Some? <==> AnyPresent(bag, prefix, keys)
    ensures r.Some? ==> exists i :: FirstPresentAt(bag, prefix, keys, i) && r.value == FullKey(prefix, keys[i])
  {
    if keys == [] then None
    else if Has(bag, FullKey(prefix, keys[0])) then
      assert FirstPresentAt(bag, prefix, keys, 0);
      Some(FullKey(prefix, keys[0]))
    else
      var r := FirstPresentKey(bag, prefix, keys[1..]);
      AnyPresentTail(bag, prefix, keys);
      assert r.Some? ==> exists i :: FirstPresentAt(bag, prefix, keys, i) && r.value == FullKey(prefix, keys[i]) by {
        if r.Some? {
          var i :| FirstPresentAt(bag, prefix, keys[1..], i) && r.value == FullKey(prefix, keys[1..][i]);
          FirstPresentTail(bag, prefix, keys, i);
        }
      }
      r
  }

  /** Only one synonym can be the first present one. */
  lemma FirstPresentUnique(bag: Bag, prefix: string, keys: seq<string>, i: int, j: int)
    requires FirstPresentAt(bag, prefix, keys, i) && FirstPresentAt(bag, prefix, keys, j)
    ensures i == j
  {
  }

  /** `findValue` reads exactly the key that the key search picks. */
  lemma FindValueReadsFirstPresentKey(bag: Bag, prefix: string, keys: seq<string>)
    ensures FirstPresentKey(bag, prefix, keys).Some? ==>
      FindValue(bag, prefix, keys) == Lookup(bag, FirstPresentKey(bag, prefix, keys).value)
    ensures FirstPresentKey(bag, prefix, keys).None? ==> FindValue(bag, prefix, keys).None?
  {
    var k := FirstPresentKey(bag, prefix, keys);
    var v := FindValue(bag, prefix, keys);
    if k.Some? {
      var i :| FirstPresentAt(bag, prefix, keys, i) && k.value == FullKey(prefix, keys[i]);
      var j :| FirstPresentAt(bag, prefix, keys, j) && v == Lookup(bag, FullKey(prefix, keys[j]));
      FirstPresentUnique(bag, prefix, keys, i, j);
    }
  }

  /**
   * `parseFlatStructure`: the flat convention under one prefix. Each field is read from
   * the first of its synonyms present under the prefix (a present `null` stops the
   * search and then falls back to the field's default, as `findValue(…) ?? d` does).
   */
  function ParseFlat(bag: Bag, prefix: string): (r: Option<GrimoireUnit>)
    ensures r.None? <==> !AnyPresent(bag, prefix, HpKeys)
    ensures r.Some? ==> (r.value.mana.None? <==> !AnyPresent(bag, prefix, ManaKeys))
    ensures r.Some? ==> (r.value.maxMana.None? <==> !AnyPresent(bag, prefix, MaxManaKeys))
    ensures r.Some? ==> r.value == FlatUnit(FindValue(bag, prefix, HpKeys).value,
      FindValue(bag, prefix, MaxHpKeys), FindValue(bag, prefix, TempHpKeys), FindValue(bag, prefix, ManaKeys),
      FindValue(bag, prefix, MaxManaKeys), FindValue(bag, prefix, ArmorKeys), FindValue(bag, prefix, NameKeys))
  {
    var hp := FindValue(bag, prefix, HpKeys);
    if hp.None? then None
    else
      Some(FlatUnit(hp.value, FindValue(bag, prefix, MaxHpKeys), FindValue(bag, prefix, TempHpKeys),
        FindValue(bag, prefix, ManaKeys), FindValue(bag, prefix, MaxManaKeys),
        FindValue(bag, prefix, ArmorKeys), FindValue(bag, prefix, NameKeys)))
  }

  /** The object literal that `parseFlatStructure` returns, from the values `findValue` read. */
  function FlatUnit(hp: Json, maxHp: Option<Json>, tempHp: Option<Json>, mana: Option<Json>,
                    maxMana: Option<Json>, armor: Option<Json>, name: Option<Json>): (u: GrimoireUnit)
    ensures u.hp == ToNumber(hp)
    ensures u.maxHp == if maxHp.Some? && maxHp.value != Null then ToNumber(maxHp.value) else u.hp
    ensures u.tempHp == if tempHp.Some? && tempHp.value != Null then ToNumber(tempHp.value) else 0
    ensures u.armor == if armor.Some? && armor.value != Null then ToNumber(armor.value) else 0
    ensures u.name == if name.Some? && name.value != Null then ToText(name.value) else ""
    ensures u.mana == if mana.Some? then Some(ToNumber(mana.value)) else None
    ensures u.maxMana == if maxMana.Some? then Some(ToNumber(maxMana.value)) else None
  {
    GrimoireUnit(
      ToNumber(hp),
      ToNumber(Coalesce(maxHp, Some(hp)).value),
      ToNumber(Coalesce(tempHp, Some(Num(0))).value),
      if mana.Some? then Some(ToNumber(mana.value)) else None,
      if maxMana.Some? then Some(ToNumber(maxMana.value)) else None,
      ToNumber(Coalesce(armor, Some(Num(0))).value),
      ToText(Coalesce(name, Some(Str(""))).value))
  }

  /**
   * `parseBitperfectHpTracker`: the tracker key must hold an object with an `hp`
   * property (a `null` hp counts); only hp and maxHp are read.
   */
  function ParseTracker(bag: Bag): (r: Option<GrimoireUnit>)
    ensures r.Some? <==> TrackerHolds(bag)
    ensures r.Some? ==>
      && r.value.tempHp == 0 && r.value.mana.None? && r.value.maxMana.None?
      && r.value.armor == 0 && r.value.name == ""
    ensures r.Some? ==> r.value.hp == ToNumber(Prop(Lookup(bag, TrackerKey).value, "hp").value)
    ensures r.Some? && Coalesce(Prop(Lookup(bag, TrackerKey).value, "maxHp"), None).None? ==>
      r.value.maxHp == r.value.hp
    ensures r.Some? && Coalesce(Prop(Lookup(bag, TrackerKey).value, "maxHp"), None).Some? ==>
      r.value.maxHp == ToNumber(Prop(Lookup(bag, TrackerKey).value, "maxHp").value)
  {
    var data := Lookup(bag, TrackerKey);
    if data.None? || !Truthy(data.value) || !IsObjectType(data.value) then None
    else
      var hp := Prop(data.value, "hp");
      if hp.None? then None
      else
        var maxHp := Coalesce(Prop(data.value, "maxHp"), hp);
        Some(GrimoireUnit(ToNumber(hp.value), ToNumber(maxHp.value), 0, None, None, 0, ""))
  }

  /** The tracker key holds an object that has an `hp` property. */
  predicate TrackerHolds(bag: Bag) {
    var data := Lookup(bag, TrackerKey);
    data.Some? && data.value.Obj? && Has(data.value.fields, "hp")
  }

  /** `obj.hp ?? obj.currentHp ?? obj['current-hp']`; undefined only when the last one is. */
  function NestedHp(v: Json): Option<Json> {
    Coalesce(Coalesce(Prop(v, "hp"), Prop(v, "currentHp")), Prop(v, "current-hp"))
  }

  /** A top-level value the nested scan accepts: a non-null object with a defined hp chain. */
  predicate NestedCandidate(v: Json) {
    IsObjectType(v) && v != Null && NestedHp(v).Some?
  }

  /** `v.k` is neither missing nor `null`: a `??` chain stops at this step. */
  predicate Defined(v: Json, k: string) {
    Prop(v, k).Some? && Prop(v, k).value != Null
  }

  /** `Number(obj.maxHp ?? obj['max-hp'] ?? obj.hpMax ?? hp)`: the first defined synonym, else hp. */
  function NestedMaxHp(v: Json, hp: Json): (n: int)
    ensures Defined(v, "maxHp") ==> n == ToNumber(Prop(v, "maxHp").value)
    ensures !Defined(v, "maxHp") && Defined(v, "max-hp") ==> n == ToNumber(Prop(v, "max-hp").value)
    ensures !Defined(v, "maxHp") && !Defined(v, "max-hp") && Defined(v, "hpMax") ==>
      n == ToNumber(Prop(v, "hpMax").value)
    ensures !Defined(v, "maxHp") && !Defined(v, "max-hp") && !Defined(v, "hpMax") ==> n == ToNumber(hp)
  {
    ToNumber(Coalesce(Coalesce(Coalesce(Prop(v, "maxHp"), Prop(v, "max-hp")), Prop(v, "hpMax")), Some(hp)).value)
  }

  /** `Number(obj.tempHp ?? obj['temp-hp'] ?? 0)`: the first defined synonym, else 0. */
  function NestedTempHp(v: Json): (n: int)
    ensures Defined(v, "tempHp") ==> n == ToNumber(Prop(v, "tempHp").value)
    ensures !Defined(v, "tempHp") && Defined(v, "temp-hp") ==> n == ToNumber(Prop(v, "temp-hp").value)
    ensures !Defined(v, "tempHp") && !Defined(v, "temp-hp") ==> n == 0
  {
    ToNumber(Coalesce(Coalesce(Prop(v, "tempHp"), Prop(v, "temp-hp")), Some(Num(0))).value)
  }

  /** `Number(obj.ac ?? obj.armor ?? obj.defence ?? 0)`: the first defined synonym, else 0. */
  function NestedArmor(v: Json): (n: int)
    ensures Defined(v, "ac") ==> n == ToNumber(Prop(v, "ac").value)
    ensures !Defined(v, "ac") && Defined(v, "armor") ==> n == ToNumber(Prop(v, "armor").value)
    ensures !Defined(v, "ac") && !Defined(v, "armor") && Defined(v, "defence") ==>
      n == ToNumber(Prop(v, "defence").value)
    ensures !Defined(v, "ac") && !Defined(v, "armor") && !Defined(v, "defence") ==> n == 0
  {
    ToNumber(Coalesce(Coalesce(Coalesce(Prop(v, "ac"), Prop(v, "armor")), Prop(v, "defence")), Some(Num(0))).value)
  }

  /** `String(obj.name ?? obj.displayName ?? '')`: the first defined synonym, else "". */
  function NestedName(v: Json): (s: string)
    ensures Defined(v, "name") ==> s == ToText(Prop(v, "name").value)
    ensures !Defined(v, "name") && Defined(v, "displayName") ==> s == ToText(Prop(v, "displayName").value)
    ensures !Defined(v, "name") && !Defined(v, "displayName") ==> s == ""
  {
    ToText(Coalesce(Coalesce(Prop(v, "name"), Prop(v, "displayName")), Some(Str(""))).value)
  }

  /**
   * The fields of an accepted nested object: hp from its chain, maxHp, tempHp, armour and
   * name from their synonym chains, and mana and maxMana whenever the property is present
   * (a `null` counts, as `!== undefined` tests).
   */
  function ReadNested(v: Json): (u: GrimoireUnit)
    requires NestedCandidate(v)
    ensures u.hp == ToNumber(NestedHp(v).value)
    ensures u.maxHp == NestedMaxHp(v, NestedHp(v).value)
    ensures u.tempHp == NestedTempHp(v) && u.armor == NestedArmor(v) && u.name == NestedName(v)
    ensures Prop(v, "mana").None? <==> u.mana.None?
    ensures Prop(v, "maxMana").None? <==> u.maxMana.None?
    ensures u.mana.Some? ==> u.mana.value == ToNumber(Prop(v, "mana").value)
    ensures u.maxMana.Some? ==> u.maxMana.value == ToNumber(Prop(v, "maxMana").value)
  {
    GrimoireUnit(
      ToNumber(NestedHp(v).value),
      NestedMaxHp(v, NestedHp(v).value),
      NestedTempHp(v),
      if Prop(v, "mana").Some? then Some(ToNumber(Prop(v, "mana").value)) else None,
      if Prop(v, "maxMana").Some? then Some(ToNumber(Prop(v, "maxMana").value)) else None,
      NestedArmor(v),
      NestedName(v))
  }

  /** Entry i is the first entry of the bag that the nested scan accepts. */
  predicate FirstNestedAt(bag: Bag, i: int) {
    && 0 <= i < |bag|
    && NestedCandidate(bag[i].1)
    && forall j :: 0 <= j < i ==> !NestedCandidate(bag[j].1)
  }

  lemma FirstNestedUnique(bag: Bag, i: int, j: int)
    requires FirstNestedAt(bag, i) && FirstNestedAt(bag, j)
    ensures i == j
  {
  }

  /**
   * The loop of `parseNestedStructure`: the first entry, in key order, whose value is
   * an object with a defined hp chain, with its key.
   */
  function NestedScan(bag: Bag): (r: Option<(string, GrimoireUnit)>)
    ensures r.None? <==> forall i :: 0 <= i < |bag| ==> !NestedCandidate(bag[i].1)
    ensures r.Some? ==> exists i :: FirstNestedAt(bag, i) && r.value == (bag[i].0, ReadNested(bag[i].1))
  {
    if bag == [] then None
    else if NestedCandidate(bag[0].1) then
      assert FirstNestedAt(bag, 0);
      Some((bag[0].0, ReadNested(bag[0].1)))
    else
      var r := NestedScan(bag[1..]);
      assert r.None? <==> forall i :: 0 <= i < |bag| ==> !NestedCandidate(bag[i].1) by {
        if r.None? {
          forall i | 0 <= i < |bag| ensures !NestedCandidate(bag[i].1) {
            if i > 0 { assert bag[i] == bag[1..][i - 1]; }
          }
        } else {
          var i :| FirstNestedAt(bag[1..], i);
          assert bag[i + 1] == bag[1..][i];
        }
      }
      assert r.Some? ==> exists i :: FirstNestedAt(bag, i) && r.value == (bag[i].0, ReadNested(bag[i].1)) by {
        if r.Some? {
          var i :| FirstNestedAt(bag[1..], i) && r.value == (bag[1..][i].0, ReadNested(bag[1..][i].1));
          assert bag[i + 1] == bag[1..][i];
          forall j | 0 <= j < i + 1 ensures !NestedCandidate(bag[j].1) {
            if j > 0 { assert bag[j] == bag[1..][j - 1]; }
          }
          assert FirstNestedAt(bag, i + 1);
        }
      }
      r
  }

  /** `parseNestedStructure`. */
  function ParseNested(bag: Bag): (r: Option<GrimoireUnit>)
    ensures r.None? <==> forall i :: 0 <= i < |bag| ==> !NestedCandidate(bag[i].1)
    ensures r.Some? ==> exists i :: FirstNestedAt(bag, i) && r.value == ReadNested(bag[i].1)
  {
    match NestedScan(bag)
    case Some((_, u)) => Some(u)
    case None => None
  }

  /** Prefix i is the first of the list with an hp synonym present. */
  predicate FirstHpPrefixAt(bag: Bag, prefixes: seq<string>, i: int) {
    && 0 <= i < |prefixes|
    && AnyPresent(bag, prefixes[i], HpKeys)
    && forall j :: 0 <= j < i ==> !AnyPresent(bag, prefixes[j], HpKeys)
  }

  lemma FirstHpPrefixUnique(bag: Bag, prefixes: seq<string>, i: int, j: int)
    requires FirstHpPrefixAt(bag, prefixes, i) && FirstHpPrefixAt(bag, prefixes, j)
    ensures i == j
  {
  }

  /** No prefix of the list has an hp synonym present. */
  predicate NoHpPrefix(bag: Bag, prefixes: seq<string>) {
    forall i :: 0 <= i < |prefixes| ==> !AnyPresent(bag, prefixes[i], HpKeys)
  }

  /** Moving the first-prefix facts from the tail of a list to the whole list. */
  lemma HpPrefixStep(bag: Bag, prefixes: seq<string>)
    requires prefixes != [] && !AnyPresent(bag, prefixes[0], HpKeys)
    ensures NoHpPrefix(bag, prefixes) <==> NoHpPrefix(bag, prefixes[1..])
    ensures forall i :: FirstHpPrefixAt(bag, prefixes[1..], i) ==> FirstHpPrefixAt(bag, prefixes, i + 1) && prefixes[i + 1] == prefixes[1..][i]
  {
    if NoHpPrefix(bag, prefixes[1..]) {
      forall i | 0 <= i < |prefixes| ensures !AnyPresent(bag, prefixes[i], HpKeys) {
        if i > 0 { assert prefixes[i] == prefixes[1..][i - 1]; }
      }
    }
    if NoHpPrefix(bag, prefixes) {
      forall i | 0 <= i < |prefixes[1..]| ensures !AnyPresent(bag, prefixes[1..][i], HpKeys) {
        assert prefixes[1..][i] == prefixes[i + 1];
      }
    }
    forall i | FirstHpPrefixAt(bag, prefixes[1..], i) ensures FirstHpPrefixAt(bag, prefixes, i + 1) && prefixes[i + 1] == prefixes[1..][i] {
      forall j | 0 <= j < i + 1 ensures !AnyPresent(bag, prefixes[j], HpKeys) {
        if j > 0 { assert prefixes[j] == prefixes[1..][j - 1]; }
      }
    }
  }

  /** The loop of `parseGrimoireData` over `POSSIBLE_PREFIXES`: the first prefix whose flat parse succeeds. */
  function FlatScan(bag: Bag, prefixes: seq<string>): (r: Option<(string, GrimoireUnit)>)
    ensures r.None? <==> NoHpPrefix(bag, prefixes)
    ensures r.Some? ==> exists i :: FirstHpPrefixAt(bag, prefixes, i) && r.value == (prefixes[i], ParseFlat(bag, prefixes[i]).value)
  {
    if prefixes == [] then None
    else
      var u := ParseFlat(bag, prefixes[0]);
      if u.Some? then
        assert FirstHpPrefixAt(bag, prefixes, 0);
        Some((prefixes[0], u.value))
      else
        HpPrefixStep(bag, prefixes);
        FlatScan(bag, prefixes[1..])
  }

  /** Health data together with the convention it was read from. */
  datatype Located = Located(convention: Convention, unit: GrimoireUnit)

  /** The three strategies of `parseGrimoireData`, first match wins, with the winning convention. */
  function Locate(bag: Bag): (r: Option<Located>)
    ensures TrackerHolds(bag) ==> r == Some(Located(Tracker, ParseTracker(bag).value))
    ensures !TrackerHolds(bag) && FlatScan(bag, Prefixes).Some? ==>
      r == Some(Located(Flat(FlatScan(bag, Prefixes).value.0), FlatScan(bag, Prefixes).value.1))
    ensures !TrackerHolds(bag) && FlatScan(bag, Prefixes).None? && NestedScan(bag).Some? ==>
      r == Some(Located(Nested(NestedScan(bag).value.0), NestedScan(bag).value.1))
    ensures r.None? <==> !TrackerHolds(bag) && FlatScan(bag, Prefixes).None? && NestedScan(bag).None?
  {
    match ParseTracker(bag)
    case Some(u) => Some(Located(Tracker, u))
    case None =>
      match FlatScan(bag, Prefixes)
      case Some((p, u)) => Some(Located(Flat(p), u))
      case None =>
        match NestedScan(bag)
        case Some((k, u)) => Some(Located(Nested(k), u))
        case None => None
  }

  /** `parseGrimoireData`. */
  function ParseGrimoireData(bag: Bag): (r: Option<GrimoireUnit>)
    ensures TrackerHolds(bag) ==> r == ParseTracker(bag)
    ensures !TrackerHolds(bag) && FlatScan(bag, Prefixes).Some? ==> r == Some(FlatScan(bag, Prefixes).value.1)
    ensures !TrackerHolds(bag) && FlatScan(bag, Prefixes).None? ==> r == ParseNested(bag)
    ensures r.None? <==>
      !TrackerHolds(bag) && NoHpPrefix(bag, Prefixes) && forall i :: 0 <= i < |bag| ==> !NestedCandidate(bag[i].1)
  {
    match Locate(bag)
    case Some(l) => Some(l.unit)
    case None => None
  }

  /** The convention `parseGrimoireData` reads from, if any. */
  function ParsedConvention(bag: Bag): Option<Convention> {
    match Locate(bag)
    case Some(l) => Some(l.convention)
    case None => None
  }

  /** The value `detectGrimoirePrefix`'s nested stage accepts: `'hp' in obj || 'currentHp' in obj`. */
  predicate DetectCandidate(v: Json) {
    HasProp(v, "hp") || HasProp(v, "currentHp")
  }

  /** The loop of `detectGrimoirePrefix` over `POSSIBLE_PREFIXES`: the first prefix with an hp synonym present. */
  function DetectFlat(bag: Bag, prefixes: seq<string>): (r: Option<string>)
    ensures r.None? <==> NoHpPrefix(bag, prefixes)
    ensures r.Some? ==> exists i :: FirstHpPrefixAt(bag, prefixes, i) && r.value == prefixes[i]
  {
    if prefixes == [] then None
    else if FindValue(bag, prefixes[0], HpKeys).Some? then
      assert FirstHpPrefixAt(bag, prefixes, 0);
      Some(prefixes[0])
    else
      HpPrefixStep(bag, prefixes);
      DetectFlat(bag, prefixes[1..])
  }

  /** The first top-level key whose value has an `hp` or `currentHp` property. */
  function DetectNested(bag: Bag): (r: Option<string>)
    ensures r.None? <==> forall i :: 0 <= i < |bag| ==> !DetectCandidate(bag[i].1)
    ensures r.Some? ==> exists i ::
      && 0 <= i < |bag|
      && DetectCandidate(bag[i].1)
      && (forall j :: 0 <= j < i ==> !DetectCandidate(bag[j].1))
      && r.value == bag[i].0
  {
    if bag == [] then None
    else if DetectCandidate(bag[0].1) then Some(bag[0].0)
    else
      var r := DetectNested(bag[1..]);
      assert r.None? <==> forall i :: 0 <= i < |bag| ==> !DetectCandidate(bag[i].1) by {
        if r.None? {
          forall i | 0 <= i < |bag| ensures !DetectCandidate(bag[i].1) {
            if i > 0 { assert bag[i] == bag[1..][i - 1]; }
          }
        } else {
          var i :| 0 <= i < |bag[1..]| && DetectCandidate(bag[1..][i].1);
          assert bag[i + 1] == bag[1..][i];
        }
      }
      assert r.Some? ==> exists i ::
        && 0 <= i < |bag|
        && DetectCandidate(bag[i].1)
        && (forall j :: 0 <= j < i ==> !DetectCandidate(bag[j].1))
        && r.value == bag[i].0 by {
        if r.Some? {
          var i :| && 0 <= i < |bag[1..]|
                   && DetectCandidate(bag[1..][i].1)
                   && (forall j :: 0 <= j < i ==> !DetectCandidate(bag[1..][j].1))
                   && r.value == bag[1..][i].0;
          assert bag[i + 1] == bag[1..][i];
          forall j | 0 <= j < i + 1 ensures !DetectCandidate(bag[j].1) {
            if j > 0 { assert bag[j] == bag[1..][j - 1]; }
          }
        }
      }
      r
  }

  /**
   * The stages of `detectGrimoirePrefix`, tagged: the tracker key whenever it is
   * present at all, else the first prefix with an hp synonym, else the first nested
   * object with an `hp` or `currentHp` property (the parser's `current-hp` is not checked).
   */
  function DetectConvention(bag: Bag): (r: Option<Convention>)
    ensures Has(bag, TrackerKey) <==> r == Some(Tracker)
    ensures !Has(bag, TrackerKey) && DetectFlat(bag, Prefixes).Some? ==> r == Some(Flat(DetectFlat(bag, Prefixes).value))
    ensures !Has(bag, TrackerKey) && DetectFlat(bag, Prefixes).None? ==>
      r == (if DetectNested(bag).Some? then Some(Nested(DetectNested(bag).value)) else None)
  {
    if Has(bag, TrackerKey) then Some(Tracker)
    else
      match DetectFlat(bag, Prefixes)
      case Some(p) => Some(Flat(p))
      case None =>
        match DetectNested(bag)
        case Some(k) => Some(Nested(k))
        case None => None
  }

  /** `detectGrimoirePrefix`. */
  function DetectGrimoirePrefix(bag: Bag): (r: Option<string>)
    ensures Has(bag, TrackerKey) ==> r == Some(TrackerKey)
    ensures !Has(bag, TrackerKey) && DetectFlat(bag, Prefixes).Some? ==> r == DetectFlat(bag, Prefixes)
    ensures !Has(bag, TrackerKey) && DetectFlat(bag, Prefixes).None? ==> r == DetectNested(bag)
    ensures r.None? <==> !Has(bag, TrackerKey) && NoHpPrefix(bag, Prefixes) && DetectNested(bag).None?
  {
    match DetectConvention(bag)
    case Some(c) => Some(ConventionName(c))
    case None => None
  }

  /**
   * `findHpKey`: the first present `prefix/{hp,currentHp,current-hp}`; failing that,
   * when `bag[prefix]` is a non-null object, the bare `hp` or `currentHp` it has.
   */
  function FindHpKey(bag: Bag, prefix: string): (r: Option<string>)
    ensures AnyPresent(bag, prefix, HpKeys) ==> r == FirstPresentKey(bag, prefix, HpKeys)
    ensures !AnyPresent(bag, prefix, HpKeys) ==>
      r == (var v := Lookup(bag, prefix);
            if v.Some? && HasProp(v.value, "hp") then Some("hp")
            else if v.Some? && HasProp(v.value, "currentHp") then Some("currentHp")
            else None)
  {
    match FirstPresentKey(bag, prefix, HpKeys)
    case Some(k) => Some(k)
    case None =>
      if Has(bag, prefix) then
        var obj := Lookup(bag, prefix).value;
        if IsObjectType(obj) && obj != Null then
          if HasProp(obj, "hp") then Some("hp")
          else if HasProp(obj, "currentHp") then Some("currentHp")
          else None
        else None
      else None
  }

  /** `findTempHpKey`: the first present `prefix/{tempHp,temp-hp,temporaryHp}`. */
  function FindTempHpKey(bag: Bag, prefix: string): (r: Option<string>)
    ensures r.Some? <==> AnyPresent(bag, prefix, TempHpKeys)
    ensures r.Some? ==> exists i :: FirstPresentAt(bag, prefix, TempHpKeys, i) && r.value == FullKey(prefix, TempHpKeys[i])
  {
    FirstPresentKey(bag, prefix, TempHpKeys)
  }

  /** The parser's prefix loop and the detector's prefix loop stop at the same prefix. */
  lemma FlatScansAgree(bag: Bag, prefixes: seq<string>)
    ensures FlatScan(bag, prefixes).Some? <==> DetectFlat(bag, prefixes).Some?
    ensures FlatScan(bag, prefixes).Some? ==> FlatScan(bag, prefixes).value.0 == DetectFlat(bag, prefixes).value
  {
    var r := FlatScan(bag, prefixes);
    var d := DetectFlat(bag, prefixes);
    if r.Some? {
      var i :| FirstHpPrefixAt(bag, prefixes, i) && r.value == (prefixes[i], ParseFlat(bag, prefixes[i]).value);
      var j :| FirstHpPrefixAt(bag, prefixes, j) && d.value == prefixes[j];
      assert !(i < j) && !(j < i);
    }
  }

  /**
   * Where the tracker strategy reads, detection names the tracker; with the tracker
   * key absent, parsing reads the flat prefix p exactly when detection names p.
   */
  lemma DetectionMatchesParse(bag: Bag, p: string)
    ensures TrackerHolds(bag) ==> ParsedConvention(bag) == Some(Tracker) == DetectConvention(bag)
    ensures !Has(bag, TrackerKey) ==> (ParsedConvention(bag) == Some(Flat(p)) <==> DetectConvention(bag) == Some(Flat(p)))
  {
    FlatScansAgree(bag, Prefixes);
  }
}
