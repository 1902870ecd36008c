/**
 * The damage-type catalogue: twenty fixed types in three categories, the catalogue
 * indexed by type, the resistance-multiplier vocabulary and its colour banding.
 */
module DamageTypes {
  import opened Wrappers

  datatype DamageType =
    // physical
    | Slashing | Piercing | Bludgeoning | Chopping
    // magical
    | Fire | Water | Earth | Air | Light | Darkness
    | Space | Astral | Blight | Electricity | Void
    | Life | Nature | Death | Horror
    // special
    | Pure

  datatype Category = Physical | Magical | Special

  datatype DamageTypeInfo = DamageTypeInfo(
    key: DamageType,
    name: string,
    nameRu: string,
    icon: string,
    category: Category,
    color: string)

  /** The identifier the source uses for each type. */
  function KeyName(t: DamageType): string {
    match t
    case Slashing => "slashing"
    case Piercing => "piercing"
    case Bludgeoning => "bludgeoning"
    case Chopping => "chopping"
    case Fire => "fire"
    case Water => "water"
    case Earth => "earth"
    case Air => "air"
    case Light => "light"
    case Darkness => "darkness"
    case Space => "space"
    case Astral => "astral"
    case Blight => "blight"
    case Electricity => "electricity"
    case Void => "void"
    case Life => "life"
    case Nature => "nature"
    case Death => "death"
    case Horror => "horror"
    case Pure => "pure"
  }

  /** The type an identifier names, if it names one (the inverse of KeyName). */
  function ParseKey(s: string): (r: Option<DamageType>)
    ensures r.Some? ==> KeyName(r.value) == s
  {
    if s == "slashing" then Some(Slashing)
    else if s == "piercing" then Some(Piercing)
    else if s == "bludgeoning" then Some(Bludgeoning)
    else if s == "chopping" then Some(Chopping)
    else if s == "fire" then Some(Fire)
    else if s == "water" then Some(Water)
    else if s == "earth" then Some(Earth)
    else if s == "air" then Some(Air)
    else if s == "light" then Some(Light)
    else if s == "darkness" then Some(Darkness)
    else if s == "space" then Some(Space)
    else if s == "astral" then Some(Astral)
    else if s == "blight" then Some(Blight)
    else if s == "electricity" then Some(Electricity)
    else if s == "void" then Some(Void)
    else if s == "life" then Some(Life)
    else if s == "nature" then Some(Nature)
    else if s == "death" then Some(Death)
    else if s == "horror" then Some(Horror)
    else if s == "pure" then Some(Pure)
    else None
  }

  /** Distinct types have distinct identifiers: the catalogue's keys are pairwise distinct strings. */
  lemma KeyNamesDistinct(a: DamageType, b: DamageType)
    ensures KeyName(a) == KeyName(b) ==> a == b
  {
    KeyRoundTrip(a);
    KeyRoundTrip(b);
  }

  lemma KeyRoundTrip(t: DamageType)
    ensures ParseKey(KeyName(t)) == Some(t)
  {
  }

  function KeysOf(entries: seq<DamageTypeInfo>): (ks: seq<DamageType>)
    ensures |ks| == |entries|
    ensures forall i :: 0 <= i < |entries| ==> ks[i] == entries[i].key
  {
    if entries == [] then [] else [entries[0].key] + KeysOf(entries[1..])
  }

  function CountCategory(entries: seq<DamageTypeInfo>, c: Category): nat {
    if entries == [] then 0
    else (if entries[0].category == c then 1 else 0) + CountCategory(entries[1..], c)
  }

  lemma {:induction false} CountCategoryAppend(a: seq<DamageTypeInfo>, b: seq<DamageTypeInfo>, c: Category)
    ensures CountCategory(a + b, c) == CountCategory(a, c) + CountCategory(b, c)
  {
    if a != [] {
      assert (a + b)[1..] == a[1..] + b;
      CountCategoryAppend(a[1..], b, c);
    } else {
      assert a + b == b;
    }
  }

  /** In a list whose entries all share one category, that category counts every entry and no other counts any. */
  lemma {:induction false} CountCategoryUniform(entries: seq<DamageTypeInfo>, c: Category, other: Category)
    requires forall i :: 0 <= i < |entries| ==> entries[i].category == c
    requires other != c
    ensures CountCategory(entries, c) == |entries|
    ensures CountCategory(entries, other) == 0
  {
    if entries != [] {
      CountCategoryUniform(entries[1..], c, other);
    }
  }

  function PhysicalEntries(): (r: seq<DamageTypeInfo>)
    ensures |r| == 4 && forall i :: 0 <= i < |r| ==> r[i].category == Physical
  {
    [
      DamageTypeInfo(Slashing, "Slashing", "Режущий", "⚔️", Physical, "#c0c0c0"),
      DamageTypeInfo(Piercing, "Piercing", "Колющий", "🗡️", Physical, "#a0a0a0"),
      DamageTypeInfo(Bludgeoning, "Bludgeoning", "Дробящий", "🔨", Physical, "#808080"),
      DamageTypeInfo(Chopping, "Chopping", "Рубящий", "🪓", Physical, "#b0b0b0")
    ]
  }

  function MagicalEntries(): (r: seq<DamageTypeInfo>)
    ensures |r| == 15 && forall i :: 0 <= i < |r| ==> r[i].category == Magical
  {
    [
      DamageTypeInfo(Fire, "Fire", "Огонь", "🔥", Magical, "#ff4500"),
      DamageTypeInfo(Water, "Water", "Вода", "💧", Magical, "#1e90ff"),
      DamageTypeInfo(Earth, "Earth", "Земля", "🌍", Magical, "#8b4513"),
      DamageTypeInfo(Air, "Air", "Воздух", "💨", Magical, "#87ceeb"),
      DamageTypeInfo(Light, "Light", "Свет", "☀️", Magical, "#ffd700"),
      DamageTypeInfo(Darkness, "Darkness", "Тьма", "🌑", Magical, "#2f0a3c"),
      DamageTypeInfo(Space, "Space", "Пространство", "🌀", Magical, "#9400d3"),
      DamageTypeInfo(Astral, "Astral", "Астрал", "✨", Magical, "#e6e6fa"),
      DamageTypeInfo(Blight, "Blight", "Скверна", "☠️", Magical, "#556b2f"),
      DamageTypeInfo(Electricity, "Electricity", "Электричество", "⚡", Magical, "#00bfff"),
      DamageTypeInfo(Void, "Void", "Пустота", "🕳️", Magical, "#0a0a14"),
      DamageTypeInfo(Life, "Life", "Жизнь", "💚", Magical, "#00ff00"),
      DamageTypeInfo(Nature, "Nature", "Природа", "🌿", Magical, "#228b22"),
      DamageTypeInfo(Death, "Death", "Смерть", "💀", Magical, "#4a0080"),
      DamageTypeInfo(Horror, "Horror", "Ужас", "👁️", Magical, "#8b0000")
    ]
  }

  const PureEntry := DamageTypeInfo(Pure, "Pure", "Чистый", "💎", Special, "#ffffff")

  /** `DAMAGE_TYPES`: the catalogue in display order, physical, magical, then special. */
  function Catalog(): (r: seq<DamageTypeInfo>)
    ensures |r| == 20
    ensures forall i, j :: 0 <= i < j < |r| ==> r[i].key != r[j].key
    ensures forall i :: 0 <= i < |r| ==> (r[i].category == Special <==> r[i].key == Pure)
  {
    PhysicalEntries() + MagicalEntries() + [PureEntry]
  }

  /** The category counts of a list made of a physical, a magical and a special part. */
  lemma CountCategoryParts(p: seq<DamageTypeInfo>, m: seq<DamageTypeInfo>, s: seq<DamageTypeInfo>)
    requires forall i :: 0 <= i < |p| ==> p[i].category == Physical
    requires forall i :: 0 <= i < |m| ==> m[i].category == Magical
    requires forall i :: 0 <= i < |s| ==> s[i].category == Special
    ensures CountCategory(p + m + s, Physical) == |p|
    ensures CountCategory(p + m + s, Magical) == |m|
    ensures CountCategory(p + m + s, Special) == |s|
  {
    CountCategoryAppend(p + m, s, Physical);
    CountCategoryAppend(p + m, s, Magical);
    CountCategoryAppend(p + m, s, Special);
    CountCategoryAppend(p, m, Physical);
    CountCategoryAppend(p, m, Magical);
    CountCategoryAppend(p, m, Special);
    CountCategoryUniform(p, Physical, Magical);
    CountCategoryUniform(p, Physical, Special);
    CountCategoryUniform(m, Magical, Physical);
    CountCategoryUniform(m, Magical, Special);
    CountCategoryUniform(s, Special, Physical);
    CountCategoryUniform(s, Special, Magical);
  }

  /** The catalogue has 4 physical, 15 magical and exactly 1 special entry. */
  lemma CatalogCategories()
    ensures CountCategory(Catalog(), Physical) == 4
    ensures CountCategory(Catalog(), Magical) == 15
    ensures CountCategory(Catalog(), Special) == 1
  {
    CountCategoryParts(PhysicalEntries(), MagicalEntries(), [PureEntry]);
  }

  /** Where each type stands in the catalogue: every type has an entry. */
  function Ordinal(t: DamageType): (i: nat)
    ensures i < |Catalog()| && Catalog()[i].key == t
  {
    match t
    case Slashing => 0
    case Piercing => 1
    case Bludgeoning => 2
    case Chopping => 3
    case Fire => 4
    case Water => 5
    case Earth => 6
    case Air => 7
    case Light => 8
    case Darkness => 9
    case Space => 10
    case Astral => 11
    case Blight => 12
    case Electricity => 13
    case Void => 14
    case Life => 15
    case Nature => 16
    case Death => 17
    case Horror => 18
    case Pure => 19
  }

  /**
   * The `reduce` that builds `DAMAGE_TYPE_MAP`: entries are taken left to right and
   * each one is stored under its key, a later entry overwriting an earlier one.
   */
  function IndexByKey(entries: seq<DamageTypeInfo>): map<DamageType, DamageTypeInfo> {
    if entries == [] then map[]
    else
      var last := entries[|entries| - 1];
      IndexByKey(entries[..|entries| - 1])[last.key := last]
  }

  /** With distinct keys nothing is overwritten: every entry is found under its own key. */
  lemma {:induction false} IndexByKeyAt(entries: seq<DamageTypeInfo>, i: nat)
    requires forall a, b :: 0 <= a < b < |entries| ==> entries[a].key != entries[b].key
    requires i < |entries|
    ensures entries[i].key in IndexByKey(entries)
    ensures IndexByKey(entries)[entries[i].key] == entries[i]
  {
    var n := |entries| - 1;
    if i < n {
      var init := entries[..n];
      assert init[i] == entries[i];
      IndexByKeyAt(init, i);
      assert entries[n].key != entries[i].key;
    }
  }

  /** The map holds exactly the keys of the entries it was built from. */
  lemma {:induction false} IndexByKeyDomain(entries: seq<DamageTypeInfo>, t: DamageType)
    ensures t in IndexByKey(entries) <==> t in KeysOf(entries)
  {
    if entries != [] {
      var n := |entries| - 1;
      IndexByKeyDomain(entries[..n], t);
      assert KeysOf(entries) == KeysOf(entries[..n]) + [entries[n].key];
    }
  }

  lemma CatalogIndexed()
    ensures forall t :: t in IndexByKey(Catalog()) && IndexByKey(Catalog())[t].key == t
    ensures forall i :: 0 <= i < |Catalog()| ==> IndexByKey(Catalog())[Catalog()[i].key] == Catalog()[i]
  {
    forall i | 0 <= i < |Catalog()|
      ensures Catalog()[i].key in IndexByKey(Catalog())
      ensures IndexByKey(Catalog())[Catalog()[i].key] == Catalog()[i]
    {
      IndexByKeyAt(Catalog(), i);
    }
    forall t ensures t in IndexByKey(Catalog()) && IndexByKey(Catalog())[t].key == t {
      IndexByKeyAt(Catalog(), Ordinal(t));
    }
  }

  /** `DAMAGE_TYPE_MAP`: every type has an entry, and each catalogue entry is found under its key. */
  function TypeMap(): (m: map<DamageType, DamageTypeInfo>)
    ensures forall t :: t in m && m[t].key == t
    ensures forall i :: 0 <= i < |Catalog()| ==> m[Catalog()[i].key] == Catalog()[i]
  {
    CatalogIndexed();
    IndexByKey(Catalog())
  }

  /** `RESISTANCE_VALUES`: the multipliers offered to the operator, weakest first. */
  function ResistanceValues(): (r: seq<real>)
    ensures forall i, j :: 0 <= i < j < |r| ==> r[i] < r[j]
    ensures 1.0 in r
  {
    [0.0, 0.25, 0.5, 1.0, 1.5, 2.0, 3.0]
  }

  /** `RESISTANCE_LABELS`: one label per offered multiplier; 1 is "normal". */
  function ResistanceLabels(): (m: map<real, string>)
    ensures forall v :: v in m <==> v in ResistanceValues()
    ensures m[1.0] == "Нормально"
  {
    map[
      0.0 := "Иммунитет",
      0.25 := "Сильный резист",
      0.5 := "Резист",
      1.0 := "Нормально",
      1.5 := "Слабость",
      2.0 := "Уязвимость",
      3.0 := "Крит. уязвимость"
    ]
  }

  /** `getResistanceColor`: the colour band a multiplier falls into; the bands cover every value. */
  function ResistanceColor(m: real): (c: string)
    ensures c == "#00ff00" <==> m == 0.0
    ensures c == "#44ff44" <==> m < 1.0 && m != 0.0
    ensures c == "#888888" <==> m == 1.0
    ensures c == "#ffaa00" <==> 1.0 < m <= 1.5
    ensures c == "#ff4444" <==> 1.5 < m <= 2.0
    ensures c == "#ff0000" <==> 2.0 < m
  {
    if m == 0.0 then "#00ff00"
    else if m < 1.0 then "#44ff44"
    else if m == 1.0 then "#888888"
    else if m <= 1.5 then "#ffaa00"
    else if m <= 2.0 then "#ff4444"
    else "#ff0000"
  }
}
