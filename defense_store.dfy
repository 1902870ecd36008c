/**
 * The operator's local defence profiles: one `UnitDefense` per token id, which
 * every action replaces, adds or deletes as a whole. Each action is specified by a
 * function on the profile map; the store class applies it to its `units` field.
 * The clock is a parameter (`now`).
 */
module DefenseStore {
  import opened Wrappers
  import opened DamageTypes
  import opened Types

  type Units = map<string, UnitDefense>

  /** The fields a `setDefense` call may give; a missing field is `None`. */
  datatype DefensePatch = DefensePatch(
    tokenId: Option<string>,
    flatArmor: Option<int>,
    armorByType: Option<map<DamageType, int>>,
    multipliers: Option<map<DamageType, real>>,
    lastModified: Option<int>)

  /** `createDefaultDefense`: no armour, no multipliers. */
  function DefaultDefense(tokenId: string, now: int): UnitDefense {
    UnitDefense(tokenId, 0, map[], map[], now)
  }

  /** `state.units[tokenId] || createDefaultDefense(tokenId)`. */
  function Current(units: Units, tokenId: string, now: int): (d: UnitDefense)
    ensures tokenId in units ==> d == units[tokenId]
    ensures tokenId !in units ==> d == DefaultDefense(tokenId, now)
  {
    if tokenId in units then units[tokenId] else DefaultDefense(tokenId, now)
  }

  /** Every profile is stored under its own token id. */
  predicate Keyed(units: Units) {
    forall t :: t in units ==> units[t].tokenId == t
  }

  /** The two maps agree on every token other than `tokenId`, in presence and in value. */
  ghost predicate OthersKept(before: Units, after: Units, tokenId: string) {
    forall t :: t != tokenId ==> (t in after <==> t in before) && (t in after ==> after[t] == before[t])
  }

  /** No stored multiplier is exactly 1. */
  predicate NoUnitMultiplier(units: Units) {
    forall t, d :: t in units && d in units[t].multipliers ==> units[t].multipliers[d] != 1.0
  }

  /** `get().units[tokenId] || null`. */
  function GetDefense(units: Units, tokenId: string): (r: Option<UnitDefense>)
    ensures r.Some? <==> tokenId in units
    ensures r.Some? ==> r.value == units[tokenId]
  {
    if tokenId in units then Some(units[tokenId]) else None
  }

  /**
   * `setDefense`: the default profile, overlaid by the stored one, overlaid by the
   * patch; the token id is forced to the key and the timestamp to `now`.
   */
  function SetDefense(units: Units, tokenId: string, p: DefensePatch, now: int): (r: Units)
    ensures tokenId in r && OthersKept(units, r, tokenId)
    ensures r[tokenId].tokenId == tokenId && r[tokenId].lastModified == now
    ensures r[tokenId].flatArmor == p.flatArmor.GetOr(Current(units, tokenId, now).flatArmor)
    ensures r[tokenId].armorByType == p.armorByType.GetOr(Current(units, tokenId, now).armorByType)
    ensures r[tokenId].multipliers == p.multipliers.GetOr(Current(units, tokenId, now).multipliers)
    ensures Keyed(units) ==> Keyed(r)
  {
    var c := Current(units, tokenId, now);
    units[tokenId := UnitDefense(
      tokenId,
      p.flatArmor.GetOr(c.flatArmor),
      p.armorByType.GetOr(c.armorByType),
      p.multipliers.GetOr(c.multipliers),
      now)]
  }

  /** `setFlatArmor`: the flat armour becomes max(0, value), creating a profile if needed. */
  function SetFlatArmor(units: Units, tokenId: string, value: int, now: int): (r: Units)
    ensures tokenId in r && OthersKept(units, r, tokenId)
    ensures r[tokenId].flatArmor == Max(0, value) && r[tokenId].flatArmor >= 0
    ensures r[tokenId] == Current(units, tokenId, now).(flatArmor := Max(0, value), lastModified := now)
    ensures Keyed(units) ==> Keyed(r)
    ensures NoUnitMultiplier(units) ==> NoUnitMultiplier(r)
  {
    units[tokenId := Current(units, tokenId, now).(flatArmor := Max(0, value), lastModified := now)]
  }

  /** `setArmorByType`: that type's armour becomes max(0, value); other types keep theirs. */
  function SetArmorByType(units: Units, tokenId: string, t: DamageType, value: int, now: int): (r: Units)
    ensures tokenId in r && OthersKept(units, r, tokenId)
    ensures var c := Current(units, tokenId, now);
      && r[tokenId].armorByType == c.armorByType[t := Max(0, value)]
      && r[tokenId] == c.(armorByType := r[tokenId].armorByType, lastModified := now)
    ensures t in r[tokenId].armorByType && r[tokenId].armorByType[t] >= 0
    ensures Keyed(units) ==> Keyed(r)
    ensures NoUnitMultiplier(units) ==> NoUnitMultiplier(r)
  {
    var c := Current(units, tokenId, now);
    units[tokenId := c.(armorByType := c.armorByType[t := Max(0, value)], lastModified := now)]
  }

  /** `removeArmorByType`: a no-op without a profile; otherwise only that type's entry goes. */
  function RemoveArmorByType(units: Units, tokenId: string, t: DamageType, now: int): (r: Units)
    ensures tokenId !in units ==> r == units
    ensures OthersKept(units, r, tokenId)
    ensures tokenId in units ==>
      && tokenId in r
      && r[tokenId].armorByType == units[tokenId].armorByType - {t}
      && r[tokenId] == units[tokenId].(armorByType := r[tokenId].armorByType, lastModified := now)
    ensures Keyed(units) ==> Keyed(r)
    ensures NoUnitMultiplier(units) ==> NoUnitMultiplier(r)
  {
    if tokenId !in units then units
    else
      var c := units[tokenId];
      units[tokenId := c.(armorByType := c.armorByType - {t}, lastModified := now)]
  }

  /**
   * `setMultiplier`: a value of exactly 1 ("normal") deletes the type's entry, any
   * other value is stored; a profile is created if needed.
   */
  function SetMultiplier(units: Units, tokenId: string, t: DamageType, value: real, now: int): (r: Units)
    ensures tokenId in r && OthersKept(units, r, tokenId)
    ensures var c := Current(units, tokenId, now);
      && r[tokenId].multipliers == (if value == 1.0 then c.multipliers - {t} else c.multipliers[t := value])
      && r[tokenId] == c.(multipliers := r[tokenId].multipliers, lastModified := now)
    ensures t in r[tokenId].multipliers <==> value != 1.0
    ensures forall d :: d != t ==> (d in r[tokenId].multipliers <==> d in Current(units, tokenId, now).multipliers)
    ensures Keyed(units) ==> Keyed(r)
    ensures NoUnitMultiplier(units) ==> NoUnitMultiplier(r)
  {
    var c := Current(units, tokenId, now);
    var m := if value == 1.0 then c.multipliers - {t} else c.multipliers[t := value];
    units[tokenId := c.(multipliers := m, lastModified := now)]
  }

  /** `removeMultiplier`: a no-op without a profile; otherwise only that type's entry goes. */
  function RemoveMultiplier(units: Units, tokenId: string, t: DamageType, now: int): (r: Units)
    ensures tokenId !in units ==> r == units
    ensures OthersKept(units, r, tokenId)
    ensures tokenId in units ==>
      && tokenId in r
      && r[tokenId].multipliers == units[tokenId].multipliers - {t}
      && r[tokenId] == units[tokenId].(multipliers := r[tokenId].multipliers, lastModified := now)
    ensures Keyed(units) ==> Keyed(r)
    ensures NoUnitMultiplier(units) ==> NoUnitMultiplier(r)
  {
    if tokenId !in units then units
    else
      var c := units[tokenId];
      units[tokenId := c.(multipliers := c.multipliers - {t}, lastModified := now)]
  }

  /** `clearUnit`: exactly that token's profile goes. */
  function ClearUnit(units: Units, tokenId: string): (r: Units)
    ensures tokenId !in r && OthersKept(units, r, tokenId)
    ensures Keyed(units) ==> Keyed(r)
    ensures NoUnitMultiplier(units) ==> NoUnitMultiplier(r)
  {
    units - {tokenId}
  }

  /**
   * On a stored profile, setting a multiplier to 1 leaves the same multipliers as
   * removing it; without one, setting creates a profile where removing does nothing.
   */
  lemma SetOneIsRemove(units: Units, tokenId: string, t: DamageType, now: int)
    ensures tokenId in units ==>
      SetMultiplier(units, tokenId, t, 1.0, now) == RemoveMultiplier(units, tokenId, t, now)
    ensures tokenId !in units ==>
      && RemoveMultiplier(units, tokenId, t, now) == units
      && SetMultiplier(units, tokenId, t, 1.0, now) == units[tokenId := DefaultDefense(tokenId, now)]
  {
    if tokenId !in units {
      assert DefaultDefense(tokenId, now).multipliers - {t} == map[];
    }
  }

  /** Clearing a token and then asking for it gives nothing; no other token's answer moves. */
  lemma ClearThenGet(units: Units, tokenId: string, other: string)
    ensures GetDefense(ClearUnit(units, tokenId), tokenId).None?
    ensures other != tokenId ==> GetDefense(ClearUnit(units, tokenId), other) == GetDefense(units, other)
  {
  }

  /** Setting an armour and removing it again restores the type map the profile started with. */
  lemma SetThenRemoveArmor(units: Units, tokenId: string, t: DamageType, value: int, now: int, later: int)
    requires tokenId in units && t !in units[tokenId].armorByType
    ensures var r := RemoveArmorByType(SetArmorByType(units, tokenId, t, value, now), tokenId, t, later);
      r[tokenId] == units[tokenId].(lastModified := later)
  {
    var a := units[tokenId].armorByType;
    assert a[t := Max(0, value)] - {t} == a;
  }

  /** A multiplier set to a value other than 1 is read back as that value. */
  lemma SetMultiplierReads(units: Units, tokenId: string, t: DamageType, value: real, now: int)
    requires value != 1.0
    ensures GetDefense(SetMultiplier(units, tokenId, t, value, now), tokenId).Some?
    ensures GetDefense(SetMultiplier(units, tokenId, t, value, now), tokenId).value.multipliers[t] == value
  {
  }

  /** The zustand store: the profile map, replaced by each action. */
  class Store {
    var units: Units

    ghost predicate Valid()
      reads this
    {
      Keyed(units)
    }

    constructor()
      ensures Valid() && units == map[]
    {
      units := map[];
    }

    function Get(tokenId: string): (r: Option<UnitDefense>)
      reads this
      ensures r == GetDefense(units, tokenId)
      ensures Valid() && r.Some? ==> r.value.tokenId == tokenId
    {
      GetDefense(units, tokenId)
    }

    method SetDefenseOf(tokenId: string, p: DefensePatch, now: int)
      requires Valid()
      modifies this
      ensures Valid() && units == SetDefense(old(units), tokenId, p, now)
    {
      units := SetDefense(units, tokenId, p, now);
    }

    method SetFlatArmorOf(tokenId: string, value: int, now: int)
      requires Valid()
      modifies this
      ensures Valid() && units == SetFlatArmor(old(units), tokenId, value, now)
    {
      units := SetFlatArmor(units, tokenId, value, now);
    }

    method SetArmorByTypeOf(tokenId: string, t: DamageType, value: int, now: int)
      requires Valid()
      modifies this
      ensures Valid() && units == SetArmorByType(old(units), tokenId, t, value, now)
    {
      units := SetArmorByType(units, tokenId, t, value, now);
    }

    method RemoveArmorByTypeOf(tokenId: string, t: DamageType, now: int)
      requires Valid()
      modifies this
      ensures Valid() && units == RemoveArmorByType(old(units), tokenId, t, now)
    {
      units := RemoveArmorByType(units, tokenId, t, now);
    }

    method SetMultiplierOf(tokenId: string, t: DamageType, value: real, now: int)
      requires Valid()
      modifies this
      ensures Valid() && units == SetMultiplier(old(units), tokenId, t, value, now)
    {
      units := SetMultiplier(units, tokenId, t, value, now);
    }

    method RemoveMultiplierOf(tokenId: string, t: DamageType, now: int)
      requires Valid()
      modifies this
      ensures Valid() && units == RemoveMultiplier(old(units), tokenId, t, now)
    {
      units := RemoveMultiplier(units, tokenId, t, now);
    }

    method ClearUnitOf(tokenId: string)
      requires Valid()
      modifies this
      ensures Valid() && units == ClearUnit(old(units), tokenId)
    {
      units := ClearUnit(units, tokenId);
    }
  }
}
