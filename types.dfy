/** The records the engine passes between its parts. */
module Types {
  import opened Wrappers
  import opened DamageTypes

  /** Health data read from an item's metadata by the locator. */
  datatype GrimoireUnit = GrimoireUnit(
    hp: int,
    maxHp: int,
    tempHp: int,
    mana: Option<int>,
    maxMana: Option<int>,
    armor: int,
    name: string)

  /** A selected map token and what the locator found on it. */
  datatype SelectedToken = SelectedToken(
    tokenId: string,
    tokenName: string,
    grimoire: Option<GrimoireUnit>,
    image: Option<string>,
    position: (int, int))

  /** The operator's locally stored defences for one token. */
  datatype UnitDefense = UnitDefense(
    tokenId: string,
    flatArmor: int,
    armorByType: map<DamageType, int>,
    multipliers: map<DamageType, real>,
    lastModified: int)

  /** A token's health data merged with its local defences. */
  datatype CombinedUnit = CombinedUnit(
    tokenId: string,
    name: string,
    image: Option<string>,
    hp: int,
    maxHp: int,
    tempHp: int,
    mana: Option<int>,
    maxMana: Option<int>,
    flatArmor: int,
    armorByType: map<DamageType, int>,
    multipliers: map<DamageType, real>,
    hasGrimoireData: bool,
    hasDefenseData: bool)

  /** The outcome of one damage instruction against one unit, stage by stage. */
  datatype DamageResult = DamageResult(
    tokenId: string,
    name: string,
    rawDamage: int,
    damageType: DamageType,
    multiplier: real,
    afterMultiplier: int,
    flatArmorReduction: int,
    typeArmorReduction: int,
    finalDamage: int,
    originalHp: int,
    newHp: int,
    overkill: int,
    isDead: bool,
    breakdown: string)

  /** The caller-supplied part of a history entry (`Omit<HistoryEvent, 'id' | 'timestamp'>`). */
  datatype HistoryInput = HistoryInput(
    targetId: string,
    targetName: string,
    rawDamage: int,
    damageType: DamageType,
    finalDamage: int,
    overkill: int,
    hpBefore: int,
    hpAfter: int)

  /** A logged damage application. */
  datatype HistoryEvent = HistoryEvent(
    id: string,
    timestamp: int,
    targetId: string,
    targetName: string,
    rawDamage: int,
    damageType: DamageType,
    finalDamage: int,
    overkill: int,
    hpBefore: int,
    hpAfter: int)

  function Max(a: int, b: int): int {
    if a >= b then a else b
  }

  function Min(a: int, b: int): int {
    if a <= b then a else b
  }
}
