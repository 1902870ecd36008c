/**
 * The damage resolver: multiplier, then flat and per-type armor, then the floor at
 * zero, the new health, the overkill and the death flag, with a textual trace.
 */
module DamageCalculator {
  import opened Wrappers
  import opened Json
  import opened DamageTypes
  import opened Types

  /** `unit.multipliers[type] ?? 1`. */
  function MultiplierFor(unit: CombinedUnit, t: DamageType): real {
    if t in unit.multipliers then unit.multipliers[t] else 1.0
  }

  /** `unit.armorByType[type] ?? 0`. */
  function TypeArmorFor(unit: CombinedUnit, t: DamageType): int {
    if t in unit.armorByType then unit.armorByType[t] else 0
  }

  /** `Math.floor(raw * multiplier)`. */
  function Scaled(raw: int, multiplier: real): int {
    (raw as real * multiplier).Floor
  }

  /** The trace of a non-pure resolution; stages that did nothing are left out. */
  function Breakdown(raw: int, multiplier: real, afterMultiplier: int, totalReduction: int, finalDamage: int): string {
    IntText(raw) + MultiplierStage(multiplier, afterMultiplier) + ArmorStage(totalReduction)
    + (" = " + IntText(finalDamage))
  }

  /** The trace of a pure resolution. */
  function PureBreakdown(raw: int): string {
    IntText(raw) + " (чистый)" + (" = " + IntText(raw))
  }

  /**
   * `calculateDamage`. Pure damage bypasses every defence; any other type is scaled
   * by the unit's multiplier (rounded down) and reduced by flat and per-type armor,
   * never below zero. A JavaScript product of an integer amount with one of the
   * catalogue multipliers is exact, so `real` arithmetic with `.Floor` matches it.
   */
  function CalculateDamage(unit: CombinedUnit, raw: int, t: DamageType): (r: DamageResult)
    ensures r.tokenId == unit.tokenId && r.name == unit.name
    ensures r.rawDamage == raw && r.damageType == t && r.originalHp == unit.hp
    ensures t == Pure ==>
      && r.finalDamage == Max(0, raw)
      && r.multiplier == 1.0 && r.afterMultiplier == raw
      && r.flatArmorReduction == 0 && r.typeArmorReduction == 0
    ensures t != Pure ==>
      && r.multiplier == MultiplierFor(unit, t)
      && r.afterMultiplier == Scaled(raw, MultiplierFor(unit, t))
      && r.flatArmorReduction == unit.flatArmor
      && r.typeArmorReduction == TypeArmorFor(unit, t)
      && r.finalDamage == Max(0, r.afterMultiplier - unit.flatArmor - TypeArmorFor(unit, t))
    ensures r.finalDamage >= 0 && r.newHp >= 0 && r.overkill >= 0
    ensures r.newHp <= Max(unit.hp, 0)
    ensures r.newHp == Max(0, unit.hp - r.finalDamage)
    ensures r.overkill > 0 ==> r.newHp == 0
    ensures unit.hp == r.newHp + r.finalDamage - r.overkill
    ensures r.isDead <==> unit.hp <= r.finalDamage
  {
    if t == Pure then
      var finalDamage := Max(0, raw);
      var newHp := Max(0, unit.hp - finalDamage);
      var overkill := if finalDamage > unit.hp then finalDamage - unit.hp else 0;
      DamageResult(unit.tokenId, unit.name, raw, t, 1.0, raw, 0, 0, finalDamage,
                   unit.hp, newHp, overkill, newHp <= 0, PureBreakdown(raw))
    else
      var multiplier := MultiplierFor(unit, t);
      var afterMultiplier := Scaled(raw, multiplier);
      var flatArmorReduction := unit.flatArmor;
      var typeArmorReduction := TypeArmorFor(unit, t);
      var totalReduction := flatArmorReduction + typeArmorReduction;
      var finalDamage := Max(0, afterMultiplier - totalReduction);
      var newHp := Max(0, unit.hp - finalDamage);
      var overkill := if finalDamage > unit.hp then finalDamage - unit.hp else 0;
      DamageResult(unit.tokenId, unit.name, raw, t, multiplier, afterMultiplier,
                   flatArmorReduction, typeArmorReduction, finalDamage, unit.hp, newHp,
                   overkill, newHp <= 0,
                   Breakdown(raw, multiplier, afterMultiplier, totalReduction, finalDamage))
  }

  /** `calculateMassDamage`: one result per unit, in the units' order. */
  function CalculateMassDamage(units: seq<CombinedUnit>, raw: int, t: DamageType): (rs: seq<DamageResult>)
    ensures |rs| == |units|
    ensures forall i :: 0 <= i < |units| ==> rs[i] == CalculateDamage(units[i], raw, t)
  {
    if units == [] then [] else [CalculateDamage(units[0], raw, t)] + CalculateMassDamage(units[1..], raw, t)
  }

  /** `getMultiplierLabel`: named labels for five multipliers, `×m` for any other. */
  function MultiplierLabel(m: real): (text: string)
    ensures m == 0.0 ==> text == "иммунитет"
    ensures m == 0.5 ==> text == "резист"
    ensures m == 1.0 ==> text == "нормально"
    ensures m == 1.5 ==> text == "слабость"
    ensures m == 2.0 ==> text == "уязвимость"
    ensures |text| > 0
    ensures text[0] == '×' <==> m != 0.0 && m != 0.5 && m != 1.0 && m != 1.5 && m != 2.0
    ensures text[0] == '×' ==> text[1..] == NumberText(m)
  {
    if m == 0.0 then "иммунитет"
    else if m == 0.5 then "резист"
    else if m == 1.0 then "нормально"
    else if m == 1.5 then "слабость"
    else if m == 2.0 then "уязвимость"
    else "×" + NumberText(m)
  }

  /**
   * The trace of a non-pure resolution shows the multiplier stage exactly when the
   * multiplier is not 1, the armor stage exactly when armor reduced something, and
   * always ends with the final damage.
   */
  lemma BreakdownStages(unit: CombinedUnit, raw: int, t: DamageType)
    requires t != Pure
    ensures var r := CalculateDamage(unit, raw, t);
      && ('×' in r.breakdown <==> r.multiplier != 1.0)
      && ('−' in r.breakdown <==> r.flatArmorReduction + r.typeArmorReduction > 0)
      && EndsWith(r.breakdown, " = " + IntText(r.finalDamage))
  {
    var r := CalculateDamage(unit, raw, t);
    BreakdownMarks(raw, r.multiplier, r.afterMultiplier, r.flatArmorReduction + r.typeArmorReduction, r.finalDamage);
  }

  predicate EndsWith(s: string, suffix: string) {
    |suffix| <= |s| && s[|s| - |suffix|..] == suffix
  }

  lemma BreakdownMarks(raw: int, multiplier: real, after: int, total: int, final: int)
    ensures var s := Breakdown(raw, multiplier, after, total, final);
      && ('×' in s <==> multiplier != 1.0)
      && ('−' in s <==> total > 0)
      && EndsWith(s, " = " + IntText(final))
  {
    var a := IntText(raw);
    var d := " = " + IntText(final);
    NoMarkIn(a);
    NoMarkIn(IntText(final));
    assert '×' !in d && '−' !in d;
    FourParts(a, MultiplierStage(multiplier, after), ArmorStage(total), d);
  }

  lemma FourParts(a: string, b: string, c: string, d: string)
    ensures forall x :: x in a + b + c + d <==> x in a || x in b || x in c || x in d
    ensures EndsWith(a + b + c + d, d)
  {
    assert (a + b + c + d)[|a + b + c|..] == d;
  }

  /** The multiplier stage of the trace: present iff the multiplier is not 1, and free of the armor mark. */
  function MultiplierStage(multiplier: real, after: int): (s: string)
    ensures '×' in s <==> multiplier != 1.0
    ensures '−' !in s
  {
    if multiplier != 1.0 then
      NoMarkIn(NumberText(multiplier));
      NoMarkIn(IntText(after));
      var s := " × " + NumberText(multiplier) + " = " + IntText(after);
      assert s[1] == '×';
      s
    else ""
  }

  /** The armor stage of the trace: present iff armor reduced something, and free of the multiplier mark. */
  function ArmorStage(total: int): (s: string)
    ensures '−' in s <==> total > 0
    ensures '×' !in s
  {
    if total > 0 then
      NoMarkIn(IntText(total));
      var s := " − " + IntText(total);
      assert s[1] == '−';
      s
    else ""
  }

  /** Number text is made of digits, '.' and the ASCII minus, never of the trace's marks. */
  lemma NoMarkIn(s: string)
    requires forall ch :: ch in s ==> ch in NumberChars
    ensures '×' !in s && '−' !in s
  {
  }

  /** The trace of a pure resolution of a non-negative amount also ends with the final damage. */
  lemma PureBreakdownEnds(unit: CombinedUnit, raw: int)
    requires raw >= 0
    ensures var r := CalculateDamage(unit, raw, Pure);
      EndsWith(r.breakdown, " = " + IntText(r.finalDamage)) && '×' !in r.breakdown
  {
    var r := CalculateDamage(unit, raw, Pure);
    var a := IntText(raw);
    NoMarkIn(a);
    assert r.breakdown == a + " (чистый)" + (" = " + a);
  }

  /** Pure damage depends on the amount and the current health only, never on defences. */
  lemma PureIgnoresDefenses(u: CombinedUnit, v: CombinedUnit, raw: int)
    requires u.tokenId == v.tokenId && u.name == v.name && u.hp == v.hp
    ensures CalculateDamage(u, raw, Pure) == CalculateDamage(v, raw, Pure)
  {
  }

  /** A resistance entry removed resolves exactly like an entry set to the neutral multiplier 1. */
  lemma RemovedResistanceIsNeutral(u: CombinedUnit, removed: DamageType, raw: int, t: DamageType)
    ensures CalculateDamage(u.(multipliers := u.multipliers - {removed}), raw, t)
         == CalculateDamage(u.(multipliers := u.multipliers[removed := 1.0]), raw, t)
  {
  }

  /** 30/30 health, flat armor 5, fire resistance 0.5, 20 fire damage. */
  lemma ScenarioResistedFire(u: CombinedUnit)
    requires u.hp == 30 && u.maxHp == 30 && u.flatArmor == 5
    requires u.multipliers == map[Fire := 0.5] && u.armorByType == map[]
    ensures var r := CalculateDamage(u, 20, Fire);
      r.afterMultiplier == 10 && r.finalDamage == 5 && r.newHp == 25 && r.overkill == 0 && !r.isDead
  {
  }

  /** 5/20 health, no defences, 12 slashing damage. */
  lemma ScenarioOverkill(u: CombinedUnit)
    requires u.hp == 5 && u.flatArmor == 0 && u.multipliers == map[] && u.armorByType == map[]
    ensures var r := CalculateDamage(u, 12, Slashing);
      r.finalDamage == 12 && r.newHp == 0 && r.overkill == 7 && r.isDead
  {
  }

  /** A unit already at 0 health hit by pure damage d > 0 stays dead and all of d is overkill. */
  lemma ScenarioPureOnDead(u: CombinedUnit, d: int)
    requires u.hp == 0 && d > 0
    ensures var r := CalculateDamage(u, d, Pure);
      r.newHp == 0 && r.overkill == d && r.isDead
  {
  }

  /** The two catalogue multipliers without a named label fall back to the generic form. */
  lemma GenericLabels()
    ensures MultiplierLabel(0.25) == "×0.25"
    ensures MultiplierLabel(3.0) == "×3"
  {
  }
}
