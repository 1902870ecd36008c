/**
 * The application store: the newest-first damage history capped at 50 entries,
 * the debug flag, the selected tokens, the merge of each selected token with its
 * local defence profile, and the slice of state that is persisted. Event ids and
 * timestamps come from the caller (they are a random id and the clock).
 */
module AppStore {
  import opened Wrappers
  import opened Types
  import opened DefenseStore

  /** The history keeps at most this many events. */
  const HistoryLimit := 50

  /** The persisted part of the state. */
  datatype Persisted = Persisted(history: seq<HistoryEvent>, debugMode: bool)

  /** The caller's part of a stored event: everything but its id and timestamp. */
  function Unstamp(ev: HistoryEvent): HistoryInput {
    HistoryInput(ev.targetId, ev.targetName, ev.rawDamage, ev.damageType,
                 ev.finalDamage, ev.overkill, ev.hpBefore, ev.hpAfter)
  }

  /** The event `addHistoryEvent` stores: the caller's fields plus an id and a timestamp. */
  function Stamp(e: HistoryInput, id: string, now: int): (r: HistoryEvent)
    ensures r.id == id && r.timestamp == now
    ensures Unstamp(r) == e
  {
    HistoryEvent(id, now, e.targetId, e.targetName, e.rawDamage, e.damageType,
                 e.finalDamage, e.overkill, e.hpBefore, e.hpAfter)
  }

  /**
   * `[event, ...history].slice(0, 50)`: the new event first, then the old history
   * with the oldest entries dropped once the cap is reached.
   */
  function Push(history: seq<HistoryEvent>, e: HistoryEvent): (r: seq<HistoryEvent>)
    ensures |r| == Min(HistoryLimit, |history| + 1)
    ensures r[0] == e
    ensures r[1..] == history[..Min(HistoryLimit - 1, |history|)]
  {
    var h := [e] + history;
    assert h[1..] == history;
    h[..Min(HistoryLimit, |h|)]
  }

  /** Pushing events one by one, first to last. */
  function PushAll(history: seq<HistoryEvent>, es: seq<HistoryEvent>): (r: seq<HistoryEvent>)
    ensures |history| <= HistoryLimit ==> |r| <= HistoryLimit
    decreases |es|
  {
    if es == [] then history else PushAll(Push(history, es[0]), es[1..])
  }

  /**
   * An event stays in the history, moving down one place per later event, until 50
   * newer ones have pushed it out: after `later` more pushes it sits at index |later|.
   */
  lemma EventSurvives(history: seq<HistoryEvent>, e: HistoryEvent, later: seq<HistoryEvent>)
    requires |later| < HistoryLimit
    ensures var r := PushAll(Push(history, e), later);
      |later| < |r| && r[|later|] == e
  {
    PushedSurvives(Push(history, e), e, 0, later);
  }

  /** One push moves every kept entry down one place. */
  lemma PushShifts(history: seq<HistoryEvent>, e: HistoryEvent, i: nat)
    requires i < |history| && i + 1 < HistoryLimit
    ensures i + 1 < |Push(history, e)| && Push(history, e)[i + 1] == history[i]
  {
    var r := Push(history, e);
    assert r[1..][i] == history[..Min(HistoryLimit - 1, |history|)][i];
  }

  /** An entry at index i moves to index i + |later| after the pushes of `later`. */
  lemma {:induction false} PushedSurvives(history: seq<HistoryEvent>, e: HistoryEvent, i: nat, later: seq<HistoryEvent>)
    requires i < |history| && history[i] == e && i + |later| < HistoryLimit
    ensures var r := PushAll(history, later);
      i + |later| < |r| && r[i + |later|] == e
    decreases |later|
  {
    if later != [] {
      PushShifts(history, later[0], i);
      PushedSurvives(Push(history, later[0]), e, i + 1, later[1..]);
    }
  }

  /** `partialize`: the history, cut to 50 entries, and the debug flag. */
  function Partialize(history: seq<HistoryEvent>, debugMode: bool): (p: Persisted)
    ensures |p.history| == Min(HistoryLimit, |history|)
    ensures p.history == history[..|p.history|] && p.debugMode == debugMode
    ensures |history| <= HistoryLimit ==> p.history == history
  {
    Persisted(history[..Min(HistoryLimit, |history|)], debugMode)
  }

  /**
   * One element of `getCombinedUnits`: health data from the token's parsed record
   * (zeros and nulls without one), defences from the stored profile (none and
   * empty maps without one).
   */
  function Combine(token: SelectedToken, defense: Option<UnitDefense>): (u: CombinedUnit)
    ensures u.tokenId == token.tokenId && u.image == token.image
    ensures u.hasGrimoireData == token.grimoire.Some? && u.hasDefenseData == defense.Some?
    ensures u.name == if token.grimoire.Some? && token.grimoire.value.name != "" then token.grimoire.value.name else token.tokenName
    ensures token.grimoire.None? ==> u.hp == 0 && u.maxHp == 0 && u.tempHp == 0 && u.mana.None? && u.maxMana.None?
    ensures token.grimoire.Some? ==>
      var g := token.grimoire.value;
      && u.hp == g.hp && u.maxHp == g.maxHp && u.tempHp == g.tempHp
      && u.mana == g.mana && u.maxMana == g.maxMana
    ensures defense.None? ==> u.flatArmor == 0 && u.armorByType == map[] && u.multipliers == map[]
    ensures defense.Some? ==>
      && u.flatArmor == defense.value.flatArmor
      && u.armorByType == defense.value.armorByType
      && u.multipliers == defense.value.multipliers
  {
    var g := token.grimoire;
    CombinedUnit(
      token.tokenId,
      if g.Some? && g.value.name != "" then g.value.name else token.tokenName,
      token.image,
      if g.Some? then g.value.hp else 0,
      if g.Some? then g.value.maxHp else 0,
      if g.Some? then g.value.tempHp else 0,
      if g.Some? then g.value.mana else None,
      if g.Some? then g.value.maxMana else None,
      if defense.Some? then defense.value.flatArmor else 0,
      if defense.Some? then defense.value.armorByType else map[],
      if defense.Some? then defense.value.multipliers else map[],
      g.Some?,
      defense.Some?)
  }

  /** `getCombinedUnits`: the selected tokens, in order, each merged with its profile. */
  function CombinedUnits(tokens: seq<SelectedToken>, units: Units): (r: seq<CombinedUnit>)
    ensures |r| == |tokens|
    ensures forall i :: 0 <= i < |tokens| ==> r[i] == Combine(tokens[i], GetDefense(units, tokens[i].tokenId))
    decreases |tokens|
  {
    if tokens == [] then []
    else [Combine(tokens[0], GetDefense(units, tokens[0].tokenId))] + CombinedUnits(tokens[1..], units)
  }

  /** A token is flagged as defended exactly when the store holds a profile for it. */
  lemma CombinedDefenseFlags(tokens: seq<SelectedToken>, units: Units, i: int)
    requires 0 <= i < |tokens|
    ensures CombinedUnits(tokens, units)[i].hasDefenseData <==> tokens[i].tokenId in units
    ensures tokens[i].tokenId in units ==>
      CombinedUnits(tokens, units)[i].armorByType == units[tokens[i].tokenId].armorByType
  {
  }

  /** The zustand store's history, debug flag and selection. */
  class Store {
    var history: seq<HistoryEvent>
    var debugMode: bool
    var selectedTokens: seq<SelectedToken>

    ghost predicate Valid()
      reads this
    {
      |history| <= HistoryLimit
    }

    constructor()
      ensures Valid() && history == [] && !debugMode && selectedTokens == []
    {
      history := [];
      debugMode := false;
      selectedTokens := [];
    }

    /** `addHistoryEvent`. */
    method AddHistoryEvent(e: HistoryInput, id: string, now: int)
      requires Valid()
      modifies this
      ensures Valid()
      ensures history == Push(old(history), Stamp(e, id, now))
      ensures debugMode == old(debugMode) && selectedTokens == old(selectedTokens)
    {
      history := Push(history, Stamp(e, id, now));
    }

    /** `clearHistory`. */
    method ClearHistory()
      modifies this
      ensures Valid() && history == []
      ensures debugMode == old(debugMode) && selectedTokens == old(selectedTokens)
    {
      history := [];
    }

    /** `toggleDebugMode`. */
    method ToggleDebugMode()
      modifies this
      ensures debugMode == !old(debugMode)
      ensures history == old(history) && selectedTokens == old(selectedTokens)
    {
      debugMode := !debugMode;
    }

    /** `setSelectedTokens`. */
    method SetSelectedTokens(tokens: seq<SelectedToken>)
      modifies this
      ensures selectedTokens == tokens
      ensures history == old(history) && debugMode == old(debugMode)
    {
      selectedTokens := tokens;
    }

    /** `getCombinedUnits`, against the defence store's current profiles. */
    function GetCombinedUnits(defenses: DefenseStore.Store): (r: seq<CombinedUnit>)
      reads this, defenses
      ensures |r| == |selectedTokens|
      ensures forall i :: 0 <= i < |r| ==>
        r[i] == Combine(selectedTokens[i], GetDefense(defenses.units, selectedTokens[i].tokenId))
    {
      CombinedUnits(selectedTokens, defenses.units)
    }

    /** The persisted slice; a valid store persists its whole history. */
    function Persist(): (p: Persisted)
      reads this
      ensures Valid() ==> p == Persisted(history, debugMode)
    {
      Partialize(history, debugMode)
    }
  }
}
