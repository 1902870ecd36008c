/**
 * The pure pieces of the scene hook: turning the fetched selection into selected
 * tokens, refreshing those tokens when scene items change, and merging them with
 * the local defence profiles. The hook's React state and host subscriptions are
 * not part of this model.
 */
module UseObr {
  import opened Wrappers
  import opened Types
  import opened GrimoireParser
  import opened SceneItems
  import opened DefenseStore
  import opened AppStore

  /** The name shown for a token that has none. */
  const Unnamed := "Безымянный"

  /** The selected-token record of one fetched image item. */
  function ToToken(item: Item): (t: SelectedToken)
    ensures t.tokenId == item.id && t.image == item.imageUrl && t.position == item.position
    ensures t.grimoire == ParseGrimoireData(item.metadata)
    ensures t.tokenName == if item.name != "" then item.name else Unnamed
  {
    SelectedToken(item.id, if item.name != "" then item.name else Unnamed,
                  ParseGrimoireData(item.metadata), item.imageUrl, item.position)
  }

  /** How many of the items are images. */
  function ImageCount(items: seq<Item>): nat
    decreases |items|
  {
    if items == [] then 0 else (if items[0].kind == Image then 1 else 0) + ImageCount(items[1..])
  }

  /** The token came from an image item of the list. */
  ghost predicate FromImage(items: seq<Item>, t: SelectedToken) {
    exists i :: 0 <= i < |items| && items[i].kind == Image && t == ToToken(items[i])
  }

  /**
   * `items.filter(type === 'IMAGE').map(...)`: one token per image item, in order,
   * and nothing for any other kind of item (see `TokensSound` and `TokensComplete`).
   */
  function TokensOf(items: seq<Item>): (r: seq<SelectedToken>)
    ensures |r| == ImageCount(items)
    decreases |items|
  {
    if items == [] then []
    else if items[0].kind == Image then [ToToken(items[0])] + TokensOf(items[1..])
    else TokensOf(items[1..])
  }

  /** Loading one more item appends its token, when it is an image, after the others: order is kept. */
  lemma {:induction false} TokensOfAppend(items: seq<Item>, x: Item)
    ensures TokensOf(items + [x]) == TokensOf(items) + (if x.kind == Image then [ToToken(x)] else [])
    decreases |items|
  {
    if items != [] {
      assert (items + [x])[1..] == items[1..] + [x];
      TokensOfAppend(items[1..], x);
    }
  }

  /** Every loaded token is the token of an image item. */
  lemma {:induction false} TokensSound(items: seq<Item>)
    ensures forall j :: 0 <= j < |TokensOf(items)| ==> FromImage(items, TokensOf(items)[j])
    decreases |items|
  {
    if items != [] {
      var tail := items[1..];
      var rest := TokensOf(tail);
      TokensSound(tail);
      forall j | 0 <= j < |rest| ensures FromImage(items, rest[j]) {
        assert FromImage(tail, rest[j]);
        var i :| 0 <= i < |tail| && tail[i].kind == Image && rest[j] == ToToken(tail[i]);
        assert items[i + 1] == tail[i];
      }
      if items[0].kind == Image {
        assert FromImage(items, ToToken(items[0]));
      }
    }
  }

  /** Every image item's token is loaded. */
  lemma {:induction false} TokensComplete(items: seq<Item>, i: int)
    requires 0 <= i < |items| && items[i].kind == Image
    ensures ToToken(items[i]) in TokensOf(items)
    decreases |items|
  {
    var t := ToToken(items[i]);
    var r := TokensOf(items);
    var rest := TokensOf(items[1..]);
    if items[0].kind == Image {
      assert r == [ToToken(items[0])] + rest;
    } else {
      assert r == rest;
    }
    if i > 0 {
      assert items[1..][i - 1] == items[i];
      TokensComplete(items[1..], i - 1);
    }
  }

  /**
   * `loadSelectedTokens`: before the host is ready nothing changes; an empty
   * selection clears the tokens; a failed fetch keeps the previous ones.
   */
  function LoadSelectedTokens(prev: seq<SelectedToken>, ready: bool, selection: seq<string>,
                              fetched: seq<Item>, fault: bool): (r: seq<SelectedToken>)
    ensures !ready ==> r == prev
    ensures ready && selection == [] ==> r == []
    ensures ready && selection != [] && fault ==> r == prev
    ensures ready && selection != [] && !fault ==> r == TokensOf(fetched)
  {
    if !ready then prev
    else if selection == [] then []
    else if fault then prev
    else TokensOf(fetched)
  }

  /** The items-changed handler for one token: re-read name and record from its item, if any. */
  function RefreshToken(token: SelectedToken, changed: seq<Item>): (t: SelectedToken)
    ensures FindItem(changed, token.tokenId).None? ==> t == token
    ensures FindItem(changed, token.tokenId).Some? ==>
      var item := FindItem(changed, token.tokenId).value;
      && t == token.(tokenName := t.tokenName, grimoire := t.grimoire)
      && t.grimoire == ParseGrimoireData(item.metadata)
      && t.tokenName == if item.name != "" then item.name else token.tokenName
  {
    match FindItem(changed, token.tokenId)
    case None => token
    case Some(item) =>
      token.(tokenName := if item.name != "" then item.name else token.tokenName,
             grimoire := ParseGrimoireData(item.metadata))
  }

  /** `prev.map(...)` of the items-changed handler. */
  function RefreshTokens(prev: seq<SelectedToken>, changed: seq<Item>): (r: seq<SelectedToken>)
    ensures |r| == |prev|
    ensures forall i :: 0 <= i < |prev| ==> r[i] == RefreshToken(prev[i], changed)
    decreases |prev|
  {
    if prev == [] then [] else [RefreshToken(prev[0], changed)] + RefreshTokens(prev[1..], changed)
  }

  /** Handling the same change twice gives what handling it once gave. */
  lemma RefreshIdempotent(prev: seq<SelectedToken>, changed: seq<Item>)
    ensures RefreshTokens(RefreshTokens(prev, changed), changed) == RefreshTokens(prev, changed)
  {
    var once := RefreshTokens(prev, changed);
    var twice := RefreshTokens(once, changed);
    forall i | 0 <= i < |prev| ensures twice[i] == once[i] {
      assert once[i].tokenId == prev[i].tokenId;
    }
  }

  /**
   * Refreshing freshly loaded tokens from the same items changes nothing: the load
   * and the change handler read every token the same way.
   */
  lemma RefreshAfterLoad(items: seq<Item>)
    requires DistinctIds(items)
    ensures RefreshTokens(TokensOf(items), items) == TokensOf(items)
  {
    var ts := TokensOf(items);
    TokensSound(items);
    forall j | 0 <= j < |ts| ensures RefreshToken(ts[j], items) == ts[j] {
      var i :| 0 <= i < |items| && items[i].kind == Image && ts[j] == ToToken(items[i]);
      RefreshLoadedToken(items, i);
    }
  }

  /** A loaded token re-read from its own item is unchanged. */
  lemma RefreshLoadedToken(items: seq<Item>, i: int)
    requires DistinctIds(items) && 0 <= i < |items|
    ensures RefreshToken(ToToken(items[i]), items) == ToToken(items[i])
  {
    FindItemAt(items, i);
  }

  /**
   * One element of `selectedUnits`: the store's merge, except that without a
   * profile the flat armour falls back to the record's armour.
   */
  function SelectedUnit(token: SelectedToken, defense: Option<UnitDefense>): (u: CombinedUnit)
    ensures defense.Some? ==> u.flatArmor == defense.value.flatArmor
    ensures defense.None? && token.grimoire.Some? ==> u.flatArmor == token.grimoire.value.armor
    ensures defense.None? && token.grimoire.None? ==> u.flatArmor == 0
    ensures u == Combine(token, defense).(flatArmor := u.flatArmor)
  {
    var c := Combine(token, defense);
    c.(flatArmor := if defense.Some? then defense.value.flatArmor
                    else if token.grimoire.Some? then token.grimoire.value.armor
                    else 0)
  }

  /** `selectedUnits`. */
  function SelectedUnits(tokens: seq<SelectedToken>, units: Units): (r: seq<CombinedUnit>)
    ensures |r| == |tokens|
    ensures forall i :: 0 <= i < |tokens| ==> r[i] == SelectedUnit(tokens[i], GetDefense(units, tokens[i].tokenId))
    decreases |tokens|
  {
    if tokens == [] then []
    else [SelectedUnit(tokens[0], GetDefense(units, tokens[0].tokenId))] + SelectedUnits(tokens[1..], units)
  }

  /**
   * The hook's merge and the store's merge agree on every field but the flat armour,
   * and they differ there only for a token with no profile whose record has armour.
   */
  lemma MergesDiffer(tokens: seq<SelectedToken>, units: Units, i: int)
    requires 0 <= i < |tokens|
    ensures var a := SelectedUnits(tokens, units)[i]; var b := CombinedUnits(tokens, units)[i];
      && a == b.(flatArmor := a.flatArmor)
      && (a.flatArmor != b.flatArmor <==>
            tokens[i].tokenId !in units && tokens[i].grimoire.Some? && tokens[i].grimoire.value.armor != 0)
  {
  }
}
