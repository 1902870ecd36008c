/**
 * The hp-tracker write path the mass calculator uses: it knows only the
 * bitperfect hp-tracker record, clamps the new hp to [0, maxHp], rewrites the
 * record's `hp` in place and computes the width and label of the token's bar.
 * The host's fetch and store calls become an item list and fault flags.
 */
module HealthBar {
  import opened Wrappers
  import opened Json
  import opened Types
  import opened GrimoireParser
  import opened SceneItems
  import GrimoireWriter

  /** Width in pixels of a full hp bar. */
  const BarMaxWidth := 146

  /** One requested change: token, new hp and an optional explicit maximum. */
  datatype BarUpdate = BarUpdate(tokenId: string, newHp: int, maxHp: Option<int>)

  /**
   * Which of the host calls of one `updateTokenHp` fail: the item fetch, the token
   * store call, or the later attachment updates.
   */
  datatype Faults = Faults(read: bool, write: bool, attachments: bool)

  const NoFaults := Faults(false, false, false)

  /** What the bar shows: its width and the `"hp/max"` text. */
  datatype BarDisplay = BarDisplay(width: int, text: string)

  datatype Tally = Tally(success: nat, failed: nat)

  // ---------------------------------------------------------------------------
  // Pure pieces: maximum, clamp, width, label

  /** `maxHpParam ?? data.maxHp ?? data.hp ?? 100`: the first link that is neither null nor missing. */
  function MaxHpValue(data: Json, maxHpParam: Option<int>): (m: Json)
    ensures m != Null
    ensures maxHpParam.Some? ==> m == Num(maxHpParam.value)
    ensures maxHpParam.None? && Coalesce(Prop(data, "maxHp"), None).Some? ==> m == Prop(data, "maxHp").value
    ensures maxHpParam.None? && Coalesce(Prop(data, "maxHp"), None).None? && Coalesce(Prop(data, "hp"), None).Some? ==>
      m == Prop(data, "hp").value
    ensures maxHpParam.None? && Coalesce(Prop(data, "maxHp"), None).None? && Coalesce(Prop(data, "hp"), None).None? ==>
      m == Num(100)
  {
    if maxHpParam.Some? then Num(maxHpParam.value)
    else Coalesce(Coalesce(Prop(data, "maxHp"), Prop(data, "hp")), Some(Num(100))).value
  }

  /**
   * Without an explicit maximum, the bar uses the maximum the parser reads from the
   * same tracker record, whenever the record's `hp` is not null.
   */
  lemma MaxHpMatchesParser(bag: Bag)
    requires TrackerHolds(bag) && Prop(Lookup(bag, TrackerKey).value, "hp") != Some(Null)
    ensures ToNumber(MaxHpValue(Lookup(bag, TrackerKey).value, None)) == ParseTracker(bag).value.maxHp
  {
  }

  /** `Math.max(0, Math.min(newHp, maxHp))`. */
  function SafeHp(newHp: int, maxHp: int): (s: int)
    ensures 0 <= s
    ensures maxHp >= 0 ==> s <= maxHp
    ensures 0 <= newHp <= maxHp ==> s == newHp
    ensures newHp < 0 || maxHp < 0 ==> s == 0
    ensures 0 <= maxHp <= newHp ==> s == maxHp
  {
    Max(0, Min(newHp, maxHp))
  }

  /**
   * `Math.round(146 * safe / maxHp)` when maxHp > 0, else 0, in exact arithmetic:
   * the nearest integer to 146 * safe / maxHp, halves rounded up.
   */
  function BarWidth(safe: int, maxHp: int): (w: int)
    ensures maxHp <= 0 ==> w == 0
    ensures maxHp > 0 ==>
      2 * maxHp * w <= 2 * BarMaxWidth * safe + maxHp < 2 * maxHp * (w + 1)
  {
    if maxHp > 0 then
      var w := (2 * BarMaxWidth * safe + maxHp) / (2 * maxHp);
      DivBounds(2 * BarMaxWidth * safe + maxHp, 2 * maxHp);
      w
    else 0
  }

  lemma DivBounds(a: int, b: int)
    requires b > 0
    ensures b * (a / b) <= a < b * (a / b + 1)
  {
  }

  /** A clamped hp gives a width between an empty and a full bar, with both ends exact. */
  lemma BarWidthRange(safe: int, maxHp: int)
    requires maxHp > 0 && 0 <= safe <= maxHp
    ensures 0 <= BarWidth(safe, maxHp) <= BarMaxWidth
    ensures safe == 0 ==> BarWidth(safe, maxHp) == 0
    ensures safe == maxHp ==> BarWidth(safe, maxHp) == BarMaxWidth
  {
    var w := BarWidth(safe, maxHp);
    var a := 2 * BarMaxWidth * safe + maxHp;
    assert 2 * maxHp * w <= a < 2 * maxHp * (w + 1);
    assert maxHp <= a <= 2 * maxHp * BarMaxWidth + maxHp;
    WidthFromBounds(w, maxHp, a);
    if safe == 0 {
      assert a == maxHp;
      UniqueQuotient(w, 0, 2 * maxHp, a);
    }
    if safe == maxHp {
      assert a == 2 * maxHp * BarMaxWidth + maxHp;
      UniqueQuotient(w, BarMaxWidth, 2 * maxHp, a);
    }
  }

  lemma WidthFromBounds(w: int, m: int, a: int)
    requires m > 0 && 2 * m * w <= a < 2 * m * (w + 1)
    requires m <= a <= 2 * m * BarMaxWidth + m
    ensures 0 <= w <= BarMaxWidth
  {
    if w < 0 {
      MulMonotone(2 * m, w + 1, 0);
    }
    if w > BarMaxWidth {
      MulMonotone(2 * m, BarMaxWidth + 1, w);
    }
  }

  /** Two quotients that bracket the same value with the same divisor are equal. */
  lemma UniqueQuotient(w: int, v: int, b: int, a: int)
    requires b > 0
    requires b * w <= a < b * (w + 1)
    requires b * v <= a < b * (v + 1)
    ensures w == v
  {
    if w < v {
      MulMonotone(b, w + 1, v);
    }
    if v < w {
      MulMonotone(b, v + 1, w);
    }
  }

  lemma MulMonotone(b: int, x: int, y: int)
    requires b >= 0 && x <= y
    ensures b * x <= b * y
  {
    assert b * y - b * x == b * (y - x);
  }

  /** More hp never gives a shorter bar. */
  lemma BarWidthMonotone(s1: int, s2: int, maxHp: int)
    requires maxHp > 0 && s1 <= s2
    ensures BarWidth(s1, maxHp) <= BarWidth(s2, maxHp)
  {
    var w1 := BarWidth(s1, maxHp);
    var w2 := BarWidth(s2, maxHp);
    MulMonotone(2 * BarMaxWidth, s1, s2);
    if w2 < w1 {
      MulMonotone(2 * maxHp, w2 + 1, w1);
    }
  }

  /** `${safeNewHp}/${maxHp}`. */
  function Label(safe: int, maxHp: Json): string {
    IntText(safe) + "/" + ToText(maxHp)
  }

  /** The label's first slash ends the hp part, so the hp the label shows is recoverable. */
  lemma LabelSplits(safe: int, maxHp: Json)
    ensures var t := Label(safe, maxHp); var n := |IntText(safe)|;
      && n < |t| && t[n] == '/' && t[..n] == IntText(safe) && t[n + 1..] == ToText(maxHp)
      && forall i :: 0 <= i < n ==> t[i] != '/'
  {
    var a := IntText(safe);
    assert '/' !in NumberChars;
    assert '/' !in a;
    SplitAtSlash(a, ToText(maxHp));
  }

  /** Joining a slash-free text and another with a slash puts the first slash at the join. */
  lemma SplitAtSlash(a: string, b: string)
    requires '/' !in a
    ensures var t := a + "/" + b;
      && |a| < |t| && t[|a|] == '/' && t[..|a|] == a && t[|a| + 1..] == b
      && forall i :: 0 <= i < |a| ==> t[i] != '/'
  {
    var t := a + "/" + b;
    forall i | 0 <= i < |a| ensures t[i] != '/' {
      assert t[i] == a[i];
    }
  }

  /** The bar's width and text for a tracker record, a new hp and an optional maximum. */
  function Display(data: Json, newHp: int, maxHpParam: Option<int>): (d: BarDisplay)
    ensures var m := MaxHpValue(data, maxHpParam); var s := SafeHp(newHp, ToNumber(m));
      && d.text == Label(s, m)
      && d.width == BarWidth(s, ToNumber(m))
      && (ToNumber(m) > 0 ==> 0 <= d.width <= BarMaxWidth)
  {
    var m := MaxHpValue(data, maxHpParam);
    var s := SafeHp(newHp, ToNumber(m));
    if ToNumber(m) > 0 then
      BarWidthRange(s, ToNumber(m));
      BarDisplay(BarWidth(s, ToNumber(m)), Label(s, m))
    else BarDisplay(0, Label(s, m))
  }

  // ---------------------------------------------------------------------------
  // The tracker write

  /**
   * `if (meta[key]) meta[key].hp = safe` on one token's metadata. An object gets the
   * new hp; an array takes the property but it is not part of the stored JSON, so
   * the bag is unchanged; a truthy primitive throws (None).
   */
  function WriteTrackerHp(meta: Bag, safe: int): (r: Option<Bag>)
    ensures var d := Lookup(meta, TrackerKey);
      r.None? <==> d.Some? && Truthy(d.value) && !IsObjectType(d.value)
    ensures r.Some? ==> Keys(r.value) == Keys(meta)
    ensures r.Some? ==> forall k :: k != TrackerKey ==> Lookup(r.value, k) == Lookup(meta, k)
    ensures var d := Lookup(meta, TrackerKey);
      d.Some? && d.value.Obj? ==>
        && r.Some?
        && Lookup(r.value, TrackerKey).Some?
        && Lookup(r.value, TrackerKey).value.Obj?
        && Prop(Lookup(r.value, TrackerKey).value, "hp") == Some(Num(safe))
        && forall k :: k != "hp" ==> Prop(Lookup(r.value, TrackerKey).value, k) == Prop(d.value, k)
    ensures var d := Lookup(meta, TrackerKey);
      r.Some? && !(d.Some? && d.value.Obj?) ==> r.value == meta
  {
    match Lookup(meta, TrackerKey)
    case None => Some(meta)
    case Some(v) =>
      if !Truthy(v) then Some(meta)
      else
        match v
        case Obj(fs) => Some(Set(meta, TrackerKey, Obj(Set(fs, "hp", Num(safe)))))
        case Arr(_) => Some(meta)
        case _ => None
  }

  /** After writing an object record, the parser reads it as a tracker record with the new hp. */
  lemma WriteTrackerHpReads(meta: Bag, safe: int)
    requires Lookup(meta, TrackerKey).Some? && Lookup(meta, TrackerKey).value.Obj?
    ensures var r := WriteTrackerHp(meta, safe).value;
      && ParsedConvention(r) == Some(Tracker)
      && ParseGrimoireData(r).Some?
      && ParseGrimoireData(r).value.hp == safe
  {
    var r := WriteTrackerHp(meta, safe).value;
    assert Has(Lookup(r, TrackerKey).value.fields, "hp");
    TrackerRead(r, safe);
  }

  /** A tracker record whose `hp` is the number x is what the parser reads, with hp x. */
  lemma TrackerRead(bag: Bag, x: int)
    requires Lookup(bag, TrackerKey).Some? && Lookup(bag, TrackerKey).value.Obj?
    requires Prop(Lookup(bag, TrackerKey).value, "hp") == Some(Num(x))
    ensures ParsedConvention(bag) == Some(Tracker)
    ensures ParseGrimoireData(bag).Some? && ParseGrimoireData(bag).value.hp == x
  {
    assert TrackerHolds(bag);
  }

  /**
   * The store callback over the token list: every item with the id gets the tracker
   * write, the others stay; a throw on any of them discards the whole update.
   */
  function WriteTokens(items: seq<Item>, tokenId: string, safe: int): (r: Option<seq<Item>>)
    ensures r.None? <==> exists i :: 0 <= i < |items| && items[i].id == tokenId && WriteTrackerHp(items[i].metadata, safe).None?
    ensures r.Some? ==> |r.value| == |items|
    ensures r.Some? ==> forall i :: 0 <= i < |items| && items[i].id != tokenId ==> r.value[i] == items[i]
    ensures r.Some? ==> forall i :: 0 <= i < |items| && items[i].id == tokenId ==>
      r.value[i] == items[i].(metadata := WriteTrackerHp(items[i].metadata, safe).value)
    decreases |items|
  {
    if items == [] then Some([])
    else
      var n := |items| - 1;
      var init := WriteTokens(items[..n], tokenId, safe);
      assert forall i :: 0 <= i < n ==> items[..n][i] == items[i];
      if init.None? then None
      else if items[n].id != tokenId then Some(init.value + [items[n]])
      else
        match WriteTrackerHp(items[n].metadata, safe)
        case None => None
        case Some(m) => Some(init.value + [items[n].(metadata := m)])
  }

  /** The callback as the host runs it, one item at a time. */
  method WriteTokenHp(scene: Scene, tokenId: string, safe: int) returns (ok: bool)
    modifies scene
    ensures ok == WriteTokens(old(scene.items), tokenId, safe).Some?
    ensures scene.items == if ok then WriteTokens(old(scene.items), tokenId, safe).value else old(scene.items)
  {
    var items := scene.items;
    var out: seq<Item> := [];
    var i := 0;
    while i < |items|
      invariant 0 <= i <= |items|
      invariant WriteTokens(items[..i], tokenId, safe) == Some(out)
    {
      assert items[..i + 1][..i] == items[..i];
      var item := items[i];
      if item.id == tokenId {
        var m := WriteTrackerHp(item.metadata, safe);
        if m.None? {
          assert WriteTokens(items[..i + 1], tokenId, safe).None?;
          WriteTokensAbort(items, tokenId, safe, i + 1);
          return false;
        }
        out := out + [item.(metadata := m.value)];
      } else {
        out := out + [item];
      }
      i := i + 1;
    }
    assert items[..i] == items;
    scene.items := out;
    ok := true;
  }

  /** A throw on a prefix of the list is a throw on the whole list. */
  lemma {:induction false} WriteTokensAbort(items: seq<Item>, tokenId: string, safe: int, i: nat)
    requires i <= |items| && WriteTokens(items[..i], tokenId, safe).None?
    ensures WriteTokens(items, tokenId, safe).None?
  {
    var j :| 0 <= j < i && items[..i][j].id == tokenId && WriteTrackerHp(items[..i][j].metadata, safe).None?;
    assert items[j] == items[..i][j];
  }

  // ---------------------------------------------------------------------------
  // One update

  /** `if (!hpData)` fails: the token has a truthy value under the tracker key. */
  predicate TrackerData(meta: Bag) {
    Lookup(meta, TrackerKey).Some? && Truthy(Lookup(meta, TrackerKey).value)
  }

  /**
   * `updateTokenHp` of the hp-tracker path: the success flag and the resulting item
   * list. A failing attachment update comes after the token write, so it reports
   * false with the new hp already stored.
   */
  function SingleUpdate(items: seq<Item>, u: BarUpdate, f: Faults): (r: (bool, seq<Item>))
    ensures f.read || FindItem(items, u.tokenId).None? ==> !r.0 && r.1 == items
    ensures (FindItem(items, u.tokenId).Some? && !TrackerData(FindItem(items, u.tokenId).value.metadata)) ==>
      !r.0 && r.1 == items
    ensures r.0 ==> !f.read && !f.write && !f.attachments
  {
    if f.read then (false, items)
    else
      match FindItem(items, u.tokenId)
      case None => (false, items)
      case Some(token) =>
        if !TrackerData(token.metadata) || f.write then (false, items)
        else
          var data := Lookup(token.metadata, TrackerKey).value;
          var safe := SafeHp(u.newHp, ToNumber(MaxHpValue(data, u.maxHp)));
          match WriteTokens(items, u.tokenId, safe)
          case None => (false, items)
          case Some(written) => (!f.attachments, written)
  }

  /**
   * Only the tracker record's `hp` of the token changes: other items, other metadata
   * keys and the record's other properties are kept.
   */
  lemma SingleUpdateFrame(items: seq<Item>, u: BarUpdate, f: Faults, i: int)
    requires 0 <= i < |items|
    ensures var r := SingleUpdate(items, u, f).1;
      && |r| == |items|
      && (items[i].id != u.tokenId ==> r[i] == items[i])
      && r[i].id == items[i].id && r[i].name == items[i].name && r[i].kind == items[i].kind
      && Keys(r[i].metadata) == Keys(items[i].metadata)
      && (forall k :: k != TrackerKey ==> Lookup(r[i].metadata, k) == Lookup(items[i].metadata, k))
      && (Lookup(items[i].metadata, TrackerKey).Some? && Lookup(items[i].metadata, TrackerKey).value.Obj? ==>
            && Lookup(r[i].metadata, TrackerKey).Some?
            && forall k :: k != "hp" ==>
                 Prop(Lookup(r[i].metadata, TrackerKey).value, k) == Prop(Lookup(items[i].metadata, TrackerKey).value, k))
  {
  }

  /**
   * With unique ids and no fault before the store call, a token whose tracker data is
   * an object ends up with the clamped hp, which the parser reads back; the result
   * is true unless the attachment updates fail.
   */
  lemma SingleUpdateStores(items: seq<Item>, u: BarUpdate, f: Faults, i: int)
    requires DistinctIds(items) && 0 <= i < |items| && items[i].id == u.tokenId
    requires !f.read && !f.write
    requires Lookup(items[i].metadata, TrackerKey).Some? && Lookup(items[i].metadata, TrackerKey).value.Obj?
    ensures var data := Lookup(items[i].metadata, TrackerKey).value;
      var safe := SafeHp(u.newHp, ToNumber(MaxHpValue(data, u.maxHp)));
      var r := SingleUpdate(items, u, f);
      && r.0 == !f.attachments
      && |r.1| == |items|
      && ParsedConvention(r.1[i].metadata) == Some(Tracker)
      && ParseGrimoireData(r.1[i].metadata).Some?
      && ParseGrimoireData(r.1[i].metadata).value.hp == safe
  {
    FindItemAt(items, i);
    var data := Lookup(items[i].metadata, TrackerKey).value;
    var safe := SafeHp(u.newHp, ToNumber(MaxHpValue(data, u.maxHp)));
    OnlyTokenWrites(items, u.tokenId, safe, i);
    WriteTrackerHpReads(items[i].metadata, safe);
  }

  /** With unique ids only item i carries the id, and its write does not throw. */
  lemma OnlyTokenWrites(items: seq<Item>, tokenId: string, safe: int, i: int)
    requires DistinctIds(items) && 0 <= i < |items| && items[i].id == tokenId
    requires Lookup(items[i].metadata, TrackerKey).Some? && Lookup(items[i].metadata, TrackerKey).value.Obj?
    ensures WriteTokens(items, tokenId, safe).Some?
  {
  }

  /** `updateTokenHp`. */
  method UpdateTokenHp(scene: Scene, u: BarUpdate, f: Faults) returns (ok: bool)
    modifies scene
    ensures ok == SingleUpdate(old(scene.items), u, f).0
    ensures scene.items == SingleUpdate(old(scene.items), u, f).1
  {
    if f.read {
      return false;
    }
    var token := FindItem(scene.items, u.tokenId);
    if token.None? {
      return false;
    }
    if !TrackerData(token.value.metadata) {
      return false;
    }
    var data := Lookup(token.value.metadata, TrackerKey).value;
    var maxHp := MaxHpValue(data, u.maxHp);
    var safe := SafeHp(u.newHp, ToNumber(maxHp));
    if f.write {
      return false;
    }
    var written := WriteTokenHp(scene, u.tokenId, safe);
    if !written {
      return false;
    }
    ok := !f.attachments;
  }

  // ---------------------------------------------------------------------------
  // The batch

  /** The faults of update i; updates past the end of the list see none. */
  function FaultAt(faults: seq<Faults>, i: nat): Faults {
    if i < |faults| then faults[i] else NoFaults
  }

  /** One update's effect on the running tally and item list. */
  function Tick(acc: (Tally, seq<Item>), u: BarUpdate, f: Faults): (Tally, seq<Item>) {
    var r := SingleUpdate(acc.1, u, f);
    (if r.0 then Tally(acc.0.success + 1, acc.0.failed) else Tally(acc.0.success, acc.0.failed + 1), r.1)
  }

  /**
   * `updateMultipleTokensHp`: the updates run one after another in input order, each
   * seeing the items the earlier ones left; every update is counted exactly once.
   */
  function RunBatch(items: seq<Item>, updates: seq<BarUpdate>, faults: seq<Faults>): (r: (Tally, seq<Item>))
    ensures r.0.success + r.0.failed == |updates|
    decreases |updates|
  {
    if updates == [] then (Tally(0, 0), items)
    else
      var n := |updates| - 1;
      Tick(RunBatch(items, updates[..n], faults), updates[n], FaultAt(faults, n))
  }

  /** A failed update does not stop the next: update n runs on whatever the first n left. */
  lemma RunBatchPrefix(items: seq<Item>, updates: seq<BarUpdate>, faults: seq<Faults>, n: nat)
    requires n < |updates|
    ensures RunBatch(items, updates[..n + 1], faults) ==
      Tick(RunBatch(items, updates[..n], faults), updates[n], FaultAt(faults, n))
  {
    assert updates[..n + 1][..n] == updates[..n];
  }

  /** The loop's step: update i moves the tally and the items as the batch function says. */
  lemma BatchStep(items: seq<Item>, updates: seq<BarUpdate>, faults: seq<Faults>, i: nat,
                  t: Tally, cur: seq<Item>, ok: bool, next: seq<Item>)
    requires i < |updates|
    requires t == RunBatch(items, updates[..i], faults).0 && cur == RunBatch(items, updates[..i], faults).1
    requires ok == SingleUpdate(cur, updates[i], FaultAt(faults, i)).0
    requires next == SingleUpdate(cur, updates[i], FaultAt(faults, i)).1
    ensures RunBatch(items, updates[..i + 1], faults).0 ==
      if ok then Tally(t.success + 1, t.failed) else Tally(t.success, t.failed + 1)
    ensures RunBatch(items, updates[..i + 1], faults).1 == next
  {
    RunBatchPrefix(items, updates, faults, i);
  }

  /** Updates that name no token of the scene all fail and change nothing. */
  lemma {:induction false} AbsentTokensFail(items: seq<Item>, updates: seq<BarUpdate>, faults: seq<Faults>)
    requires forall j :: 0 <= j < |updates| ==> FindItem(items, updates[j].tokenId).None?
    ensures RunBatch(items, updates, faults) == (Tally(0, |updates|), items)
    decreases |updates|
  {
    if updates != [] {
      var n := |updates| - 1;
      assert forall j :: 0 <= j < n ==> updates[..n][j] == updates[j];
      AbsentTokensFail(items, updates[..n], faults);
    }
  }

  /** `updateMultipleTokensHp`. */
  method UpdateMultipleTokensHp(scene: Scene, updates: seq<BarUpdate>, faults: seq<Faults>)
    returns (success: nat, failed: nat)
    modifies scene
    ensures Tally(success, failed) == RunBatch(old(scene.items), updates, faults).0
    ensures scene.items == RunBatch(old(scene.items), updates, faults).1
    ensures success + failed == |updates|
  {
    success, failed := 0, 0;
    ghost var start := scene.items;
    var i := 0;
    while i < |updates|
      invariant 0 <= i <= |updates|
      invariant Tally(success, failed) == RunBatch(start, updates[..i], faults).0
      invariant scene.items == RunBatch(start, updates[..i], faults).1
    {
      ghost var before := scene.items;
      var ok := UpdateTokenHp(scene, updates[i], FaultAt(faults, i));
      BatchStep(start, updates, faults, i, Tally(success, failed), before, ok, scene.items);
      if ok {
        success := success + 1;
      } else {
        failed := failed + 1;
      }
      assert Tally(success, failed) == RunBatch(start, updates[..i + 1], faults).0;
      assert scene.items == RunBatch(start, updates[..i + 1], faults).1;
      i := i + 1;
    }
    assert updates[..i] == updates;
  }
}
