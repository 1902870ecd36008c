/**
 * The generic write path: re-detect the convention of each target item and rewrite
 * its hp (and temp hp) in place, with batch validation and failure counting.
 */
module GrimoireWriter {
  import opened Wrappers
  import opened Json
  import opened Types
  import opened GrimoireParser
  import opened SceneItems

  /** One requested write; `newTempHp` is optional. */
  datatype HpUpdate = HpUpdate(tokenId: string, newHp: int, newTempHp: Option<int>)

  datatype BatchResult = BatchResult(success: nat, failed: nat, errors: seq<string>)

  /** What the engine throws for `'hp' in null`. */
  const InNullError := "TypeError: Cannot use 'in' operator to search for 'hp' in null"

  /** The writer treats `meta[prefix]` as a nested record: `prefix in meta && typeof meta[prefix] === 'object'`. */
  predicate NestedBranch(meta: Bag, prefix: string) {
    Has(meta, prefix) && IsObjectType(Lookup(meta, prefix).value)
  }

  /**
   * The nested branch on a non-null record: `hp` if present, else `currentHp` if
   * present, takes max(0, newHp); `tempHp` takes max(0, newTempHp) when one is given.
   * An array has neither key, and a named property set on it is not part of its JSON,
   * so it is unchanged.
   */
  function MutateNested(v: Json, newHp: int, newTemp: Option<int>): (w: Json)
    requires v.Arr? || v.Obj?
    ensures v.Arr? ==> w == v
    ensures v.Obj? ==> w.Obj?
    ensures HasProp(v, "hp") ==> Prop(w, "hp") == Some(Num(Max(0, newHp)))
    ensures !HasProp(v, "hp") ==> Prop(w, "hp") == Prop(v, "hp")
    ensures !HasProp(v, "hp") && HasProp(v, "currentHp") ==> Prop(w, "currentHp") == Some(Num(Max(0, newHp)))
    ensures HasProp(v, "hp") || !HasProp(v, "currentHp") ==> Prop(w, "currentHp") == Prop(v, "currentHp")
    ensures v.Obj? && newTemp.Some? ==> Prop(w, "tempHp") == Some(Num(Max(0, newTemp.value)))
    ensures newTemp.None? ==> Prop(w, "tempHp") == Prop(v, "tempHp")
    ensures forall k :: k != "hp" && k != "currentHp" && k != "tempHp" ==> Prop(w, k) == Prop(v, k)
    ensures forall k :: HasProp(w, k) <==> HasProp(v, k) || (v.Obj? && newTemp.Some? && k == "tempHp")
  {
    if v.Arr? then v
    else
      var f := v.fields;
      var hpSet :=
        if Has(f, "hp") then Set(f, "hp", Num(Max(0, newHp)))
        else if Has(f, "currentHp") then Set(f, "currentHp", Num(Max(0, newHp)))
        else f;
      var tempSet := if newTemp.Some? then Set(hpSet, "tempHp", Num(Max(0, newTemp.value))) else hpSet;
      SetHas(f, "hp", Num(Max(0, newHp)));
      SetHas(f, "currentHp", Num(Max(0, newHp)));
      SetHas(hpSet, "tempHp", Num(Max(0, newTemp.GetOr(0))));
      Obj(tempSet)
  }

  /** The key the flat branch writes temp hp to: an existing synonym, else `prefix/tempHp`. */
  function TempTarget(meta: Bag, prefix: string): (k: string)
    ensures exists t :: t in TempHpKeys && k == FullKey(prefix, t)
  {
    match FindTempHpKey(meta, prefix)
    case Some(k) => k
    case None => assert "tempHp" in TempHpKeys; FullKey(prefix, "tempHp")
  }

  /** Bags with the same composite keys present agree on which synonym comes first. */
  lemma {:induction false} FirstPresentKeySamePresence(a: Bag, b: Bag, prefix: string, keys: seq<string>)
    requires forall j :: 0 <= j < |keys| ==> (Has(a, FullKey(prefix, keys[j])) <==> Has(b, FullKey(prefix, keys[j])))
    ensures FirstPresentKey(a, prefix, keys) == FirstPresentKey(b, prefix, keys)
    ensures AnyPresent(a, prefix, keys) <==> AnyPresent(b, prefix, keys)
  {
    if keys != [] {
      assert forall j :: 0 <= j < |keys[1..]| ==> keys[1..][j] == keys[j + 1];
      FirstPresentKeySamePresence(a, b, prefix, keys[1..]);
    }
  }

  /** Flat hp and temp hp keys never collide. */
  lemma HpAndTempKeysDiffer(prefix: string, h: string, t: string)
    requires h in HpKeys && t in TempHpKeys
    ensures FullKey(prefix, h) != FullKey(prefix, t)
  {
    if FullKey(prefix, h) == FullKey(prefix, t) {
      FullKeySamePrefix(prefix, h, t);
    }
  }

  /**
   * The flat write: the first present hp synonym under the prefix takes max(0, newHp);
   * when a temp hp is given, an existing temp synonym or else `prefix/tempHp` takes
   * max(0, newTempHp). Nothing else changes.
   */
  function FlatWrite(meta: Bag, prefix: string, newHp: int, newTemp: Option<int>): (r: Bag)
    ensures var hk := FirstPresentKey(meta, prefix, HpKeys);
      hk.Some? ==> Lookup(r, hk.value) == Some(Num(Max(0, newHp)))
    ensures newTemp.Some? ==> Lookup(r, TempTarget(meta, prefix)) == Some(Num(Max(0, newTemp.value)))
    ensures forall k :: FirstPresentKey(meta, prefix, HpKeys) != Some(k) && (newTemp.None? || k != TempTarget(meta, prefix)) ==>
      Lookup(r, k) == Lookup(meta, k)
    ensures forall k :: Has(r, k) <==> Has(meta, k) || (newTemp.Some? && k == TempTarget(meta, prefix))
  {
    var hk := FirstPresentKey(meta, prefix, HpKeys);
    var hpSet := if hk.Some? then Set(meta, hk.value, Num(Max(0, newHp))) else meta;
    assert Keys(hpSet) == Keys(meta);
    FirstPresentKeySamePresence(hpSet, meta, prefix, TempHpKeys);
    assert TempTarget(hpSet, prefix) == TempTarget(meta, prefix);
    if newTemp.None? then hpSet
    else
      var tk := TempTarget(hpSet, prefix);
      HpKeyIsNotTempKey(meta, prefix);
      SetHas(hpSet, tk, Num(Max(0, newTemp.value)));
      Set(hpSet, tk, Num(Max(0, newTemp.value)))
  }

  /** The flat branch's hp key and temp key are different keys. */
  lemma HpKeyIsNotTempKey(meta: Bag, prefix: string)
    ensures FirstPresentKey(meta, prefix, HpKeys) != Some(TempTarget(meta, prefix))
  {
    var hk := FirstPresentKey(meta, prefix, HpKeys);
    var tk := TempTarget(meta, prefix);
    if hk.Some? {
      var i :| FirstPresentAt(meta, prefix, HpKeys, i) && hk.value == FullKey(prefix, HpKeys[i]);
      var t :| t in TempHpKeys && tk == FullKey(prefix, t);
      HpAndTempKeysDiffer(prefix, HpKeys[i], t);
    }
  }

  /**
   * The metadata mutator of `updateMultipleTokensHp` and `updateTokenHp`, as written;
   * `None` when it throws, which happens exactly when `meta[prefix]` is `null`.
   */
  function Mutate(meta: Bag, prefix: string, newHp: int, newTemp: Option<int>): (r: Option<Bag>)
    ensures r.None? <==> Lookup(meta, prefix) == Some(Null)
  {
    if NestedBranch(meta, prefix) then
      var v := Lookup(meta, prefix).value;
      if v.Null? then None
      else Some(Set(meta, prefix, MutateNested(v, newHp, newTemp)))
    else
      // Here `meta[prefix]` is absent or not an object, so `findHpKey` has no nested
      // fallback and returns the first present hp synonym.
      assert FindHpKey(meta, prefix) == FirstPresentKey(meta, prefix, HpKeys);
      Some(FlatWrite(meta, prefix, newHp, newTemp))
  }

  /**
   * In the nested branch only `meta[prefix]` changes, and it changes as the nested
   * mutator says; otherwise the flat mutator applies.
   */
  lemma MutateBranches(meta: Bag, prefix: string, newHp: int, newTemp: Option<int>)
    ensures var r := Mutate(meta, prefix, newHp, newTemp);
      r.Some? && NestedBranch(meta, prefix) ==>
        && Keys(r.value) == Keys(meta)
        && Lookup(r.value, prefix) == Some(MutateNested(Lookup(meta, prefix).value, newHp, newTemp))
        && forall k :: k != prefix ==> Lookup(r.value, k) == Lookup(meta, k)
    ensures !NestedBranch(meta, prefix) ==> Mutate(meta, prefix, newHp, newTemp) == Some(FlatWrite(meta, prefix, newHp, newTemp))
  {
  }

  /**
   * The writer's `if (!prefix)` test on the detected key: a missing key and the
   * empty key (a nested record stored under `""`) both mean "no data".
   */
  function WriterPrefix(meta: Bag): (r: Option<string>)
    ensures r.Some? <==> DetectGrimoirePrefix(meta).Some? && DetectGrimoirePrefix(meta).value != ""
    ensures r.Some? ==> r == DetectGrimoirePrefix(meta)
  {
    match DetectGrimoirePrefix(meta)
    case None => None
    case Some(p) => if p == "" then None else Some(p)
  }

  // ---------------------------------------------------------------------------
  // Batch validation

  /** The error a single update is rejected with, if any. */
  function Rejection(items: seq<Item>, u: HpUpdate): (r: Option<string>)
    ensures r.None? <==> FindItem(items, u.tokenId).Some? && WriterPrefix(FindItem(items, u.tokenId).value.metadata).Some?
    ensures FindItem(items, u.tokenId).None? ==> r == Some("Token not found: " + u.tokenId)
    ensures FindItem(items, u.tokenId).Some? && WriterPrefix(FindItem(items, u.tokenId).value.metadata).None? ==>
      var item := FindItem(items, u.tokenId).value;
      r == Some("No Grimoire data: " + (if item.name != "" then item.name else u.tokenId))
  {
    match FindItem(items, u.tokenId)
    case None => Some("Token not found: " + u.tokenId)
    case Some(item) =>
      if WriterPrefix(item.metadata).None? then
        Some("No Grimoire data: " + (if item.name != "" then item.name else u.tokenId))
      else None
  }

  /** `{"": {"hp": 5}}`: a nested record stored under the empty key. */
  const EmptyKeyRecord: Bag := [("", Obj([("hp", Num(5))]))]

  /** Detection names the empty key, which the writer's truthiness test rejects. */
  lemma EmptyKeyIsNoData(item: Item, u: HpUpdate)
    requires item.metadata == EmptyKeyRecord && item.id == u.tokenId
    ensures DetectGrimoirePrefix(EmptyKeyRecord) == Some("")
    ensures WriterPrefix(EmptyKeyRecord).None?
    ensures Rejection([item], u) == Some("No Grimoire data: " + (if item.name != "" then item.name else u.tokenId))
  {
    EmptyKeyDetected();
    assert FindItem([item], u.tokenId) == Some(item);
  }

  /** The record has neither the tracker key nor any flat hp key, so detection falls to the nested scan. */
  lemma EmptyKeyDetected()
    ensures DetectGrimoirePrefix(EmptyKeyRecord) == Some("")
  {
    EmptyKeyHasNoFlatKeys();
    assert DetectCandidate(EmptyKeyRecord[0].1);
  }

  /** No key of the record is a composite `"<prefix>/<field>"` key. */
  lemma EmptyKeyHasNoFlatKeys()
    ensures !Has(EmptyKeyRecord, TrackerKey)
    ensures NoHpPrefix(EmptyKeyRecord, Prefixes)
  {
    assert !Has(EmptyKeyRecord, TrackerKey);
    forall i | 0 <= i < |Prefixes| ensures !AnyPresent(EmptyKeyRecord, Prefixes[i], HpKeys) {
      forall j | 0 <= j < |HpKeys| ensures !Has(EmptyKeyRecord, FullKey(Prefixes[i], HpKeys[j])) {
        assert |FullKey(Prefixes[i], HpKeys[j])| > 0;
      }
    }
  }

  datatype Validation = Validation(valid: seq<HpUpdate>, errors: seq<string>, failed: nat)

  /** The state of the validation loop after the given updates, in order. */
  function Validated(items: seq<Item>, updates: seq<HpUpdate>): (v: Validation)
    ensures |v.valid| + v.failed == |updates| && |v.errors| == v.failed
    decreases |updates|
  {
    if updates == [] then Validation([], [], 0)
    else
      var v := Validated(items, updates[..|updates| - 1]);
      var u := updates[|updates| - 1];
      match Rejection(items, u)
      case None => v.(valid := v.valid + [u])
      case Some(e) => v.(errors := v.errors + [e], failed := v.failed + 1)
  }

  /** The updates that pass validation, in input order: an independent filter. */
  function Accepted(items: seq<Item>, updates: seq<HpUpdate>): seq<HpUpdate> {
    Kept(updates, RejectionOf(items))
  }

  /** The messages of the rejected updates, in input order. */
  function Rejections(items: seq<Item>, updates: seq<HpUpdate>): seq<string> {
    Messages(updates, RejectionOf(items))
  }

  /** `Rejection` on a fixed item list, as a function value. */
  function RejectionOf(items: seq<Item>): HpUpdate -> Option<string> {
    u => Rejection(items, u)
  }

  /** The updates a verdict does not reject, in order. */
  function Kept(us: seq<HpUpdate>, verdict: HpUpdate -> Option<string>): seq<HpUpdate> {
    if us == [] then []
    else (if verdict(us[0]).None? then [us[0]] else []) + Kept(us[1..], verdict)
  }

  /** The messages a verdict rejects updates with, in order. */
  function Messages(us: seq<HpUpdate>, verdict: HpUpdate -> Option<string>): seq<string> {
    if us == [] then []
    else (match verdict(us[0]) case Some(e) => [e] case None => []) + Messages(us[1..], verdict)
  }

  lemma AcceptedAppend(items: seq<Item>, a: seq<HpUpdate>, u: HpUpdate)
    ensures Accepted(items, a + [u]) == Accepted(items, a) + (if Rejection(items, u).None? then [u] else [])
    ensures Rejections(items, a + [u]) == Rejections(items, a) + (match Rejection(items, u) case Some(e) => [e] case None => [])
  {
    KeptSnoc(a, RejectionOf(items), u);
    MessagesSnoc(a, RejectionOf(items), u);
    assert RejectionOf(items)(u) == Rejection(items, u);
  }

  lemma {:induction false} KeptSnoc(a: seq<HpUpdate>, verdict: HpUpdate -> Option<string>, u: HpUpdate)
    ensures Kept(a + [u], verdict) == Kept(a, verdict) + (if verdict(u).None? then [u] else [])
  {
    if a != [] {
      assert (a + [u])[1..] == a[1..] + [u];
      KeptSnoc(a[1..], verdict, u);
    }
  }

  lemma {:induction false} MessagesSnoc(a: seq<HpUpdate>, verdict: HpUpdate -> Option<string>, u: HpUpdate)
    ensures Messages(a + [u], verdict) == Messages(a, verdict) + (match verdict(u) case Some(e) => [e] case None => [])
  {
    if a != [] {
      assert (a + [u])[1..] == a[1..] + [u];
      MessagesSnoc(a[1..], verdict, u);
    }
  }

  /**
   * Validation partitions the updates: the valid ones are exactly the accepted ones in
   * input order, every other one adds its message and one failure.
   */
  lemma {:induction false} ValidationPartitions(items: seq<Item>, updates: seq<HpUpdate>)
    ensures Validated(items, updates).valid == Accepted(items, updates)
    ensures Validated(items, updates).errors == Rejections(items, updates)
    ensures Validated(items, updates).failed == |updates| - |Accepted(items, updates)|
    ensures Validated(items, updates).failed == |Validated(items, updates).errors|
    decreases |updates|
  {
    if updates != [] {
      var init := updates[..|updates| - 1];
      var u := updates[|updates| - 1];
      ValidationPartitions(items, init);
      assert updates == init + [u];
      AcceptedAppend(items, init, u);
    }
  }

  /** An accepted update names an existing item on which detection finds data. */
  lemma AcceptedAreValid(items: seq<Item>, updates: seq<HpUpdate>, u: HpUpdate)
    requires u in Accepted(items, updates)
    ensures FindItem(items, u.tokenId).Some?
    ensures WriterPrefix(FindItem(items, u.tokenId).value.metadata).Some?
  {
    KeptPass(updates, RejectionOf(items), u);
    assert RejectionOf(items)(u) == Rejection(items, u);
  }

  /** A kept update is one the verdict does not reject. */
  lemma {:induction false} KeptPass(us: seq<HpUpdate>, verdict: HpUpdate -> Option<string>, u: HpUpdate)
    requires u in Kept(us, verdict)
    ensures verdict(u).None?
  {
    if us[0] != u || verdict(us[0]).Some? {
      KeptPass(us[1..], verdict, u);
    }
  }

  /** The validation loop of `updateMultipleTokensHp`. */
  method ValidateUpdates(items: seq<Item>, updates: seq<HpUpdate>) returns (valid: seq<HpUpdate>, errors: seq<string>, failed: nat)
    ensures Validation(valid, errors, failed) == Validated(items, updates)
  {
    valid, errors, failed := [], [], 0;
    for i := 0 to |updates|
      invariant Validation(valid, errors, failed) == Validated(items, updates[..i])
    {
      assert updates[..i + 1][..i] == updates[..i];
      var update := updates[i];
      var item := FindItem(items, update.tokenId);
      if item.None? {
        errors := errors + ["Token not found: " + update.tokenId];
        failed := failed + 1;
        continue;
      }
      var prefix := WriterPrefix(item.value.metadata);
      if prefix.None? {
        errors := errors + ["No Grimoire data: " + (if item.value.name != "" then item.value.name else update.tokenId)];
        failed := failed + 1;
        continue;
      }
      valid := valid + [update];
    }
    assert updates[..|updates|] == updates;
  }

  // ---------------------------------------------------------------------------
  // The mutator loop

  /** `validUpdates.find(u => u.tokenId === id)`. */
  function UpdateFor(valid: seq<HpUpdate>, id: string): (r: Option<HpUpdate>)
    ensures r.Some? ==> r.value in valid && r.value.tokenId == id
    ensures r.None? <==> forall i :: 0 <= i < |valid| ==> valid[i].tokenId != id
  {
    if valid == [] then None
    else if valid[0].tokenId == id then Some(valid[0])
    else
      var r := UpdateFor(valid[1..], id);
      assert r.None? ==> forall i :: 0 <= i < |valid| ==> valid[i].tokenId != id by {
        if r.None? {
          forall i | 0 <= i < |valid| ensures valid[i].tokenId != id {
            if i > 0 { assert valid[i] == valid[1..][i - 1]; }
          }
        }
      }
      r
  }

  /**
   * One pass of the callback over one item: items with no valid update, or on which
   * detection now finds nothing, are skipped; otherwise the mutator runs (`None` when
   * it throws) and the item counts as a success.
   */
  function Step(item: Item, valid: seq<HpUpdate>): (r: Option<(Item, bool)>)
    ensures r.Some? ==> r.value.1 == Counted(item, valid)
    ensures r.Some? ==> r.value.0.(metadata := item.metadata) == item
    ensures r.Some? && !r.value.1 ==> r.value.0 == item
  {
    match UpdateFor(valid, item.id)
    case None => Some((item, false))
    case Some(u) =>
      match WriterPrefix(item.metadata)
      case None => Some((item, false))
      case Some(p) =>
        match Mutate(item.metadata, p, u.newHp, u.newTempHp)
        case None => None
        case Some(m) => Some((item.(metadata := m), true))
  }

  /** An item with a valid update and detected data goes through the mutator. */
  lemma StepMutates(item: Item, valid: seq<HpUpdate>, u: HpUpdate, p: string)
    requires UpdateFor(valid, item.id) == Some(u) && WriterPrefix(item.metadata) == Some(p)
    ensures Step(item, valid) ==
      match Mutate(item.metadata, p, u.newHp, u.newTempHp)
      case None => None
      case Some(m) => Some((item.(metadata := m), true))
  {
  }

  /** The callback counts an item when it has a valid update and detection finds data on it. */
  predicate Counted(item: Item, valid: seq<HpUpdate>) {
    UpdateFor(valid, item.id).Some? && WriterPrefix(item.metadata).Some?
  }

  datatype Applied = Applied(items: seq<Item>, success: nat)

  /** The loop state after one more item. */
  function Extend(prev: Option<Applied>, step: Option<(Item, bool)>): Option<Applied> {
    match prev
    case None => None
    case Some(a) =>
      match step
      case None => None
      case Some((item, counted)) => Some(Applied(a.items + [item], a.success + if counted then 1 else 0))
  }

  /** The state of the mutator loop after the given items; `None` once one has thrown. */
  function AppliedTo(items: seq<Item>, valid: seq<HpUpdate>): (r: Option<Applied>)
    ensures r.Some? ==> |r.value.items| == |items| && r.value.success <= |items|
    decreases |items|
  {
    if items == [] then Some(Applied([], 0))
    else Extend(AppliedTo(items[..|items| - 1], valid), Step(items[|items| - 1], valid))
  }

  /** The `updateItems` callback of `updateMultipleTokensHp`. */
  method ApplyUpdates(items: seq<Item>, valid: seq<HpUpdate>) returns (r: Option<Applied>)
    ensures r == AppliedTo(items, valid)
  {
    ghost var f := StepOf(valid);
    RunIsAppliedTo(items, valid);
    var out: seq<Item> := [];
    var success: nat := 0;
    for i := 0 to |items|
      invariant Run(items[..i], f) == Some(Applied(out, success))
    {
      var item := items[i];
      var update := UpdateFor(valid, item.id);
      if update.None? {
        StepPasses(item, valid);
        RunExtend(items, f, i, out, success, (item, false));
        out := out + [item];
        continue;
      }
      var prefix := WriterPrefix(item.metadata);
      if prefix.None? {
        StepPasses(item, valid);
        RunExtend(items, f, i, out, success, (item, false));
        out := out + [item];
        continue;
      }
      var meta := Mutate(item.metadata, prefix.value, update.value.newHp, update.value.newTempHp);
      StepOfMutates(item, valid, update.value, prefix.value);
      if meta.None? {
        RunAbort(items, f, i);
        return None;
      }
      RunExtend(items, f, i, out, success, (item.(metadata := meta.value), true));
      out := out + [item.(metadata := meta.value)];
      success := success + 1;
    }
    assert items[..|items|] == items;
    r := Some(Applied(out, success));
  }

  /** An item without a valid update or without data passes through the step uncounted. */
  lemma StepPasses(item: Item, valid: seq<HpUpdate>)
    requires UpdateFor(valid, item.id).None? || WriterPrefix(item.metadata).None?
    ensures StepOf(valid)(item) == Some((item, false))
  {
  }

  /** `StepMutates` for the step as a function value. */
  lemma StepOfMutates(item: Item, valid: seq<HpUpdate>, u: HpUpdate, p: string)
    requires UpdateFor(valid, item.id) == Some(u) && WriterPrefix(item.metadata) == Some(p)
    ensures StepOf(valid)(item) ==
      match Mutate(item.metadata, p, u.newHp, u.newTempHp)
      case None => None
      case Some(m) => Some((item.(metadata := m), true))
  {
    StepMutates(item, valid, u, p);
  }

  /** A run extended by a step that did not throw. */
  lemma RunExtend(items: seq<Item>, f: Item -> Option<(Item, bool)>, i: nat, out: seq<Item>, success: nat, x: (Item, bool))
    requires i < |items| && Run(items[..i], f) == Some(Applied(out, success)) && f(items[i]) == Some(x)
    ensures Run(items[..i + 1], f) == Some(Applied(out + [x.0], success + if x.1 then 1 else 0))
  {
    assert items[..i + 1][..i] == items[..i];
  }

  /** A step that throws makes the whole run throw. */
  lemma RunAbort(items: seq<Item>, f: Item -> Option<(Item, bool)>, i: nat)
    requires i < |items| && f(items[i]).None?
    ensures Run(items, f).None?
  {
    assert items[..i + 1][..i] == items[..i];
    RunAbortPersists(items, f, i + 1);
  }

  /** Once a run has thrown, every longer prefix has thrown too. */
  lemma {:induction false} RunAbortPersists(items: seq<Item>, f: Item -> Option<(Item, bool)>, i: nat)
    requires 0 < i <= |items| && (Run(items[..i], f).None? || f(items[i - 1]).None?)
    ensures Run(items, f).None?
    decreases |items| - i
  {
    assert items[..i][..i - 1] == items[..i - 1];
    if i < |items| {
      assert items[..i + 1][..i] == items[..i];
      RunAbortPersists(items, f, i + 1);
    } else {
      assert items[..i] == items;
    }
  }

  // ---------------------------------------------------------------------------
  // The batch

  /**
   * `updateMultipleTokensHp` as a whole: a failed fetch or store call, or a throw in
   * the callback, leaves the scene alone and reports every update as failed.
   */
  function Batch(items: seq<Item>, updates: seq<HpUpdate>, readFault: Option<string>, writeFault: Option<string>): (r: (BatchResult, seq<Item>))
    ensures r.0.failed <= |updates| && |r.1| == |items|
    ensures r.1 != items ==> readFault.None? && writeFault.None? && r.0.failed == |updates| - |Validated(items, updates).valid|
  {
    if readFault.Some? then (BatchResult(0, |updates|, [readFault.value]), items)
    else
      var v := Validated(items, updates);
      if |v.valid| == 0 then (BatchResult(0, v.failed, v.errors), items)
      else if writeFault.Some? then (BatchResult(0, |updates|, [writeFault.value]), items)
      else
        match AppliedTo(items, v.valid)
        case None => (BatchResult(0, |updates|, [InNullError]), items)
        case Some(a) => (BatchResult(a.success, v.failed, v.errors), a.items)
  }

  /** `updateMultipleTokensHp`. */
  method UpdateMultipleTokensHp(scene: Scene, updates: seq<HpUpdate>, readFault: Option<string>, writeFault: Option<string>)
    returns (res: BatchResult)
    requires scene.Valid()
    modifies scene
    ensures (res, scene.items) == Batch(old(scene.items), updates, readFault, writeFault)
  {
    if readFault.Some? {
      return BatchResult(0, |updates|, [readFault.value]);
    }
    var valid, errors, failed := ValidateUpdates(scene.items, updates);
    if |valid| == 0 {
      return BatchResult(0, failed, errors);
    }
    if writeFault.Some? {
      return BatchResult(0, |updates|, [writeFault.value]);
    }
    var applied := ApplyUpdates(scene.items, valid);
    if applied.None? {
      return BatchResult(0, |updates|, [InNullError]);
    }
    scene.items := applied.value.items;
    res := BatchResult(applied.value.success, failed, errors);
  }

  /**
   * `updateTokenHp` of the generic writer: the same mutator on the one item. It reports
   * success exactly when the token is found, the writer's key test passes, no host call
   * fails and the mutator does not throw; success leaves the callback's rewrite of the
   * scene, failure leaves the scene unchanged.
   */
  function SingleWrite(items: seq<Item>, u: HpUpdate, readFault: bool, writeFault: bool): (r: (bool, seq<Item>))
    ensures !r.0 ==> r.1 == items
    ensures r.0 <==>
      && !readFault && !writeFault
      && FindItem(items, u.tokenId).Some?
      && WriterPrefix(FindItem(items, u.tokenId).value.metadata).Some?
      && AppliedTo(items, [u]).Some?
    ensures r.0 ==> r.1 == AppliedTo(items, [u]).value.items
  {
    if readFault then (false, items)
    else
      match FindItem(items, u.tokenId)
      case None => (false, items)
      case Some(item) =>
        if WriterPrefix(item.metadata).None? || writeFault then (false, items)
        else
          match AppliedTo(items, [u])
          case None => (false, items)
          case Some(a) => (true, a.items)
  }

  /** `updateTokenHp` (generic writer). */
  method UpdateTokenHp(scene: Scene, tokenId: string, newHp: int, newTempHp: Option<int>, readFault: bool, writeFault: bool)
    returns (ok: bool)
    requires scene.Valid()
    modifies scene
    ensures (ok, scene.items) == SingleWrite(old(scene.items), HpUpdate(tokenId, newHp, newTempHp), readFault, writeFault)
  {
    if readFault {
      return false;
    }
    var token := FindItem(scene.items, tokenId);
    if token.None? {
      return false;
    }
    var prefix := WriterPrefix(token.value.metadata);
    if prefix.None? || writeFault {
      return false;
    }
    var applied := ApplyUpdates(scene.items, [HpUpdate(tokenId, newHp, newTempHp)]);
    if applied.None? {
      return false;
    }
    scene.items := applied.value.items;
    ok := true;
  }

  /**
   * The single-token round trip: with unique ids, when detection and parsing agree on
   * the token's convention (a flat prefix having no object at its bare key) and the key
   * is not empty, the write succeeds, changes only the token's metadata, and the parser
   * reads back max(0, hp) by the same convention.
   */
  lemma SingleWriteReadsBack(items: seq<Item>, u: HpUpdate, i: int, c: Convention)
    requires DistinctIds(items) && 0 <= i < |items| && items[i].id == u.tokenId
    requires DistinctKeys(items[i].metadata)
    requires DetectConvention(items[i].metadata) == Some(c) && ParsedConvention(items[i].metadata) == Some(c)
    requires c.Flat? ==> !NestedBranch(items[i].metadata, c.prefix)
    requires ConventionName(c) != ""
    ensures var r := SingleWrite(items, u, false, false);
      && r.0
      && |r.1| == |items|
      && (forall j :: 0 <= j < |items| && j != i ==> r.1[j] == items[j])
      && r.1[i].(metadata := items[i].metadata) == items[i]
      && ParsedConvention(r.1[i].metadata) == Some(c)
      && ParseGrimoireData(r.1[i].metadata).Some?
      && ParseGrimoireData(r.1[i].metadata).value.hp == Max(0, u.newHp)
  {
    var meta := items[i].metadata;
    FindItemAt(items, i);
    assert WriterPrefix(meta) == Some(ConventionName(c));
    MutateRoundTrip(meta, c, u.newHp, u.newTempHp);
    OneUpdateApplies(items, u, i, ConventionName(c));
  }

  /**
   * With unique ids, one update whose mutator succeeds on its token rewrites that
   * token's metadata and passes every other item through.
   */
  lemma OneUpdateApplies(items: seq<Item>, u: HpUpdate, i: int, p: string)
    requires DistinctIds(items) && 0 <= i < |items| && items[i].id == u.tokenId
    requires WriterPrefix(items[i].metadata) == Some(p)
    requires Mutate(items[i].metadata, p, u.newHp, u.newTempHp).Some?
    ensures AppliedTo(items, [u]).Some?
    ensures var a := AppliedTo(items, [u]).value.items;
      && |a| == |items|
      && a[i] == items[i].(metadata := Mutate(items[i].metadata, p, u.newHp, u.newTempHp).value)
      && forall j :: 0 <= j < |items| && j != i ==> a[j] == items[j]
  {
    var f := StepOf([u]);
    forall j | 0 <= j < |items| ensures f(items[j]).Some? {
      if j == i {
        StepOfMutates(items[i], [u], u, p);
      } else {
        assert items[j].id != items[i].id;
        StepPasses(items[j], [u]);
      }
    }
    RunTotal(items, f);
    RunIsAppliedTo(items, [u]);
    AppliedPointwise(items, [u]);
    StepMutates(items[i], [u], u, p);
    forall j | 0 <= j < |items| && j != i ensures Step(items[j], [u]) == Some((items[j], false)) {
      assert items[j].id != items[i].id;
    }
  }

  /** A run in which no step throws does not throw. */
  lemma {:induction false} RunTotal(items: seq<Item>, f: Item -> Option<(Item, bool)>)
    requires forall j :: 0 <= j < |items| ==> f(items[j]).Some?
    ensures Run(items, f).Some?
    decreases |items|
  {
    if items != [] {
      var n := |items| - 1;
      forall j | 0 <= j < n ensures f(items[..n][j]).Some? {
        assert items[..n][j] == items[j];
      }
      RunTotal(items[..n], f);
    }
  }

  /**
   * The callback, when it does not throw, keeps the item list's length and order and
   * rewrites each item exactly as one step of the callback says: an item it does not
   * count is left as it was, a counted one changes only in its metadata.
   */
  lemma AppliedPointwise(items: seq<Item>, valid: seq<HpUpdate>)
    requires AppliedTo(items, valid).Some?
    ensures var a := AppliedTo(items, valid).value;
      && |a.items| == |items|
      && forall i :: 0 <= i < |items| ==> Step(items[i], valid).Some? && Step(items[i], valid).value.0 == a.items[i]
  {
    var f := StepOf(valid);
    RunIsAppliedTo(items, valid);
    RunLength(items, f);
    forall i | 0 <= i < |items| ensures Step(items[i], valid).Some? && Step(items[i], valid).value.0 == AppliedTo(items, valid).value.items[i] {
      RunAt(items, f, i);
      assert f(items[i]) == Step(items[i], valid);
    }
  }

  /** The callback's step for the given updates, as a function value. */
  function StepOf(valid: seq<HpUpdate>): Item -> Option<(Item, bool)> {
    item => Step(item, valid)
  }

  /** The mutator loop with an arbitrary step: the shape of `AppliedTo`, whatever the step does. */
  function Run(items: seq<Item>, f: Item -> Option<(Item, bool)>): Option<Applied>
    decreases |items|
  {
    if items == [] then Some(Applied([], 0))
    else Extend(Run(items[..|items| - 1], f), f(items[|items| - 1]))
  }

  lemma {:induction false} RunIsAppliedTo(items: seq<Item>, valid: seq<HpUpdate>)
    ensures Run(items, StepOf(valid)) == AppliedTo(items, valid)
    decreases |items|
  {
    if items != [] {
      var n := |items| - 1;
      RunIsAppliedTo(items[..n], valid);
      assert StepOf(valid)(items[n]) == Step(items[n], valid);
    }
  }

  /** A run that did not throw keeps the number of items. */
  lemma {:induction false} RunLength(items: seq<Item>, f: Item -> Option<(Item, bool)>)
    requires Run(items, f).Some?
    ensures |Run(items, f).value.items| == |items|
    decreases |items|
  {
    if items != [] {
      RunLength(items[..|items| - 1], f);
    }
  }

  /** Item i of a run that did not throw is the step's rewrite of item i. */
  lemma {:induction false} RunAt(items: seq<Item>, f: Item -> Option<(Item, bool)>, i: int)
    requires Run(items, f).Some? && 0 <= i < |items|
    ensures f(items[i]).Some? && i < |Run(items, f).value.items| && f(items[i]).value.0 == Run(items, f).value.items[i]
    decreases |items|
  {
    var n := |items| - 1;
    var init := items[..n];
    RunLength(init, f);
    if i < n {
      RunAt(init, f, i);
      assert items[i] == init[i];
    }
  }

  /** The ids of the items the callback counts. */
  function CountedIds(items: seq<Item>, valid: seq<HpUpdate>): set<string>
    decreases |items|
  {
    if items == [] then {}
    else
      var last := items[|items| - 1];
      CountedIds(items[..|items| - 1], valid) + if Counted(last, valid) then {last.id} else {}
  }

  lemma {:induction false} CountedIdsAreValidIds(items: seq<Item>, valid: seq<HpUpdate>)
    ensures forall id :: id in CountedIds(items, valid) ==> (exists j :: 0 <= j < |items| && items[j].id == id) && UpdateFor(valid, id).Some?
    decreases |items|
  {
    if items != [] {
      var n := |items| - 1;
      CountedIdsAreValidIds(items[..n], valid);
      forall id | id in CountedIds(items, valid)
        ensures (exists j :: 0 <= j < |items| && items[j].id == id) && UpdateFor(valid, id).Some?
      {
        if id in CountedIds(items[..n], valid) {
          var j :| 0 <= j < n && items[..n][j].id == id;
          assert items[j].id == id;
        } else {
          assert items[n].id == id;
        }
      }
    }
  }

  /** With unique item ids, the success count is the number of distinct ids counted. */
  lemma {:induction false} SuccessCountsIds(items: seq<Item>, valid: seq<HpUpdate>)
    requires DistinctIds(items) && AppliedTo(items, valid).Some?
    ensures AppliedTo(items, valid).value.success == |CountedIds(items, valid)|
    decreases |items|
  {
    if items != [] {
      var n := |items| - 1;
      AppliedSuccessLast(items, valid);
      DistinctIdsPrefix(items, n);
      SuccessCountsIds(items[..n], valid);
      LastIdNotCounted(items, valid);
    }
  }

  /** The last item adds one success exactly when the callback counts it. */
  lemma AppliedSuccessLast(items: seq<Item>, valid: seq<HpUpdate>)
    requires items != [] && AppliedTo(items, valid).Some?
    ensures var n := |items| - 1;
      && AppliedTo(items[..n], valid).Some?
      && AppliedTo(items, valid).value.success == AppliedTo(items[..n], valid).value.success + if Counted(items[n], valid) then 1 else 0
  {
    var n := |items| - 1;
    RunIsAppliedTo(items, valid);
    RunIsAppliedTo(items[..n], valid);
    assert StepOf(valid)(items[n]) == Step(items[n], valid);
  }

  /** A prefix of a list with distinct ids has distinct ids. */
  lemma DistinctIdsPrefix(items: seq<Item>, n: nat)
    requires DistinctIds(items) && n <= |items|
    ensures DistinctIds(items[..n])
  {
    var init := items[..n];
    forall i, j | 0 <= i < j < |init| ensures init[i].id != init[j].id {
      assert init[i] == items[i] && init[j] == items[j];
    }
  }

  /** With distinct ids, the last item's id is not among those counted before it. */
  lemma LastIdNotCounted(items: seq<Item>, valid: seq<HpUpdate>)
    requires DistinctIds(items) && items != []
    ensures items[|items| - 1].id !in CountedIds(items[..|items| - 1], valid)
  {
    var n := |items| - 1;
    var init := items[..n];
    CountedIdsAreValidIds(init, valid);
    assert forall j :: 0 <= j < |init| ==> init[j].id != items[n].id;
  }

  /** The distinct token ids of a list of updates are no more than the updates. */
  lemma {:induction false} TokenIdsBound(valid: seq<HpUpdate>)
    ensures |set i | 0 <= i < |valid| :: valid[i].tokenId| <= |valid|
  {
    if valid != [] {
      var n := |valid| - 1;
      TokenIdsBound(valid[..n]);
      var all := set i | 0 <= i < |valid| :: valid[i].tokenId;
      var init := set i | 0 <= i < n :: valid[..n][i].tokenId;
      assert all == init + {valid[n].tokenId} by {
        forall id | id in all ensures id in init + {valid[n].tokenId} {
          var i :| 0 <= i < |valid| && valid[i].tokenId == id;
          if i < n { assert valid[..n][i] == valid[i]; }
        }
        forall id | id in init ensures id in all {
          var i :| 0 <= i < n && valid[..n][i].tokenId == id;
          assert valid[i] == valid[..n][i];
        }
      }
    }
  }

  /** The callback counts each item at most once and only for ids with a valid update. */
  lemma SuccessBound(items: seq<Item>, valid: seq<HpUpdate>)
    requires DistinctIds(items) && AppliedTo(items, valid).Some?
    ensures AppliedTo(items, valid).value.success <= |valid|
  {
    SuccessCountsIds(items, valid);
    CountedIdsAreValidIds(items, valid);
    TokenIdsBound(valid);
    var ids := set i | 0 <= i < |valid| :: valid[i].tokenId;
    var counted := CountedIds(items, valid);
    assert counted <= ids by {
      forall id | id in counted ensures id in ids {
        var u := UpdateFor(valid, id).value;
        var i :| 0 <= i < |valid| && valid[i] == u;
      }
    }
    assert ids == counted + (ids - counted);
  }

  /**
   * The counts of `updateMultipleTokensHp`: at most one success per valid update and
   * one failure per rejected one; when the fetch, the store call or the callback
   * fails, no success, every update failed, and the scene untouched.
   */
  lemma BatchCounts(items: seq<Item>, updates: seq<HpUpdate>, readFault: Option<string>, writeFault: Option<string>)
    requires DistinctIds(items)
    ensures var (res, after) := Batch(items, updates, readFault, writeFault);
      var accepted := Accepted(items, updates);
      && res.success <= |accepted|
      && res.success + res.failed <= |updates|
      && (res.failed == |updates| - |accepted| || (res.failed == |updates| && res.success == 0 && after == items))
      && (|accepted| == 0 ==> after == items && res.success == 0)
      && (readFault.Some? ==> res == BatchResult(0, |updates|, [readFault.value]) && after == items)
      && (readFault.None? && |accepted| > 0 && writeFault.Some? ==> res == BatchResult(0, |updates|, [writeFault.value]) && after == items)
      && (readFault.None? && res.failed == |updates| - |accepted| ==> res.errors == Rejections(items, updates))
  {
    ValidationPartitions(items, updates);
    var v := Validated(items, updates);
    if readFault.None? && |v.valid| > 0 && writeFault.None? && AppliedTo(items, v.valid).Some? {
      SuccessBound(items, v.valid);
    }
  }

  /**
   * Nothing but the targets' metadata changes: after the batch the scene has the same
   * items in the same order, an item is rewritten only when it has an accepted update
   * and data, and then only in its metadata, by the mutator applied to the first
   * accepted update for its id.
   */
  lemma BatchFrame(items: seq<Item>, updates: seq<HpUpdate>, readFault: Option<string>, writeFault: Option<string>)
    ensures var after := Batch(items, updates, readFault, writeFault).1;
      var accepted := Accepted(items, updates);
      && |after| == |items|
      && forall i :: 0 <= i < |items| ==>
        && after[i].(metadata := items[i].metadata) == items[i]
        && (!Counted(items[i], accepted) ==> after[i] == items[i])
        && (readFault.None? && writeFault.None? && AppliedTo(items, accepted).Some? && Counted(items[i], accepted) ==>
              var u := UpdateFor(accepted, items[i].id).value;
              Some(after[i].metadata) == Mutate(items[i].metadata, WriterPrefix(items[i].metadata).value, u.newHp, u.newTempHp))
  {
    ValidationPartitions(items, updates);
    var v := Validated(items, updates);
    if readFault.None? && |v.valid| > 0 && writeFault.None? && AppliedTo(items, v.valid).Some? {
      AppliedPointwise(items, v.valid);
    }
  }

  // ---------------------------------------------------------------------------
  // Reading back after a write

  /** Detection's prefix loop depends only on which prefixes have an hp synonym present. */
  lemma {:induction false} DetectFlatSamePresence(a: Bag, b: Bag, prefixes: seq<string>)
    requires forall i :: 0 <= i < |prefixes| ==> (AnyPresent(a, prefixes[i], HpKeys) <==> AnyPresent(b, prefixes[i], HpKeys))
    ensures DetectFlat(a, prefixes) == DetectFlat(b, prefixes)
  {
    if prefixes != [] {
      assert forall i :: 0 <= i < |prefixes[1..]| ==> prefixes[1..][i] == prefixes[i + 1];
      DetectFlatSamePresence(a, b, prefixes[1..]);
    }
  }

  /** The two bags have the same flat hp keys present, over every known prefix. */
  ghost predicate SameHpPresence(a: Bag, b: Bag) {
    forall i, j :: 0 <= i < |Prefixes| && 0 <= j < |HpKeys| ==>
      (Has(a, FullKey(Prefixes[i], HpKeys[j])) <==> Has(b, FullKey(Prefixes[i], HpKeys[j])))
  }

  /** Bags with the same keys have the same flat hp keys present. */
  lemma SameKeysSamePresence(a: Bag, b: Bag)
    requires Keys(a) == Keys(b)
    ensures SameHpPresence(a, b)
  {
  }

  /** Bags with the same flat hp keys present choose the same flat prefix, if any. */
  lemma FlatChoiceSamePresence(a: Bag, b: Bag)
    requires SameHpPresence(a, b)
    ensures FlatScan(a, Prefixes).None? <==> FlatScan(b, Prefixes).None?
    ensures FlatScan(a, Prefixes).Some? ==> FlatScan(a, Prefixes).value.0 == FlatScan(b, Prefixes).value.0
  {
    forall i | 0 <= i < |Prefixes| ensures AnyPresent(a, Prefixes[i], HpKeys) <==> AnyPresent(b, Prefixes[i], HpKeys) {
      FirstPresentKeySamePresence(a, b, Prefixes[i], HpKeys);
    }
    DetectFlatSamePresence(a, b, Prefixes);
    FlatScansAgree(a, Prefixes);
    FlatScansAgree(b, Prefixes);
  }

  /** After a tracker record with an `hp` key is stored, the tracker strategy reads it. */
  lemma ReadAfterTrackerWrite(meta: Bag, w: Json)
    requires w.Obj? && Has(w.fields, "hp")
    ensures var m := Set(meta, TrackerKey, w);
      && ParsedConvention(m) == Some(Tracker)
      && ParseGrimoireData(m).Some?
      && ParseGrimoireData(m).value.hp == ToNumber(Prop(w, "hp").value)
  {
  }

  /**
   * After a flat write that keeps the tracker strategy off and the flat hp keys
   * present where they were, the same prefix is read, and its hp comes from the key
   * the write targeted.
   */
  lemma ReadAfterFlatWrite(meta: Bag, m: Bag, p: string, x: int)
    requires !TrackerHolds(m) && SameHpPresence(meta, m)
    requires FlatScan(meta, Prefixes).Some? && FlatScan(meta, Prefixes).value.0 == p
    requires FirstPresentKey(meta, p, HpKeys).Some? && Lookup(m, FirstPresentKey(meta, p, HpKeys).value) == Some(Num(x))
    ensures ParsedConvention(m) == Some(Flat(p))
    ensures ParseGrimoireData(m) == ParseFlat(m, p)
    ensures ParseFlat(m, p).Some? && ParseFlat(m, p).value.hp == x
  {
    SamePrefixKey(meta, m, p);
    FindValueReadsFirstPresentKey(m, p, HpKeys);
    assert FindValue(m, p, HpKeys) == Some(Num(x));
    LocatedFlat(m, p);
    FlatHpRead(m, p, x);
  }

  /** Bags with the same hp keys present scan to the same prefix and pick the same hp key under it. */
  lemma SamePrefixKey(meta: Bag, m: Bag, p: string)
    requires SameHpPresence(meta, m)
    requires FlatScan(meta, Prefixes).Some? && FlatScan(meta, Prefixes).value.0 == p
    ensures FlatScan(m, Prefixes).Some? && FlatScan(m, Prefixes).value.0 == p
    ensures FirstPresentKey(m, p, HpKeys) == FirstPresentKey(meta, p, HpKeys)
  {
    FlatChoiceSamePresence(meta, m);
    var i :| FirstHpPrefixAt(meta, Prefixes, i) && FlatScan(meta, Prefixes).value == (Prefixes[i], ParseFlat(meta, Prefixes[i]).value);
    forall h | 0 <= h < |HpKeys| ensures Has(meta, FullKey(p, HpKeys[h])) <==> Has(m, FullKey(p, HpKeys[h])) {
      assert FullKey(p, HpKeys[h]) == FullKey(Prefixes[i], HpKeys[h]);
    }
    FirstPresentKeySamePresence(meta, m, p, HpKeys);
  }

  /** The flat parse's hp is the number under the first present hp synonym. */
  lemma FlatHpRead(m: Bag, p: string, x: int)
    requires FindValue(m, p, HpKeys) == Some(Num(x))
    ensures ParseFlat(m, p).Some? && ParseFlat(m, p).value.hp == x
  {
  }

  /** When the tracker strategy is off and the prefix loop stops at p, p is what is read. */
  lemma LocatedFlat(m: Bag, p: string)
    requires !TrackerHolds(m) && FlatScan(m, Prefixes).Some? && FlatScan(m, Prefixes).value.0 == p
    ensures ParsedConvention(m) == Some(Flat(p)) && ParseGrimoireData(m) == ParseFlat(m, p)
  {
    var j :| FirstHpPrefixAt(m, Prefixes, j) && FlatScan(m, Prefixes).value == (Prefixes[j], ParseFlat(m, Prefixes[j]).value);
  }

  /**
   * After the nested record chosen by the scan is replaced by another acceptable
   * record, with the tracker strategy still off, the scan reads the new record.
   */
  lemma ReadAfterNestedWrite(meta: Bag, i: int, w: Json)
    requires FirstNestedAt(meta, i) && FlatScan(meta, Prefixes).None?
    requires NestedCandidate(w) && !TrackerHolds(meta[i := (meta[i].0, w)])
    ensures var m := meta[i := (meta[i].0, w)];
      && ParsedConvention(m) == Some(Nested(meta[i].0))
      && ParseGrimoireData(m) == Some(ReadNested(w))
  {
    var m := meta[i := (meta[i].0, w)];
    assert Keys(m) == Keys(meta);
    SameKeysSamePresence(meta, m);
    FlatChoiceSamePresence(meta, m);
    assert FirstNestedAt(m, i) by {
      forall j | 0 <= j < i ensures !NestedCandidate(m[j].1) {
        assert m[j] == meta[j];
      }
    }
    var j :| FirstNestedAt(m, j) && NestedScan(m).value == (m[j].0, ReadNested(m[j].1));
    FirstNestedUnique(m, i, j);
  }

  /**
   * The as-written mutator round-trips where detection and parsing agree on the
   * convention (and, for a flat prefix, no record is stored under the bare prefix):
   * it does not throw, and re-parsing reads the same convention with hp = max(0, newHp).
   */
  lemma MutateRoundTrip(meta: Bag, c: Convention, newHp: int, newTemp: Option<int>)
    requires DistinctKeys(meta)
    requires DetectConvention(meta) == Some(c) && ParsedConvention(meta) == Some(c)
    requires c.Flat? ==> !NestedBranch(meta, c.prefix)
    ensures var r := Mutate(meta, ConventionName(c), newHp, newTemp);
      && r.Some?
      && ParsedConvention(r.value) == Some(c)
      && ParseGrimoireData(r.value).Some?
      && ParseGrimoireData(r.value).value.hp == Max(0, newHp)
  {
    match c
    case Tracker =>
      MutateRoundTripTracker(meta, newHp, newTemp);
    case Flat(p) =>
      MutateRoundTripFlat(meta, p, newHp, newTemp);
    case Nested(k) =>
      MutateRoundTripNested(meta, k, newHp, newTemp);
  }

  lemma MutateRoundTripTracker(meta: Bag, newHp: int, newTemp: Option<int>)
    requires ParsedConvention(meta) == Some(Tracker)
    ensures var r := Mutate(meta, TrackerKey, newHp, newTemp);
      && r.Some?
      && ParsedConvention(r.value) == Some(Tracker)
      && ParseGrimoireData(r.value).Some?
      && ParseGrimoireData(r.value).value.hp == Max(0, newHp)
  {
    assert TrackerHolds(meta);
    var v := Lookup(meta, TrackerKey).value;
    var w := MutateNested(v, newHp, newTemp);
    MutateNestedBranch(meta, TrackerKey, newHp, newTemp);
    TrackerWriteReads(v, newHp, newTemp);
    ReadAfterTrackerWrite(meta, w);
  }

  /** In the nested branch on a non-null value, the mutator stores the rewritten record. */
  lemma MutateNestedBranch(meta: Bag, prefix: string, newHp: int, newTemp: Option<int>)
    requires NestedBranch(meta, prefix) && Lookup(meta, prefix).value != Null
    ensures Mutate(meta, prefix, newHp, newTemp) == Some(Set(meta, prefix, MutateNested(Lookup(meta, prefix).value, newHp, newTemp)))
  {
  }

  /** A tracker record keeps its `hp` key through the write, and it holds the new hp. */
  lemma TrackerWriteReads(v: Json, newHp: int, newTemp: Option<int>)
    requires v.Obj? && Has(v.fields, "hp")
    ensures var w := MutateNested(v, newHp, newTemp);
      w.Obj? && Has(w.fields, "hp") && ToNumber(Prop(w, "hp").value) == Max(0, newHp)
  {
    var w := MutateNested(v, newHp, newTemp);
    assert HasProp(v, "hp");
    assert HasProp(w, "hp");
  }

  /** The flat write adds no hp key under any known prefix. */
  lemma FlatWriteKeepsHpPresence(meta: Bag, p: string, newHp: int, newTemp: Option<int>)
    requires p in Prefixes
    ensures SameHpPresence(meta, FlatWrite(meta, p, newHp, newTemp))
  {
    PrefixesSlashFree();
    forall i, j | 0 <= i < |Prefixes| && 0 <= j < |HpKeys|
      ensures Has(meta, FullKey(Prefixes[i], HpKeys[j])) <==> Has(FlatWrite(meta, p, newHp, newTemp), FullKey(Prefixes[i], HpKeys[j]))
    {
      FlatWriteKeepsHpKey(meta, p, newHp, newTemp, Prefixes[i], HpKeys[j]);
    }
  }

  /** The flat write's temp target is no hp key under a slash-free prefix. */
  lemma FlatWriteKeepsHpKey(meta: Bag, p: string, newHp: int, newTemp: Option<int>, q: string, h: string)
    requires '/' !in p && '/' !in q && h in HpKeys
    ensures Has(meta, FullKey(q, h)) <==> Has(FlatWrite(meta, p, newHp, newTemp), FullKey(q, h))
  {
    var tk := TempTarget(meta, p);
    var t :| t in TempHpKeys && tk == FullKey(p, t);
    if FullKey(q, h) == tk {
      FullKeyInjective(q, h, p, t);
      assert false;
    }
  }

  /** After a flat write the tracker key holds no tracker record unless it did before. */
  lemma FlatWriteKeepsTrackerOff(meta: Bag, p: string, newHp: int, newTemp: Option<int>)
    requires !TrackerHolds(meta)
    ensures !TrackerHolds(FlatWrite(meta, p, newHp, newTemp))
  {
  }

  lemma MutateRoundTripFlat(meta: Bag, p: string, newHp: int, newTemp: Option<int>)
    requires ParsedConvention(meta) == Some(Flat(p)) && !NestedBranch(meta, p)
    ensures var r := Mutate(meta, p, newHp, newTemp);
      && r.Some?
      && ParsedConvention(r.value) == Some(Flat(p))
      && ParseGrimoireData(r.value).Some?
      && ParseGrimoireData(r.value).value.hp == Max(0, newHp)
  {
    MutateBranches(meta, p, newHp, newTemp);
    ParsedFlatFacts(meta, p);
    FlatWriteRoundTrip(meta, p, newHp, newTemp);
  }

  /** What a flat parse tells about the bag it read. */
  lemma ParsedFlatFacts(meta: Bag, p: string)
    requires ParsedConvention(meta) == Some(Flat(p))
    ensures p in Prefixes && !TrackerHolds(meta)
    ensures FlatScan(meta, Prefixes).Some? && FlatScan(meta, Prefixes).value.0 == p
    ensures FirstPresentKey(meta, p, HpKeys).Some?
  {
    var i :| FirstHpPrefixAt(meta, Prefixes, i) && FlatScan(meta, Prefixes).value == (Prefixes[i], ParseFlat(meta, Prefixes[i]).value);
  }

  /** The flat write of a bag read by a flat prefix is read back by that prefix with the new hp. */
  lemma FlatWriteRoundTrip(meta: Bag, p: string, newHp: int, newTemp: Option<int>)
    requires p in Prefixes && !TrackerHolds(meta)
    requires FlatScan(meta, Prefixes).Some? && FlatScan(meta, Prefixes).value.0 == p
    requires FirstPresentKey(meta, p, HpKeys).Some?
    ensures var m := FlatWrite(meta, p, newHp, newTemp);
      && ParsedConvention(m) == Some(Flat(p))
      && ParseGrimoireData(m).Some?
      && ParseGrimoireData(m).value.hp == Max(0, newHp)
  {
    var m := FlatWrite(meta, p, newHp, newTemp);
    FlatWriteKeepsHpPresence(meta, p, newHp, newTemp);
    FlatWriteKeepsTrackerOff(meta, p, newHp, newTemp);
    ReadAfterFlatWrite(meta, m, p, Max(0, newHp));
  }

  lemma MutateRoundTripNested(meta: Bag, k: string, newHp: int, newTemp: Option<int>)
    requires DistinctKeys(meta)
    requires DetectConvention(meta) == Some(Nested(k)) && ParsedConvention(meta) == Some(Nested(k))
    ensures var r := Mutate(meta, k, newHp, newTemp);
      && r.Some?
      && ParsedConvention(r.value) == Some(Nested(k))
      && ParseGrimoireData(r.value).Some?
      && ParseGrimoireData(r.value).value.hp == Max(0, newHp)
  {
    var i := DetectedNestedEntry(meta, k);
    var v := meta[i].1;
    var w := MutateNested(v, newHp, newTemp);
    NestedMutateStores(meta, i, newHp, newTemp);
    NestedWriteReads(v, newHp, newTemp);
    ReadAfterNestedWrite(meta, i, w);
  }

  /** When detection and the parser both pick the nested record under k, they agree on its entry. */
  lemma DetectedNestedEntry(meta: Bag, k: string) returns (i: int)
    requires DistinctKeys(meta)
    requires DetectConvention(meta) == Some(Nested(k)) && ParsedConvention(meta) == Some(Nested(k))
    ensures FirstNestedAt(meta, i) && meta[i].0 == k && DetectCandidate(meta[i].1) && meta[i].1.Obj?
    ensures FlatScan(meta, Prefixes).None? && !Has(meta, TrackerKey)
  {
    i :| FirstNestedAt(meta, i) && NestedScan(meta).value == (meta[i].0, ReadNested(meta[i].1));
    var d :| && 0 <= d < |meta| && DetectCandidate(meta[d].1)
             && (forall j :: 0 <= j < d ==> !DetectCandidate(meta[j].1))
             && DetectNested(meta).value == meta[d].0;
    assert d == i;
  }

  /** The nested branch of the mutator stores the rewritten record in place. */
  lemma NestedMutateStores(meta: Bag, i: int, newHp: int, newTemp: Option<int>)
    requires DistinctKeys(meta) && 0 <= i < |meta| && meta[i].1.Obj?
    ensures var m := meta[i := (meta[i].0, MutateNested(meta[i].1, newHp, newTemp))];
      && Mutate(meta, meta[i].0, newHp, newTemp) == Some(m)
      && Keys(m) == Keys(meta)
  {
    var k := meta[i].0;
    LookupAt(meta, i);
    MutateBranches(meta, k, newHp, newTemp);
    var w := MutateNested(meta[i].1, newHp, newTemp);
    SetAt(meta, i, w);
    assert Keys(meta[i := (k, w)]) == Keys(meta);
  }

  /** A record that detection accepts is still accepted after the write, and reads the new hp. */
  lemma NestedWriteReads(v: Json, newHp: int, newTemp: Option<int>)
    requires v.Obj? && DetectCandidate(v)
    ensures NestedCandidate(MutateNested(v, newHp, newTemp))
    ensures ReadNested(MutateNested(v, newHp, newTemp)).hp == Max(0, newHp)
  {
    var w := MutateNested(v, newHp, newTemp);
    var x := Num(Max(0, newHp));
    if HasProp(v, "hp") {
      HpChainReads(w, x, Prop(w, "hp"), Prop(w, "currentHp"));
    } else {
      assert Prop(v, "hp") == None;
      HpChainReads(w, x, Prop(w, "hp"), Prop(w, "currentHp"));
    }
  }

  /** A record whose `hp`, or else `currentHp`, holds a number is a nested candidate reading that number. */
  lemma HpChainReads(w: Json, x: Json, hp: Option<Json>, currentHp: Option<Json>)
    requires w.Obj? && x.Num? && hp == Prop(w, "hp") && currentHp == Prop(w, "currentHp")
    requires hp == Some(x) || (hp == None && currentHp == Some(x))
    ensures NestedCandidate(w) && ReadNested(w).hp == x.n
  {
    assert NestedHp(w) == Some(x);
  }
}
