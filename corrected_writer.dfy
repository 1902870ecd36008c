/**
 * A writer that stores the new hp where the parser reads it.
 *
 * The generic writer re-detects the convention with `detectGrimoirePrefix`, whose
 * rules differ from `parseGrimoireData`'s: detection accepts a tracker key that is
 * merely present, and its nested stage tests `'hp' in obj || 'currentHp' in obj`
 * where parsing tests `obj.hp ?? obj.currentHp ?? obj['current-hp']`; and the
 * generic mutator treats any prefix whose bare value is an object as nested. This
 * module exhibits the bags on which a write is then lost, misplaced or throws, and
 * gives the evidently intended writer, which dispatches on the convention the
 * parser used, with its round trip proved for every parseable bag.
 */
module CorrectedWriter {
  import opened Wrappers
  import opened Json
  import opened Types
  import opened GrimoireParser
  import opened SceneItems
  import opened GrimoireWriter

  // ---------------------------------------------------------------------------
  // The generic writer as written, on concrete bags

  /** `{"a": {"current-hp": 4}, "b": {"hp": 7}}`. */
  const MixedNested: Bag := [("a", CurrentHpObject), ("b", Obj([("hp", Num(7))]))]
  const CurrentHpObject := Obj([("current-hp", Num(4))])

  /**
   * Parsing reads record `a` (its `current-hp` is defined), detection picks record
   * `b` (it has `hp`), so the write lands in `b` and what is read back is unchanged.
   */
  lemma NestedWriteMissesParsedRecord()
    ensures ParsedConvention(MixedNested) == Some(Nested("a"))
    ensures ParseGrimoireData(MixedNested).Some? && ParseGrimoireData(MixedNested).value.hp == 4
    ensures DetectGrimoirePrefix(MixedNested) == Some("b")
    ensures var r := Mutate(MixedNested, "b", 1, None);
      && r.Some?
      && Lookup(r.value, "b").Some? && Prop(Lookup(r.value, "b").value, "hp") == Some(Num(1))
      && ParsedConvention(r.value) == Some(Nested("a"))
      && ParseGrimoireData(r.value) == ParseGrimoireData(MixedNested)
  {
    CurrentHpRecord();
    MixedNestedRead();
    MixedNestedDetect();
    MixedNestedWrite();
  }

  lemma MixedNestedRead()
    ensures ParsedConvention(MixedNested) == Some(Nested("a"))
    ensures ParseGrimoireData(MixedNested) == Some(ReadNested(CurrentHpObject))
  {
    NoFlatKeys(MixedNested);
    CurrentHpRecord();
    NestedScanFirst(MixedNested);
    LocatedNested(MixedNested);
  }

  lemma MixedNestedDetect()
    ensures DetectGrimoirePrefix(MixedNested) == Some("b")
  {
    NoFlatKeys(MixedNested);
    CurrentHpRecord();
    assert DetectCandidate(Obj([("hp", Num(7))]));
    assert DetectNested(MixedNested) == Some("b");
    assert DetectConvention(MixedNested) == Some(Nested("b"));
  }

  lemma MixedNestedWrite()
    ensures var r := Mutate(MixedNested, "b", 1, None);
      && r.Some?
      && Lookup(r.value, "b").Some? && Prop(Lookup(r.value, "b").value, "hp") == Some(Num(1))
      && ParsedConvention(r.value) == Some(Nested("a"))
      && ParseGrimoireData(r.value) == Some(ReadNested(CurrentHpObject))
  {
    var b := Obj([("hp", Num(7))]);
    assert Lookup(MixedNested, "b") == Some(b) && HasProp(b, "hp");
    MutateBranches(MixedNested, "b", 1, None);
    var m := Mutate(MixedNested, "b", 1, None).value;
    MixedNestedRewritten(m);
  }

  /** A bag with the keys of `MixedNested` and its record `a` is read as `MixedNested` is. */
  lemma MixedNestedRewritten(m: Bag)
    requires Keys(m) == Keys(MixedNested) && Lookup(m, "a") == Some(CurrentHpObject)
    ensures ParsedConvention(m) == Some(Nested("a"))
    ensures ParseGrimoireData(m) == Some(ReadNested(CurrentHpObject))
  {
    MixedKeysFlatOff(m);
    assert m[0] == ("a", CurrentHpObject);
    CurrentHpRecord();
    NestedScanFirst(m);
    LocatedNested(m);
  }

  /** A bag with the keys of `MixedNested` has neither a tracker record nor a flat prefix. */
  lemma MixedKeysFlatOff(m: Bag)
    requires Keys(m) == Keys(MixedNested)
    ensures !TrackerHolds(m) && FlatScan(m, Prefixes).None?
  {
    NoFlatKeys(MixedNested);
    SameKeysSamePresence(MixedNested, m);
    FlatChoiceSamePresence(MixedNested, m);
    assert !Has(m, TrackerKey);
  }

  /** `{"current-hp": 4}` has a defined hp chain but neither `hp` nor `currentHp`. */
  lemma CurrentHpRecord()
    ensures var a := CurrentHpObject;
      NestedCandidate(a) && !DetectCandidate(a) && ReadNested(a).hp == 4
  {
    var a := CurrentHpObject;
    assert Prop(a, "hp") == None && Prop(a, "currentHp") == None;
    assert Prop(a, "current-hp") == Some(Num(4));
  }

  lemma NestedScanFirst(bag: Bag)
    requires |bag| > 0 && NestedCandidate(bag[0].1)
    ensures NestedScan(bag) == Some((bag[0].0, ReadNested(bag[0].1)))
  {
  }

  /** With the first two strategies off, the nested scan decides what is read. */
  lemma LocatedNested(bag: Bag)
    requires !TrackerHolds(bag) && FlatScan(bag, Prefixes).None? && NestedScan(bag).Some?
    ensures ParsedConvention(bag) == Some(Nested(NestedScan(bag).value.0))
    ensures ParseGrimoireData(bag) == Some(NestedScan(bag).value.1)
  {
  }

  /** `{"a": {"current-hp": 4}}`. */
  const CurrentHpOnly: Bag := [("a", CurrentHpObject)]

  /** A record the parser reads is not detected, so the batch rejects its token. */
  lemma DetectionMissesCurrentHp(items: seq<Item>, u: HpUpdate)
    requires |items| == 1 && items[0].metadata == CurrentHpOnly && items[0].id == u.tokenId
    ensures ParseGrimoireData(CurrentHpOnly).Some? && ParseGrimoireData(CurrentHpOnly).value.hp == 4
    ensures DetectGrimoirePrefix(CurrentHpOnly) == None
    ensures Rejection(items, u) == Some("No Grimoire data: " + (if items[0].name != "" then items[0].name else u.tokenId))
  {
    NoFlatKeys(CurrentHpOnly);
    CurrentHpRecord();
    NestedScanFirst(CurrentHpOnly);
    LocatedNested(CurrentHpOnly);
    assert FindItem(items, u.tokenId) == Some(items[0]);
  }

  /** `{"grimoire/hp": 5, "grimoire": {"hp": 3}}`. */
  const ShadowedFlat: Bag := [("grimoire/hp", Num(5)), ("grimoire", Obj([("hp", Num(3))]))]

  /**
   * Both sides agree on the flat prefix `grimoire`, but the mutator sees an object
   * under the bare prefix and rewrites that record's `hp`; the flat key still holds
   * 5, and 5 is what is read back.
   */
  lemma FlatWriteGoesToBarePrefix()
    ensures ParsedConvention(ShadowedFlat) == Some(Flat("grimoire"))
    ensures DetectConvention(ShadowedFlat) == Some(Flat("grimoire"))
    ensures var r := Mutate(ShadowedFlat, "grimoire", 1, None);
      && r.Some?
      && Lookup(r.value, "grimoire").Some? && Prop(Lookup(r.value, "grimoire").value, "hp") == Some(Num(1))
      && ParsedConvention(r.value) == Some(Flat("grimoire"))
      && ParseGrimoireData(r.value).Some? && ParseGrimoireData(r.value).value.hp == 5
  {
    GrimoireHpKey();
    KeyAbsent(ShadowedFlat, TrackerKey);
    EarlyPrefixesAbsent(ShadowedFlat);
    FlatReadAt(ShadowedFlat, 3, 5);
    var v := Obj([("hp", Num(3))]);
    assert Lookup(ShadowedFlat, "grimoire") == Some(v);
    assert HasProp(v, "hp");
    MutateBranches(ShadowedFlat, "grimoire", 1, None);
    var m := Mutate(ShadowedFlat, "grimoire", 1, None).value;
    assert Keys(m) == Keys(ShadowedFlat);
    assert Lookup(m, TrackerKey) == None;
    FlatReadAt(m, 3, 5);
  }

  /** `{"<tracker key>": null, "grimoire/hp": 5}`. */
  const NullTracker: Bag := [(TrackerKey, Null), ("grimoire/hp", Num(5))]

  /**
   * A null tracker value is skipped by the parser but detected, and the mutator's
   * `'hp' in null` throws, which fails the whole batch.
   */
  lemma NullTrackerFailsBatch(item: Item, u: HpUpdate)
    requires item.id == u.tokenId && item.metadata == NullTracker
    ensures ParsedConvention(NullTracker) == Some(Flat("grimoire"))
    ensures ParseGrimoireData(NullTracker).Some? && ParseGrimoireData(NullTracker).value.hp == 5
    ensures DetectGrimoirePrefix(NullTracker) == Some(TrackerKey)
    ensures Mutate(NullTracker, TrackerKey, u.newHp, u.newTempHp).None?
    ensures Batch([item], [u], None, None) == (BatchResult(0, 1, [InNullError]), [item])
  {
    GrimoireHpKey();
    assert Lookup(NullTracker, TrackerKey) == Some(Null);
    EarlyPrefixesAbsent(NullTracker);
    FlatReadAt(NullTracker, 3, 5);
    OneItemBatch(item, u, TrackerKey);
  }

  /** `{"<tracker key>": 5, "grimoire/hp": 5}`. */
  const NumberTracker: Bag := [(TrackerKey, Num(5)), ("grimoire/hp", Num(5))]

  /**
   * A numeric tracker value is detected; the flat mutator then finds no
   * `<tracker key>/hp` synonym and, with no temp hp, writes nothing, yet the token
   * counts as a success.
   */
  lemma NumberTrackerCountsUnwritten(item: Item, u: HpUpdate)
    requires item.id == u.tokenId && item.metadata == NumberTracker && u.newTempHp.None?
    ensures ParsedConvention(NumberTracker) == Some(Flat("grimoire"))
    ensures ParseGrimoireData(NumberTracker).Some? && ParseGrimoireData(NumberTracker).value.hp == 5
    ensures DetectGrimoirePrefix(NumberTracker) == Some(TrackerKey)
    ensures Mutate(NumberTracker, TrackerKey, u.newHp, u.newTempHp) == Some(NumberTracker)
    ensures Batch([item], [u], None, None) == (BatchResult(1, 0, []), [item])
  {
    NumberTrackerParsed();
    NumberTrackerDetected();
    NumberTrackerUnwritten(u.newHp);
    OneItemBatch(item, u, TrackerKey);
    assert item.(metadata := NumberTracker) == item;
  }

  /** The parser skips the numeric tracker value and reads the flat `grimoire` prefix. */
  lemma NumberTrackerParsed()
    ensures ParsedConvention(NumberTracker) == Some(Flat("grimoire"))
    ensures ParseGrimoireData(NumberTracker).Some? && ParseGrimoireData(NumberTracker).value.hp == 5
  {
    GrimoireHpKey();
    assert Lookup(NumberTracker, TrackerKey) == Some(Num(5));
    EarlyPrefixesAbsent(NumberTracker);
    FlatReadAt(NumberTracker, 3, 5);
  }

  /** Detection reports the tracker key for any value stored under it. */
  lemma NumberTrackerDetected()
    ensures DetectGrimoirePrefix(NumberTracker) == Some(TrackerKey)
  {
    assert Has(NumberTracker, TrackerKey);
  }

  /** The flat mutator on the tracker key leaves the bag as it is. */
  lemma NumberTrackerUnwritten(newHp: int)
    ensures Mutate(NumberTracker, TrackerKey, newHp, None) == Some(NumberTracker)
  {
    assert Lookup(NumberTracker, TrackerKey) == Some(Num(5));
    NoTrackerHpKey(NumberTracker, newHp);
  }

  /**
   * The flat mutator on the tracker key finds no `<tracker key>/hp` synonym in a
   * bag whose keys are shorter than those, and with no temp hp leaves it as it is.
   */
  lemma NoTrackerHpKey(bag: Bag, newHp: int)
    requires Lookup(bag, TrackerKey).Some? && !IsObjectType(Lookup(bag, TrackerKey).value)
    requires forall e :: 0 <= e < |bag| ==> |bag[e].0| <= |TrackerKey|
    ensures Mutate(bag, TrackerKey, newHp, None) == Some(bag)
  {
    forall j | 0 <= j < |HpKeys| ensures !Has(bag, FullKey(TrackerKey, HpKeys[j])) {
      KeyAbsent(bag, FullKey(TrackerKey, HpKeys[j]));
    }
    assert FirstPresentKey(bag, TrackerKey, HpKeys).None?;
    MutateBranches(bag, TrackerKey, newHp, None);
  }

  /** `updateMultipleTokensHp` on one token with one update, both of the same id. */
  lemma OneItemBatch(item: Item, u: HpUpdate, p: string)
    requires item.id == u.tokenId && WriterPrefix(item.metadata) == Some(p)
    ensures Mutate(item.metadata, p, u.newHp, u.newTempHp).None? ==>
      Batch([item], [u], None, None) == (BatchResult(0, 1, [InNullError]), [item])
    ensures Mutate(item.metadata, p, u.newHp, u.newTempHp).Some? ==>
      Batch([item], [u], None, None) == (BatchResult(1, 0, []), [item.(metadata := Mutate(item.metadata, p, u.newHp, u.newTempHp).value)])
  {
    OneItemValidated(item, u, p);
    OneItemApplied(item, u, p);
  }

  /** The one update passes validation. */
  lemma OneItemValidated(item: Item, u: HpUpdate, p: string)
    requires item.id == u.tokenId && WriterPrefix(item.metadata) == Some(p)
    ensures Validated([item], [u]) == Validation([u], [], 0)
  {
    assert FindItem([item], u.tokenId) == Some(item);
    assert [u][..0] == [];
  }

  /** The callback on the one item runs the mutator once. */
  lemma OneItemApplied(item: Item, u: HpUpdate, p: string)
    requires item.id == u.tokenId && WriterPrefix(item.metadata) == Some(p)
    ensures Mutate(item.metadata, p, u.newHp, u.newTempHp).None? ==> AppliedTo([item], [u]).None?
    ensures Mutate(item.metadata, p, u.newHp, u.newTempHp).Some? ==>
      AppliedTo([item], [u]) == Some(Applied([item.(metadata := Mutate(item.metadata, p, u.newHp, u.newTempHp).value)], 1))
  {
    assert UpdateFor([u], item.id) == Some(u);
    StepMutates(item, [u], u, p);
    assert [item][..0] == [];
    assert AppliedTo([item], [u]) == Extend(Some(Applied([], 0)), Step(item, [u]));
    var r := Mutate(item.metadata, p, u.newHp, u.newTempHp);
    if r.Some? {
      assert [] + [item.(metadata := r.value)] == [item.(metadata := r.value)];
    }
  }

  /** No flat hp key under any known prefix; the locator falls through to the nested scan. */
  lemma NoFlatKeys(bag: Bag)
    requires forall i :: 0 <= i < |bag| ==> '/' !in bag[i].0
    ensures FlatScan(bag, Prefixes).None? && !TrackerHolds(bag)
    ensures DetectFlat(bag, Prefixes).None? && !Has(bag, TrackerKey)
  {
    PrefixesSlashFree();
    forall i, j | 0 <= i < |Prefixes| && 0 <= j < |HpKeys| ensures !Has(bag, FullKey(Prefixes[i], HpKeys[j])) {
      SlashAfterPrefix(Prefixes[i], HpKeys[j]);
      SlashKeyAbsent(bag, FullKey(Prefixes[i], HpKeys[j]), |Prefixes[i]|);
    }
    SlashAfterPrefix(TrackerPrefix, "data");
    SlashKeyAbsent(bag, TrackerKey, |TrackerPrefix|);
    FlatScansAgree(bag, Prefixes);
  }

  /** A key with a slash is absent from a bag whose keys have none. */
  lemma SlashKeyAbsent(bag: Bag, k: string, at: int)
    requires forall i :: 0 <= i < |bag| ==> '/' !in bag[i].0
    requires 0 <= at < |k| && k[at] == '/'
    ensures !Has(bag, k)
  {
    var ks := Keys(bag);
    forall i | 0 <= i < |ks| ensures ks[i] != k {
      assert '/' !in bag[i].0;
    }
  }

  /** Composite keys over different slash-free prefixes differ. */
  lemma FullKeyDiffers(p: string, a: string, q: string, b: string)
    requires '/' !in p && '/' !in q && p != q
    ensures FullKey(p, a) != FullKey(q, b)
  {
    if FullKey(p, a) == FullKey(q, b) {
      FullKeyInjective(p, a, q, b);
    }
  }

  /** A key absent from every entry is absent from the bag. */
  lemma KeyAbsent(bag: Bag, k: string)
    requires forall i :: 0 <= i < |bag| ==> bag[i].0 != k
    ensures !Has(bag, k)
  {
    var ks := Keys(bag);
    assert forall i :: 0 <= i < |ks| ==> ks[i] == bag[i].0;
  }

  /**
   * The keys of the concrete bags here (the tracker key, `grimoire/hp` and keys
   * without a slash) are not flat hp keys of the first three prefixes.
   */
  lemma NotEarlyFlatKey(key: string, j: int, h: int)
    requires 0 <= j < 3 && 0 <= h < |HpKeys|
    requires key == TrackerKey || key == FullKey(Prefixes[3], HpKeys[0]) || '/' !in key
    ensures key != FullKey(Prefixes[j], HpKeys[h])
  {
    PrefixesSlashFree();
    SlashAfterPrefix(Prefixes[j], HpKeys[h]);
    assert Prefixes[j] != Prefixes[3];
    FullKeyDiffers(TrackerPrefix, "data", Prefixes[j], HpKeys[h]);
    FullKeyDiffers(Prefixes[3], HpKeys[0], Prefixes[j], HpKeys[h]);
  }

  /**
   * A flat read at prefix i: the tracker strategy is off, no earlier prefix has an
   * hp synonym, and `<prefix>/hp` holds x.
   */
  lemma FlatReadAt(bag: Bag, i: int, x: int)
    requires 0 <= i < |Prefixes| && !TrackerHolds(bag)
    requires forall j, h :: 0 <= j < i && 0 <= h < |HpKeys| ==> !Has(bag, FullKey(Prefixes[j], HpKeys[h]))
    requires Lookup(bag, FullKey(Prefixes[i], HpKeys[0])) == Some(Num(x))
    ensures ParsedConvention(bag) == Some(Flat(Prefixes[i]))
    ensures ParseGrimoireData(bag).Some? && ParseGrimoireData(bag).value.hp == x
    ensures !Has(bag, TrackerKey) ==> DetectConvention(bag) == Some(Flat(Prefixes[i]))
  {
    var p := Prefixes[i];
    assert FirstPresentAt(bag, p, HpKeys, 0);
    assert FirstHpPrefixAt(bag, Prefixes, i);
    var k :| FirstHpPrefixAt(bag, Prefixes, k) && FlatScan(bag, Prefixes).value == (Prefixes[k], ParseFlat(bag, Prefixes[k]).value);
    FirstHpPrefixUnique(bag, Prefixes, i, k);
    var f :| FirstPresentAt(bag, p, HpKeys, f) && FirstPresentKey(bag, p, HpKeys).value == FullKey(p, HpKeys[f]);
    FirstPresentUnique(bag, p, HpKeys, f, 0);
    FindValueReadsFirstPresentKey(bag, p, HpKeys);
    FlatHpRead(bag, p, x);
    LocatedFlat(bag, p);
    FlatScansAgree(bag, Prefixes);
  }

  /** The flat key `grimoire/hp` is the first hp synonym under the fourth prefix. */
  lemma GrimoireHpKey()
    ensures Prefixes[3] == "grimoire" && FullKey(Prefixes[3], HpKeys[0]) == "grimoire/hp"
  {
  }

  /**
   * A bag whose keys are the tracker key, `grimoire/hp` or slash-free has no hp
   * synonym under the first three prefixes.
   */
  lemma EarlyPrefixesAbsent(bag: Bag)
    requires forall e :: 0 <= e < |bag| ==>
      bag[e].0 == TrackerKey || bag[e].0 == FullKey(Prefixes[3], HpKeys[0]) || '/' !in bag[e].0
    ensures forall j, h :: 0 <= j < 3 && 0 <= h < |HpKeys| ==> !Has(bag, FullKey(Prefixes[j], HpKeys[h]))
  {
    forall j, h | 0 <= j < 3 && 0 <= h < |HpKeys| ensures !Has(bag, FullKey(Prefixes[j], HpKeys[h])) {
      forall e | 0 <= e < |bag| ensures bag[e].0 != FullKey(Prefixes[j], HpKeys[h]) {
        NotEarlyFlatKey(bag[e].0, j, h);
      }
      KeyAbsent(bag, FullKey(Prefixes[j], HpKeys[h]));
    }
  }

  // ---------------------------------------------------------------------------
  // The evidently intended writer: write where the parser reads

  /**
   * A record write: `field` takes max(0, newHp) and, when a temp hp is given,
   * `tempHp` takes max(0, newTempHp); every other property is kept.
   */
  function WriteRecord(v: Json, field: string, newHp: int, newTemp: Option<int>): (w: Json)
    requires v.Obj? && field != "tempHp"
    ensures w.Obj?
    ensures Prop(w, field) == Some(Num(Max(0, newHp)))
    ensures newTemp.Some? ==> Prop(w, "tempHp") == Some(Num(Max(0, newTemp.value)))
    ensures newTemp.None? ==> Prop(w, "tempHp") == Prop(v, "tempHp")
    ensures forall k :: k != field && k != "tempHp" ==> Prop(w, k) == Prop(v, k)
    ensures forall k :: HasProp(w, k) <==> HasProp(v, k) || k == field || (newTemp.Some? && k == "tempHp")
  {
    var f := Set(v.fields, field, Num(Max(0, newHp)));
    SetHas(v.fields, field, Num(Max(0, newHp)));
    SetHas(f, "tempHp", Num(Max(0, newTemp.GetOr(0))));
    Obj(if newTemp.Some? then Set(f, "tempHp", Num(Max(0, newTemp.value))) else f)
  }

  /** The property `obj.hp ?? obj.currentHp ?? obj['current-hp']` reads. */
  function NestedHpField(v: Json): (f: string)
    requires NestedCandidate(v)
    ensures f in HpKeys && NestedHp(v) == Prop(v, f)
  {
    if Coalesce(Prop(v, "hp"), None).Some? then "hp"
    else if Coalesce(Prop(v, "currentHp"), None).Some? then "currentHp"
    else "current-hp"
  }

  /** After writing the field the hp chain reads, the chain reads the new value. */
  lemma NestedRecordWriteReads(v: Json, newHp: int, newTemp: Option<int>)
    requires NestedCandidate(v)
    ensures v.Obj?
    ensures var w := WriteRecord(v, NestedHpField(v), newHp, newTemp);
      && NestedCandidate(w)
      && ReadNested(w).hp == Max(0, newHp)
      && (!HasProp(v, "hp") ==> !HasProp(w, "hp"))
  {
    var f := NestedHpField(v);
    var w := WriteRecord(v, f, newHp, newTemp);
    var x := Num(Max(0, newHp));
    ChainAfterWrite(v, w, f, x, Prop(w, "hp"), Prop(w, "currentHp"));
  }

  /** The hp chain of a record whose chosen field now holds `x`, the earlier links untouched. */
  lemma ChainAfterWrite(v: Json, w: Json, f: string, x: Json, hp: Option<Json>, currentHp: Option<Json>)
    requires NestedCandidate(v) && f == NestedHpField(v) && w.Obj? && x != Null
    requires Prop(w, f) == Some(x)
    requires hp == Prop(w, "hp") && hp == (if f == "hp" then Some(x) else Prop(v, "hp"))
    requires currentHp == Prop(w, "currentHp")
    requires f == "current-hp" ==> currentHp == Prop(v, "currentHp")
    ensures NestedHp(w) == Some(x)
  {
  }

  /** The entry the nested strategy read is the one stored under its key. */
  lemma ParsedNestedEntry(meta: Bag, k: string)
    requires DistinctKeys(meta) && ParsedConvention(meta) == Some(Nested(k))
    ensures !TrackerHolds(meta) && FlatScan(meta, Prefixes).None?
    ensures Lookup(meta, k).Some? && NestedCandidate(Lookup(meta, k).value)
    ensures exists i :: FirstNestedAt(meta, i) && meta[i] == (k, Lookup(meta, k).value)
  {
    var i :| FirstNestedAt(meta, i) && NestedScan(meta).value == (meta[i].0, ReadNested(meta[i].1));
    LookupAt(meta, i);
  }

  /**
   * The corrected mutator: it rewrites the hp (and temp hp) of the record or keys
   * `parseGrimoireData` read, and nothing when nothing was read.
   */
  function WriteParsed(meta: Bag, newHp: int, newTemp: Option<int>): (r: Option<Bag>)
    requires DistinctKeys(meta)
    ensures r.None? <==> ParseGrimoireData(meta).None?
  {
    match ParsedConvention(meta)
    case None => None
    case Some(c) =>
      ParsedTargets(meta);
      Some(WriteConvention(meta, c, newHp, newTemp))
  }

  /** What a convention's write needs: the record it rewrites is there. */
  predicate Targets(meta: Bag, c: Convention) {
    match c
    case Tracker => Lookup(meta, TrackerKey).Some? && Lookup(meta, TrackerKey).value.Obj?
    case Flat(_) => true
    case Nested(k) => Lookup(meta, k).Some? && NestedCandidate(Lookup(meta, k).value)
  }

  /** The write for one convention: the tracker record, the flat keys, or the nested record. */
  function WriteConvention(meta: Bag, c: Convention, newHp: int, newTemp: Option<int>): Bag
    requires Targets(meta, c)
  {
    match c
    case Tracker =>
      var v := Lookup(meta, TrackerKey).value;
      Set(meta, TrackerKey, WriteRecord(v, "hp", newHp, newTemp))
    case Flat(p) => FlatWrite(meta, p, newHp, newTemp)
    case Nested(k) =>
      var v := Lookup(meta, k).value;
      Set(meta, k, WriteRecord(v, NestedHpField(v), newHp, newTemp))
  }

  /** Whatever convention the parser used, its record is there to be rewritten. */
  lemma ParsedTargets(meta: Bag)
    requires DistinctKeys(meta) && ParsedConvention(meta).Some?
    ensures Targets(meta, ParsedConvention(meta).value)
  {
    if ParsedConvention(meta).value.Nested? {
      ParsedNestedEntry(meta, ParsedConvention(meta).value.key);
    }
  }

  /**
   * The intended round trip, for every bag the parser reads: the corrected write
   * succeeds, and re-parsing uses the same convention and reads hp = max(0, newHp).
   */
  lemma WriteParsedRoundTrip(meta: Bag, newHp: int, newTemp: Option<int>)
    requires DistinctKeys(meta) && ParseGrimoireData(meta).Some?
    ensures var r := WriteParsed(meta, newHp, newTemp);
      && r.Some?
      && ParsedConvention(r.value) == ParsedConvention(meta)
      && ParseGrimoireData(r.value).Some?
      && ParseGrimoireData(r.value).value.hp == Max(0, newHp)
  {
    match ParsedConvention(meta).value
    case Tracker => TrackerRoundTrip(meta, newHp, newTemp);
    case Flat(p) =>
      ParsedFlatFacts(meta, p);
      FlatWriteRoundTrip(meta, p, newHp, newTemp);
    case Nested(k) => NestedRoundTrip(meta, k, newHp, newTemp);
  }

  lemma TrackerRoundTrip(meta: Bag, newHp: int, newTemp: Option<int>)
    requires DistinctKeys(meta) && ParsedConvention(meta) == Some(Tracker)
    ensures var r := WriteParsed(meta, newHp, newTemp);
      && r.Some?
      && ParsedConvention(r.value) == Some(Tracker)
      && ParseGrimoireData(r.value).Some?
      && ParseGrimoireData(r.value).value.hp == Max(0, newHp)
  {
    ParsedTargets(meta);
    var w := WriteRecord(Lookup(meta, TrackerKey).value, "hp", newHp, newTemp);
    TrackerRecordReads(meta, w, newHp);
  }

  lemma TrackerRecordReads(meta: Bag, w: Json, newHp: int)
    requires w.Obj? && Prop(w, "hp") == Some(Num(Max(0, newHp)))
    ensures var m := Set(meta, TrackerKey, w);
      && ParsedConvention(m) == Some(Tracker)
      && ParseGrimoireData(m).Some?
      && ParseGrimoireData(m).value.hp == Max(0, newHp)
  {
    ReadAfterTrackerWrite(meta, w);
  }

  lemma NestedRoundTrip(meta: Bag, k: string, newHp: int, newTemp: Option<int>)
    requires DistinctKeys(meta) && ParsedConvention(meta) == Some(Nested(k))
    ensures var r := WriteParsed(meta, newHp, newTemp);
      && r.Some?
      && ParsedConvention(r.value) == Some(Nested(k))
      && ParseGrimoireData(r.value).Some?
      && ParseGrimoireData(r.value).value.hp == Max(0, newHp)
  {
    ParsedTargets(meta);
    var v := Lookup(meta, k).value;
    var w := WriteRecord(v, NestedHpField(v), newHp, newTemp);
    NestedRecordWriteReads(v, newHp, newTemp);
    NestedSetReads(meta, k, v, w);
  }

  /** Replacing the record the nested scan read by another candidate keeps the scan on that key. */
  lemma NestedSetReads(meta: Bag, k: string, v: Json, w: Json)
    requires DistinctKeys(meta) && ParsedConvention(meta) == Some(Nested(k))
    requires Lookup(meta, k) == Some(v) && v.Obj? && NestedCandidate(w)
    requires !HasProp(v, "hp") ==> !HasProp(w, "hp")
    ensures ParsedConvention(Set(meta, k, w)) == Some(Nested(k))
    ensures ParseGrimoireData(Set(meta, k, w)) == Some(ReadNested(w))
  {
    ParsedNestedEntry(meta, k);
    var i :| FirstNestedAt(meta, i) && meta[i] == (k, v);
    SetAt(meta, i, w);
    NestedWriteKeepsTrackerOff(meta, k, v, w);
    ReadAfterNestedWrite(meta, i, w);
  }

  /** Rewriting a nested record that has no `hp` key cannot switch the tracker strategy on. */
  lemma NestedWriteKeepsTrackerOff(meta: Bag, k: string, v: Json, w: Json)
    requires !TrackerHolds(meta) && Lookup(meta, k) == Some(v) && v.Obj?
    requires !HasProp(v, "hp") ==> !HasProp(w, "hp")
    ensures !TrackerHolds(Set(meta, k, w))
  {
  }

  /** The keys a convention's write may change. */
  function WrittenKeys(meta: Bag, c: Convention, newTemp: Option<int>): set<string> {
    match c
    case Tracker => {TrackerKey}
    case Nested(k) => {k}
    case Flat(p) =>
      var hk := FirstPresentKey(meta, p, HpKeys);
      (if hk.Some? then {hk.value} else {}) + (if newTemp.Some? then {TempTarget(meta, p)} else {})
  }

  /** The corrected write leaves every other key of the bag as it was, and adds no key but the temp target. */
  lemma WriteParsedFrame(meta: Bag, newHp: int, newTemp: Option<int>)
    requires DistinctKeys(meta) && ParseGrimoireData(meta).Some?
    ensures ParsedConvention(meta).Some?
    ensures var r := WriteParsed(meta, newHp, newTemp);
      var ks := WrittenKeys(meta, ParsedConvention(meta).value, newTemp);
      && r.Some?
      && (forall k :: k !in ks ==> Lookup(r.value, k) == Lookup(meta, k))
      && (forall k :: Has(r.value, k) ==> Has(meta, k) || k in ks)
  {
    ParsedTargets(meta);
    var c := ParsedConvention(meta).value;
    assert WriteParsed(meta, newHp, newTemp) == Some(WriteConvention(meta, c, newHp, newTemp));
    WriteConventionFrame(meta, c, newHp, newTemp);
  }

  /** Each convention's write changes only its written keys. */
  lemma WriteConventionFrame(meta: Bag, c: Convention, newHp: int, newTemp: Option<int>)
    requires Targets(meta, c)
    ensures var r := WriteConvention(meta, c, newHp, newTemp);
      var ks := WrittenKeys(meta, c, newTemp);
      && (forall k :: k !in ks ==> Lookup(r, k) == Lookup(meta, k))
      && (forall k :: Has(r, k) ==> Has(meta, k) || k in ks)
  {
    match c
    case Tracker =>
      SetFrame(meta, TrackerKey, WriteRecord(Lookup(meta, TrackerKey).value, "hp", newHp, newTemp));
    case Nested(k) =>
      var v := Lookup(meta, k).value;
      SetFrame(meta, k, WriteRecord(v, NestedHpField(v), newHp, newTemp));
    case Flat(_) =>
  }

  /** Storing one key changes only that key. */
  lemma SetFrame(meta: Bag, k: string, w: Json)
    ensures forall k' :: k' !in {k} ==> Lookup(Set(meta, k, w), k') == Lookup(meta, k')
    ensures forall k' :: Has(Set(meta, k, w), k') ==> Has(meta, k') || k' in {k}
  {
    SetHas(meta, k, w);
  }

  // ---------------------------------------------------------------------------
  // The corrected batch: validate with the parser, write where it reads

  /** The corrected validation: a token is rejected when it is missing or the parser reads nothing on it. */
  function CorrectedRejection(items: seq<Item>, u: HpUpdate): Option<string> {
    match FindItem(items, u.tokenId)
    case None => Some("Token not found: " + u.tokenId)
    case Some(item) =>
      if ParseGrimoireData(item.metadata).None? then
        Some("No Grimoire data: " + (if item.name != "" then item.name else u.tokenId))
      else None
  }

  /** `CorrectedRejection` on a fixed item list, as a function value. */
  function CorrectedRejectionOf(items: seq<Item>): HpUpdate -> Option<string> {
    u => CorrectedRejection(items, u)
  }

  /** Every item's metadata is a JavaScript object, with distinct keys. */
  ghost predicate WellFormed(items: seq<Item>) {
    forall i :: 0 <= i < |items| ==> DistinctKeys(items[i].metadata)
  }

  /** One item under the corrected callback: with an update for its id, the corrected mutator runs. */
  function CorrectedItem(item: Item, valid: seq<HpUpdate>): (r: Item)
    requires DistinctKeys(item.metadata)
    ensures r.(metadata := item.metadata) == item
    ensures UpdateFor(valid, item.id).None? || ParseGrimoireData(item.metadata).None? ==> r == item
  {
    match UpdateFor(valid, item.id)
    case None => item
    case Some(u) =>
      match WriteParsed(item.metadata, u.newHp, u.newTempHp)
      case None => item
      case Some(m) => item.(metadata := m)
  }

  /** The corrected callback over the item list: it never throws and keeps the list's shape. */
  function CorrectedApply(items: seq<Item>, valid: seq<HpUpdate>): (r: seq<Item>)
    requires WellFormed(items)
    ensures |r| == |items|
    ensures forall i :: 0 <= i < |items| ==> r[i] == CorrectedItem(items[i], valid)
    decreases |items|
  {
    if items == [] then []
    else
      assert WellFormed(items[1..]) by {
        forall i | 0 <= i < |items[1..]| ensures DistinctKeys(items[1..][i].metadata) {
          assert items[1..][i] == items[i + 1];
        }
      }
      [CorrectedItem(items[0], valid)] + CorrectedApply(items[1..], valid)
  }

  /** How many items have an update in the list. */
  function UpdatedCount(items: seq<Item>, valid: seq<HpUpdate>): nat
    decreases |items|
  {
    if items == [] then 0
    else (if UpdateFor(valid, items[0].id).Some? then 1 else 0) + UpdatedCount(items[1..], valid)
  }

  /**
   * The corrected `updateMultipleTokensHp`: the same validation messages and counts,
   * but the parser decides what has data, and each target is written by `WriteParsed`.
   */
  function CorrectedBatch(items: seq<Item>, updates: seq<HpUpdate>): (r: (BatchResult, seq<Item>))
    requires WellFormed(items)
    ensures var valid := Kept(updates, CorrectedRejectionOf(items));
      && r.0.failed == |updates| - |valid|
      && r.0.errors == Messages(updates, CorrectedRejectionOf(items))
      && r.1 == CorrectedApply(items, valid)
      && r.0.success == UpdatedCount(items, valid)
  {
    var valid := Kept(updates, CorrectedRejectionOf(items));
    var errors := Messages(updates, CorrectedRejectionOf(items));
    KeptFailed(updates, CorrectedRejectionOf(items));
    if |valid| == 0 then
      UpdatedNone(items, valid);
      assert CorrectedApply(items, valid) == items by {
        forall i | 0 <= i < |items| ensures CorrectedApply(items, valid)[i] == items[i] {
          assert UpdateFor(valid, items[i].id).None?;
        }
      }
      (BatchResult(0, |updates| - |valid|, errors), items)
    else (BatchResult(UpdatedCount(items, valid), |updates| - |valid|, errors), CorrectedApply(items, valid))
  }

  /** Without updates no item is counted. */
  lemma {:induction false} UpdatedNone(items: seq<Item>, valid: seq<HpUpdate>)
    requires valid == []
    ensures UpdatedCount(items, valid) == 0
    decreases |items|
  {
    if items != [] {
      UpdatedNone(items[1..], valid);
    }
  }

  /** The positions of the items that have an update in the list. */
  ghost function UpdatedAt(items: seq<Item>, valid: seq<HpUpdate>): set<int> {
    set i | 0 <= i < |items| && UpdateFor(valid, items[i].id).Some?
  }

  /** Counting one more item adds one exactly when that item has an update. */
  lemma {:induction false} UpdatedCountAppend(items: seq<Item>, x: Item, valid: seq<HpUpdate>)
    ensures UpdatedCount(items + [x], valid) == UpdatedCount(items, valid) + if UpdateFor(valid, x.id).Some? then 1 else 0
    decreases |items|
  {
    if items != [] {
      assert (items + [x])[1..] == items[1..] + [x];
      UpdatedCountAppend(items[1..], x, valid);
    }
  }

  /** `UpdatedCount` is the number of positions that have an update. */
  lemma {:induction false} UpdatedCountIsPositions(items: seq<Item>, valid: seq<HpUpdate>)
    ensures UpdatedCount(items, valid) == |UpdatedAt(items, valid)|
    decreases |items|
  {
    if items != [] {
      var n := |items| - 1;
      var init := items[..n];
      assert items == init + [items[n]];
      UpdatedCountAppend(init, items[n], valid);
      UpdatedCountIsPositions(init, valid);
      UpdatedAtAppend(init, items[n], valid);
    }
  }

  /** One more item adds its own position, when it has an update, to those already found. */
  lemma UpdatedAtAppend(init: seq<Item>, x: Item, valid: seq<HpUpdate>)
    ensures |UpdatedAt(init + [x], valid)| == |UpdatedAt(init, valid)| + if UpdateFor(valid, x.id).Some? then 1 else 0
  {
    var n := |init|;
    var all := init + [x];
    var before := UpdatedAt(init, valid);
    var last: set<int> := if UpdateFor(valid, x.id).Some? then {n} else {};
    forall i ensures i in UpdatedAt(all, valid) <==> i in before + last {
      if 0 <= i < n {
        assert all[i] == init[i];
      } else if i == n {
        assert all[i] == x;
      }
    }
    assert UpdatedAt(all, valid) == before + last;
    assert n !in before;
  }

  /**
   * The corrected batch counts exactly the items it writes: with unique ids, success
   * is the number of positions with an accepted update, and at each such position the
   * item reads back the written hp (`CorrectedBatchReadsBack`), while every other
   * item is unchanged.
   */
  lemma CorrectedSuccessCountsWritten(items: seq<Item>, updates: seq<HpUpdate>)
    requires WellFormed(items) && DistinctIds(items)
    ensures var valid := Kept(updates, CorrectedRejectionOf(items));
      var (res, after) := CorrectedBatch(items, updates);
      && res.success == |UpdatedAt(items, valid)|
      && (forall i :: i in UpdatedAt(items, valid) ==>
            ParseGrimoireData(after[i].metadata).Some? &&
            ParseGrimoireData(after[i].metadata).value.hp == Max(0, UpdateFor(valid, items[i].id).value.newHp))
      && (forall i :: 0 <= i < |items| && i !in UpdatedAt(items, valid) ==> after[i] == items[i])
  {
    var valid := Kept(updates, CorrectedRejectionOf(items));
    UpdatedCountIsPositions(items, valid);
    forall i | 0 <= i < |items| {
      CorrectedBatchReadsBack(items, updates, i);
    }
  }

  /** A filter keeps no more than it is given, and every dropped update has one message. */
  lemma {:induction false} KeptFailed(us: seq<HpUpdate>, verdict: HpUpdate -> Option<string>)
    ensures |Kept(us, verdict)| <= |us|
    ensures |Messages(us, verdict)| == |us| - |Kept(us, verdict)|
  {
    if us != [] {
      KeptFailed(us[1..], verdict);
    }
  }

  /** An update the corrected validation keeps names an item the parser reads. */
  lemma CorrectedAcceptedParse(items: seq<Item>, updates: seq<HpUpdate>, u: HpUpdate)
    requires u in Kept(updates, CorrectedRejectionOf(items))
    ensures FindItem(items, u.tokenId).Some?
    ensures ParseGrimoireData(FindItem(items, u.tokenId).value.metadata).Some?
  {
    KeptPass(updates, CorrectedRejectionOf(items), u);
    assert CorrectedRejectionOf(items)(u) == CorrectedRejection(items, u);
  }

  /**
   * The intended batch property: with unique item ids, every item with an accepted
   * update is read back, by the same convention, with hp = max(0, newHp) of the first
   * accepted update for its id; every other item is unchanged.
   */
  lemma CorrectedBatchReadsBack(items: seq<Item>, updates: seq<HpUpdate>, i: int)
    requires WellFormed(items) && DistinctIds(items) && 0 <= i < |items|
    ensures var valid := Kept(updates, CorrectedRejectionOf(items));
      var after := CorrectedBatch(items, updates).1;
      && |after| == |items|
      && after[i].(metadata := items[i].metadata) == items[i]
      && (UpdateFor(valid, items[i].id).None? ==> after[i] == items[i])
      && (UpdateFor(valid, items[i].id).Some? ==>
            && ParsedConvention(after[i].metadata) == ParsedConvention(items[i].metadata)
            && ParseGrimoireData(after[i].metadata).Some?
            && ParseGrimoireData(after[i].metadata).value.hp == Max(0, UpdateFor(valid, items[i].id).value.newHp))
  {
    var valid := Kept(updates, CorrectedRejectionOf(items));
    var uf := UpdateFor(valid, items[i].id);
    if uf.Some? {
      var u := uf.value;
      KeptMember(updates, CorrectedRejectionOf(items), u);
      CorrectedAcceptedParse(items, updates, u);
      FindItemAt(items, i);
      WriteParsedRoundTrip(items[i].metadata, u.newHp, u.newTempHp);
    }
  }

  /** Every kept update is one of the updates given. */
  lemma {:induction false} KeptMember(us: seq<HpUpdate>, verdict: HpUpdate -> Option<string>, u: HpUpdate)
    requires u in Kept(us, verdict)
    ensures u in us
  {
    if us[0] != u || verdict(us[0]).Some? {
      KeptMember(us[1..], verdict, u);
    }
  }
}
