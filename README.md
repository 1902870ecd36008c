# gm-grimoire core, modelled in Dafny

gm-grimoire is a game master's combat overlay for the Owlbear Rodeo virtual
tabletop. When the GM selects tokens, it reads each token's hit points from
metadata that other extensions left on it. Three conventions are recognised:

- the bitperfect hp-tracker record;
- flat `prefix/key` entries under one of seven known prefixes;
- a nested record object.

The overlay merges each token with a locally stored defence profile: flat armour,
armour per damage type, and resistance multipliers. It computes damage through
multiplier and armour stages and writes the new hit points back into the token's
metadata. It also keeps a newest-first combat history capped at 50 events.

This project models that core:

- the damage-type catalogue;
- the damage calculator;
- the metadata parser and its separate convention detector;
- the two hp writers (the generic one and the hp-tracker one with its bar width
  and label);
- the defence-profile store;
- the application store (history, merge, persisted slice);
- the pure parts of the scene hook.

Metadata is a JSON value. A JavaScript object is an ordered list of
`(key, value)` pairs in insertion order, which is the order JavaScript uses
for keys that are not integer-like: lookups find the first pair with the key,
and writes replace it in place or append a new one. The JavaScript coercions the code relies
on are written out in `Json`: `in`, `??`, `typeof … === 'object'`, truthiness and
template-literal number text. The host SDK becomes a `Scene` object holding the
item list, plus fault parameters for its calls that can fail. Random ids and the
clock become caller parameters.

The module layout follows the source:

| module | models |
|---|---|
| `DamageTypes` | the catalogue and colour table |
| `DamageCalculator` | the damage pipeline |
| `GrimoireParser` | reading and detection |
| `GrimoireWriter` | the generic writer, as written |
| `CorrectedWriter` | the counterexamples in Findings and the intended writer |
| `HealthBar` | the hp-tracker writer |
| `DefenseStore` | the defence profiles |
| `AppStore` | the application store |
| `UseObr` | the scene hook's pure parts |

## Model

| member | source | states |
|---|---|---|
| DamageTypes.ParseKey | src/types/index.ts:2-10 | a key string names a damage type exactly when it is that type's own key |
| DamageTypes.KeyNamesDistinct | src/types/index.ts:2-10 | the 20 damage-type keys are pairwise different |
| DamageTypes.KeyRoundTrip | src/types/index.ts:2-10 | parsing a type's key gives that type back |
| DamageTypes.Catalog | src/utils/damageTypes.ts:3-29 | the catalogue has 20 entries with distinct keys, and only `pure` has the special category |
| DamageTypes.PhysicalEntries | src/utils/damageTypes.ts:5-8 | four physical entries |
| DamageTypes.MagicalEntries | src/utils/damageTypes.ts:11-25 | fifteen magical entries |
| DamageTypes.CatalogCategories | src/utils/damageTypes.ts:3-29 | the catalogue has 4 physical, 15 magical and 1 special entry |
| DamageTypes.Ordinal | src/utils/damageTypes.ts:3-29 | every damage type has an entry in the catalogue |
| DamageTypes.IndexByKeyAt | src/utils/damageTypes.ts:31-32 | with distinct keys, indexing a list by key maps each entry's key to that entry |
| DamageTypes.IndexByKeyDomain | src/utils/damageTypes.ts:31-32 | the index holds exactly the keys of the list |
| DamageTypes.TypeMap | src/utils/damageTypes.ts:31-32 | the key-to-entry map covers every type, and maps each catalogue key to its own entry |
| DamageTypes.ResistanceValues | src/utils/damageTypes.ts:44 | the selectable multipliers are strictly ascending and include 1 |
| DamageTypes.ResistanceLabels | src/utils/damageTypes.ts:34-42 | labels exist for exactly the selectable multipliers, and 1 is labelled «Нормально» |
| DamageTypes.ResistanceColor | src/utils/damageTypes.ts:46-53 | each of the six colours is chosen exactly on its band of multipliers (0, below 1, 1, to 1.5, to 2, above 2) |
| DamageCalculator.CalculateDamage | src/utils/damageCalculator.ts:7-83 | pure damage ignores defences and deals max(0, raw); any other type deals max(0, floor(raw × multiplier) − flat armour − type armour), with a missing multiplier meaning 1 and missing type armour 0; new hp is max(0, hp − damage); overkill is positive only on a kill; hp = new hp + damage − overkill; dead exactly when damage reaches hp |
| DamageCalculator.BreakdownStages | src/utils/damageCalculator.ts:58-65 | the breakdown text shows a `×` stage exactly when the multiplier is not 1, a `−` stage exactly when the total reduction is positive, and always ends in ` = ` and the final damage |
| DamageCalculator.PureBreakdownEnds | src/utils/damageCalculator.ts:32 | for non-negative raw damage, the pure breakdown ends in the final damage and shows no multiplier; raw damage is never negative because the damage input stores `Math.max(0, …)` (src/components/MassCalculator.tsx:121) |
| DamageCalculator.PureIgnoresDefenses | src/utils/damageCalculator.ts:13-34 | two units that differ only in their defences take the same pure-damage result |
| DamageCalculator.RemovedResistanceIsNeutral | src/utils/damageCalculator.ts:37 | a missing multiplier for a type acts exactly like a multiplier of 1 |
| DamageCalculator.ScenarioResistedFire | src/utils/damageCalculator.ts:37-55 | 20 fire damage against resistance 0.5 and armour 5 leaves 25 of 30 hp |
| DamageCalculator.ScenarioOverkill | src/utils/damageCalculator.ts:53-55 | 12 slashing damage against 5 hp kills, with overkill 7 |
| DamageCalculator.ScenarioPureOnDead | src/utils/damageCalculator.ts:13-31 | pure damage against 0 hp is all overkill and the unit is dead |
| DamageCalculator.CalculateMassDamage | src/utils/damageCalculator.ts:88-94 | one result per unit, in order, each the single-unit result |
| DamageCalculator.MultiplierLabel | src/utils/damageCalculator.ts:99-106 | the five named multipliers get their Russian labels; every other multiplier gets `×` and its number, and only those do |
| DamageCalculator.GenericLabels | src/utils/damageCalculator.ts:105 | 0.25 is labelled `×0.25` and 3 is labelled `×3` |
| Json.Lookup | src/utils/grimoireParser.ts:25-26 | a property is found exactly when the object has the key, and the value is that key's |
| Json.Set | src/utils/grimoireWriter.ts:59 | an assignment makes the key read the new value, leaves every other key's value alone, and appends the key only when it was new |
| Json.SetKeepsDistinct | src/utils/grimoireWriter.ts:68 | an assignment keeps an object's keys distinct |
| Json.NumberText | src/utils/damageCalculator.ts:60 | a number's text is non-empty and made of sign, digit and decimal-point characters; it starts with `-` exactly for a negative number; an integral number prints as the integer's text |
| Json.FractionalMultiplierTexts | src/utils/damageTypes.ts:44 | the catalogue's fractional multipliers 0.25, 0.5 and 1.5 print as `0.25`, `0.5` and `1.5` |
| GrimoireParser.FullKeyInjective | src/utils/grimoireParser.ts:24 | over slash-free prefixes, `prefix/key` determines both the prefix and the key |
| GrimoireParser.PrefixesSlashFree | src/utils/grimoireParser.ts:4-15 | no known prefix contains a slash, and the tracker key is `prefix/data` over a prefix outside the list |
| GrimoireParser.FindValue | src/utils/grimoireParser.ts:18-30 | a value is found exactly when one of the synonyms is present under the prefix, and it is the value of the first present synonym |
| GrimoireParser.FirstPresentKey | src/utils/grimoireParser.ts:183-199 | the key of the first present synonym, found exactly when one is present |
| GrimoireParser.FindValueReadsFirstPresentKey | src/utils/grimoireParser.ts:18-30 | the value found is the value stored at the first present key |
| GrimoireParser.ParseFlat | src/utils/grimoireParser.ts:33-57 | a flat record exists exactly when an hp synonym is present; every field, hp included, is built by `FlatUnit` from the value of the first present synonym of its own list, and mana and maxMana are absent exactly when no synonym of theirs is present |
| GrimoireParser.FlatUnit | src/utils/grimoireParser.ts:39-56 | hp is `Number(hp)`; maxHp, tempHp, armour and name are the value found when it is neither missing nor null, else hp, 0, 0 and ""; mana and maxMana are read whenever found, null included |
| GrimoireParser.ParseTracker | src/utils/grimoireParser.ts:60-84 | a tracker record exists exactly when the tracker value is an object with a defined `hp`; its hp is `Number(hp)`, its maximum is `Number(maxHp)` when defined and not null, else the hp, and it has no mana, armour or temp hp |
| GrimoireParser.ReadNested | src/utils/grimoireParser.ts:99-111 | a nested record's hp is the first defined of `hp`, `currentHp` and `current-hp`; maxHp, tempHp, armour and name come from their chains below; mana and maxMana are read exactly when the property is present |
| GrimoireParser.NestedMaxHp | src/utils/grimoireParser.ts:104 | the first of `maxHp`, `max-hp` and `hpMax` that is neither missing nor null, else the hp |
| GrimoireParser.NestedTempHp | src/utils/grimoireParser.ts:105 | the first of `tempHp` and `temp-hp` that is neither missing nor null, else 0 |
| GrimoireParser.NestedArmor | src/utils/grimoireParser.ts:108 | the first of `ac`, `armor` and `defence` that is neither missing nor null, else 0 |
| GrimoireParser.NestedName | src/utils/grimoireParser.ts:109 | the text of the first of `name` and `displayName` that is neither missing nor null, else "" |
| GrimoireParser.NestedScan | src/utils/grimoireParser.ts:97-113 | the nested strategy picks the first object-valued entry with a defined hp field, and finds nothing only when there is none |
| GrimoireParser.ParseNested | src/utils/grimoireParser.ts:87-114 | `parseNestedStructure` reads nothing exactly when no entry is an object with a defined hp chain, and otherwise reads the first such entry's record |
| GrimoireParser.FlatScan | src/utils/grimoireParser.ts:128-134 | the flat strategy picks the first prefix, in list order, with an hp synonym, and finds nothing only when there is none |
| GrimoireParser.Locate | src/utils/grimoireParser.ts:119-146 | the tracker wins, then the first flat prefix, then the first nested record, and nothing is read only when all three fail |
| GrimoireParser.ParseGrimoireData | src/utils/grimoireParser.ts:119-146 | a readable tracker record wins; else the first flat prefix with an hp synonym; else the nested scan; nothing is read exactly when there is no tracker record, no flat hp synonym and no nested candidate |
| GrimoireParser.DetectFlat | src/utils/grimoireParser.ts:159-164 | detection picks the first prefix with an hp synonym |
| GrimoireParser.DetectNested | src/utils/grimoireParser.ts:167-175 | detection picks the first object-typed entry that has an `hp` or `currentHp` property |
| GrimoireParser.DetectConvention | src/utils/grimoireParser.ts:151-178 | the tracker key is returned exactly when it is present (whatever its value), else the first flat prefix, else the first nested candidate |
| GrimoireParser.DetectGrimoirePrefix | src/utils/grimoireParser.ts:151-178 | the tracker key whenever it is present, else the first flat prefix with an hp synonym, else the first nested candidate's key; none exactly when all three stages fail |
| GrimoireParser.FindHpKey | src/utils/grimoireParser.ts:183-206 | the first present flat hp key; failing that, `hp` or `currentHp` when the bare prefix holds an object with that property |
| GrimoireParser.FindTempHpKey | src/utils/grimoireParser.ts:211-225 | the first present temp-hp synonym's key, found exactly when one is present |
| GrimoireParser.FlatScansAgree | src/utils/grimoireParser.ts:128-164 | parsing and detection choose the same flat prefix |
| GrimoireParser.DetectionMatchesParse | src/utils/grimoireParser.ts:119-178 | a readable tracker record is both parsed and detected; with no tracker key, parsing chooses flat prefix p exactly when detection does |
| SceneItems.FindItem | src/utils/updateHealthBar.ts:16 | the first item with the id, and none exactly when no item has it |
| SceneItems.FindItemAt | src/utils/grimoireWriter.ts:99 | with unique ids, looking up an item's id finds that item |
| GrimoireWriter.MutateNested | src/utils/grimoireWriter.ts:138-149 | in a nested object, `hp` is set to max(0, hp) when present, else `currentHp` when present; a given temp hp is stored in `tempHp`; no other property changes |
| GrimoireWriter.FlatWrite | src/utils/grimoireWriter.ts:150-165 | the first present hp key receives max(0, hp); a given temp hp goes to the first present temp key, or a new `prefix/tempHp`; every other key keeps its value and no other key is created |
| GrimoireWriter.HpKeyIsNotTempKey | src/utils/grimoireWriter.ts:152-163 | the hp write and the temp-hp write never hit the same key |
| GrimoireWriter.WriterPrefix | src/utils/grimoireWriter.ts:111-112 | the writer goes on exactly when detection names a key and that key is not the empty string, which `!prefix` treats as missing |
| GrimoireWriter.EmptyKeyIsNoData | src/utils/grimoireWriter.ts:111-116 | on `{"": {"hp": 5}}` detection names the empty key, the writer finds no prefix, and the update is rejected with "No Grimoire data" and the token's name or id |
| GrimoireWriter.Mutate | src/utils/grimoireWriter.ts:138-165 | the mutator throws (a TypeError on `'hp' in null`) exactly when the detected key holds null |
| GrimoireWriter.MutateBranches | src/utils/grimoireWriter.ts:138-165 | an object at the detected key is rewritten in place as a nested record, with the same keys; otherwise the flat write runs |
| GrimoireWriter.Rejection | src/utils/grimoireWriter.ts:103-118 | an update passes exactly when its token is found and has a non-empty detected key; otherwise the message is "Token not found: id" or "No Grimoire data: " with the token's name, or its id when the name is empty |
| GrimoireWriter.Validated | src/utils/grimoireWriter.ts:101-119 | every update is either kept or counted as failed, and there is one error message per failure |
| GrimoireWriter.ValidationPartitions | src/utils/grimoireWriter.ts:101-119 | validation keeps the updates that pass, in order, with one error message per rejected update, and failed equals the number rejected |
| GrimoireWriter.AcceptedAreValid | src/utils/grimoireWriter.ts:103-118 | every kept update names a found token on which detection names a non-empty key |
| GrimoireWriter.ValidateUpdates | src/utils/grimoireWriter.ts:101-119 | the validation loop computes the kept list, errors and failed count above, rejecting a token whose detected key is empty like one with none |
| GrimoireWriter.UpdateFor | src/utils/grimoireWriter.ts:130 | the first kept update for the id, and none exactly when none names it |
| GrimoireWriter.Step | src/utils/grimoireWriter.ts:129-168 | the callback on one item counts it exactly when it has a kept update and a detected non-empty key (`continue` on an empty one); only its metadata can change, and an uncounted item is unchanged |
| GrimoireWriter.AppliedTo | src/utils/grimoireWriter.ts:126-170 | when the callback loop does not throw, it returns one item per input item and counts at most that many successes |
| GrimoireWriter.ApplyUpdates | src/utils/grimoireWriter.ts:126-170 | the callback loop either throws or returns every item in order, each transformed by its step, with success the number counted |
| GrimoireWriter.RunAbortPersists | src/utils/grimoireWriter.ts:126-177 | once one item's mutation throws, the whole callback throws |
| GrimoireWriter.SuccessCountsIds | src/utils/grimoireWriter.ts:167 | with unique item ids, success is the number of distinct ids written |
| GrimoireWriter.SuccessBound | src/utils/grimoireWriter.ts:167 | with unique item ids, success never exceeds the number of kept updates |
| GrimoireWriter.BatchCounts | src/utils/grimoireWriter.ts:89-178 | with unique ids: success ≤ kept; success + failed ≤ updates; no kept update returns early with nothing written; a failed fetch or a throwing store call reports every update failed with that one error and changes nothing; otherwise failed counts the rejections and errors lists them |
| GrimoireWriter.BatchFrame | src/utils/grimoireWriter.ts:126-170 | the batch changes only metadata, only of counted items; when neither host call fails and the callback does not throw, each counted item receives exactly the mutator's result for its first kept update |
| GrimoireWriter.Batch | src/utils/grimoireWriter.ts:89-178 | the batch never reports more failures than updates and keeps the number of items; the scene changes only when neither host call fails, and then failed is the number of rejected updates |
| GrimoireWriter.UpdateMultipleTokensHp | src/utils/grimoireWriter.ts:89-178 | the batch method leaves the scene and returns the result that `Batch` describes |
| GrimoireWriter.SingleWrite | src/utils/grimoireWriter.ts:13-84 | success exactly when the token is found, its detected key is non-empty, no host call fails and the mutator does not throw; success leaves the mutator's rewrite of the scene, failure leaves it unchanged |
| GrimoireWriter.SingleWriteReadsBack | src/utils/grimoireWriter.ts:13-84 | with unique ids, when detection and parsing agree on the token's non-empty convention key, the write succeeds, changes only that token's metadata, and the parser reads max(0, hp) back by the same convention |
| GrimoireWriter.OneUpdateApplies | src/utils/grimoireWriter.ts:34-72 | with unique ids, a mutator that succeeds rewrites the target token's metadata and passes every other item through unchanged |
| GrimoireWriter.RunTotal | src/utils/grimoireWriter.ts:35-72 | the callback loop throws only when some item's step throws |
| GrimoireWriter.UpdateTokenHp | src/utils/grimoireWriter.ts:13-84 | the single-token method leaves the scene and returns the result that `SingleWrite` describes: false without a token or a non-empty detected key, or on a fault |
| GrimoireWriter.ReadAfterFlatWrite | src/utils/grimoireWriter.ts:150-165 | after a write that keeps hp-key presence, the parser still reads the same flat prefix and returns the written hp |
| GrimoireWriter.ReadAfterNestedWrite | src/utils/grimoireWriter.ts:138-149 | replacing the first nested record with another readable record makes the parser read the new one |
| GrimoireWriter.MutateRoundTrip | src/utils/grimoireWriter.ts:134-165 | when detection and parsing agree on the convention (and a flat prefix has no object at its bare key), writing hp and parsing again reads max(0, hp) by the same convention |
| GrimoireWriter.MutateRoundTripTracker | src/utils/grimoireWriter.ts:138-145 | for a parsed tracker record the written hp is read back |
| GrimoireWriter.MutateRoundTripFlat | src/utils/grimoireWriter.ts:150-165 | for a parsed flat prefix without an object at its bare key the written hp is read back |
| GrimoireWriter.MutateRoundTripNested | src/utils/grimoireWriter.ts:138-149 | for a nested record that detection and parsing both pick, the written hp is read back |
| GrimoireWriter.FlatWriteKeepsHpPresence | src/utils/grimoireWriter.ts:150-165 | a flat write never adds or removes an hp key under any prefix |
| GrimoireWriter.NestedWriteReads | src/utils/grimoireWriter.ts:138-149 | a nested write on a detected record leaves it readable with hp max(0, hp) |
| CorrectedWriter.NestedWriteMissesParsedRecord | src/utils/grimoireParser.ts:167-175 | on `{"a":{"current-hp":4},"b":{"hp":7}}` the parser reads `a`, detection picks `b`, and after the write the parser still reads 4 |
| CorrectedWriter.DetectionMissesCurrentHp | src/utils/grimoireWriter.ts:111-116 | a token whose only record is `{"a":{"current-hp":4}}` is parsed with hp 4 yet rejected as having no data |
| CorrectedWriter.FlatWriteGoesToBarePrefix | src/utils/grimoireWriter.ts:138-149 | on `{"grimoire/hp":5,"grimoire":{"hp":3}}` the write goes into the bare object and the parser reads 5 back |
| CorrectedWriter.NullTrackerFailsBatch | src/utils/grimoireWriter.ts:138-177 | a null tracker value beside a flat record makes the mutator throw, and the batch reports the update failed and writes nothing |
| CorrectedWriter.NumberTrackerCountsUnwritten | src/utils/grimoireWriter.ts:138-167 | a numeric tracker value beside a flat record is counted as a success while nothing is written |
| CorrectedWriter.WriteRecord | src/utils/grimoireWriter.ts:138-149 | the intended record write sets the field the parser reads and the temp hp, and changes nothing else |
| CorrectedWriter.NestedHpField | src/utils/grimoireParser.ts:99 | names the field whose value the nested parser reads |
| CorrectedWriter.NestedRecordWriteReads | src/utils/grimoireParser.ts:97-113 | writing the field the parser reads makes the record read back max(0, hp) |
| CorrectedWriter.WriteParsed | src/utils/grimoireWriter.ts:134-165 | the intended writer fails exactly when the parser reads nothing |
| CorrectedWriter.WriteParsedRoundTrip | src/utils/grimoireParser.ts:119-146 | for every parseable object, the intended write is read back by the same convention with hp max(0, hp) |
| CorrectedWriter.WriteParsedFrame | src/utils/grimoireWriter.ts:134-165 | the intended write changes and creates only the hp and temp-hp keys of the parsed convention |
| CorrectedWriter.CorrectedApply | src/utils/grimoireWriter.ts:126-170 | the intended callback never throws, keeps the list's length, and rewrites each item independently |
| CorrectedWriter.CorrectedBatch | src/utils/grimoireWriter.ts:89-178 | the intended batch validates with the parser, reports one error per rejected update, writes every item through the intended writer, and reports as success the number of items that have a kept update (`UpdatedCount`) |
| CorrectedWriter.UpdatedCountIsPositions | src/utils/grimoireWriter.ts:128-167 | the success count is the size of the set of positions whose item has an update in the given list |
| CorrectedWriter.CorrectedSuccessCountsWritten | src/utils/grimoireWriter.ts:126-173 | with unique ids, success is the number of positions with a kept update; each of those items reads back max(0, hp) through the parser, and every other item is unchanged, so success counts exactly the written tokens |
| CorrectedWriter.CorrectedAcceptedParse | src/utils/grimoireWriter.ts:103-118 | every update the intended validation keeps names a token the parser reads |
| CorrectedWriter.CorrectedBatchReadsBack | src/utils/grimoireWriter.ts:89-178 | with unique ids, every item with a kept update reads back max(0, hp) by its own convention; all other items are unchanged; only metadata changes |
| HealthBar.MaxHpValue | src/utils/updateHealthBar.ts:32 | the maximum is the parameter, else the first of the record's `maxHp` and `hp` that is neither null nor missing, else 100 |
| HealthBar.MaxHpMatchesParser | src/utils/updateHealthBar.ts:32 | without a parameter, the writer's maximum agrees with the tracker parser's maximum |
| HealthBar.SafeHp | src/utils/updateHealthBar.ts:33 | the stored hp is clamped to [0, max]: unchanged inside, the maximum above, 0 below or for a negative maximum |
| HealthBar.BarWidth | src/utils/updateHealthBar.ts:48-49 | the bar width is 146 × hp / max rounded half up, and 0 for a non-positive maximum |
| HealthBar.BarWidthRange | src/utils/updateHealthBar.ts:4-49 | for a clamped hp the width lies in 0..146, is 0 at 0 hp and 146 at full hp |
| HealthBar.BarWidthMonotone | src/utils/updateHealthBar.ts:48-49 | more hp never gives a narrower bar |
| HealthBar.LabelSplits | src/utils/updateHealthBar.ts:76 | `Label` is the hp's text, one slash, then the maximum's text, and the hp part has no slash, so the shown hp can be read back from the label |
| HealthBar.Display | src/utils/updateHealthBar.ts:32-76 | the shown width and label are those of the clamped hp against the computed maximum |
| HealthBar.WriteTrackerHp | src/utils/updateHealthBar.ts:38-45 | the store callback throws exactly for a truthy non-object tracker value; an object gets `hp` replaced and every other property and key kept; a falsy or absent value is skipped |
| HealthBar.WriteTrackerHpReads | src/utils/updateHealthBar.ts:38-45 | after writing an object record the parser reads the tracker convention with the stored hp |
| HealthBar.WriteTokens | src/utils/updateHealthBar.ts:38-45 | the callback writes every item with the token's id and no other, and throws exactly when one of them throws |
| HealthBar.WriteTokenHp | src/utils/updateHealthBar.ts:38-45 | the store-call loop updates the scene exactly as `WriteTokens` describes, or leaves it as it was when the callback throws |
| HealthBar.SingleUpdate | src/utils/updateHealthBar.ts:6-92 | no token, no tracker data or a failed fetch returns false with nothing changed; true only when no call failed |
| HealthBar.SingleUpdateFrame | src/utils/updateHealthBar.ts:38-45 | only the target token's tracker `hp` can change: every other item, key and record property is kept |
| HealthBar.SingleUpdateStores | src/utils/updateHealthBar.ts:32-45 | without fetch or store faults, an object record is written and reads back the clamped hp; the result is false only when an attachment update fails |
| HealthBar.UpdateTokenHp | src/utils/updateHealthBar.ts:6-92 | the method returns and stores what `SingleUpdate` describes |
| HealthBar.RunBatch | src/utils/updateHealthBar.ts:95-111 | successes and failures add up to the number of updates |
| HealthBar.BatchStep | src/utils/updateHealthBar.ts:101-108 | each update, run against the scene its predecessors left, adds one success or one failure |
| HealthBar.AbsentTokensFail | src/utils/updateHealthBar.ts:16-20 | a batch of updates for absent tokens fails every one and changes nothing |
| HealthBar.UpdateMultipleTokensHp | src/utils/updateHealthBar.ts:95-111 | the sequential loop returns and stores what `RunBatch` describes; success + failed = number of updates |
| DefenseStore.Current | src/stores/defenseStore.ts:5-13 | a stored profile, or `DefaultDefense`: the token's id, no flat armour, empty type-armour and multiplier maps, and the given time |
| DefenseStore.GetDefense | src/stores/defenseStore.ts:38 | a profile is returned exactly when one is stored for the id |
| DefenseStore.SetDefense | src/stores/defenseStore.ts:40-51 | every field the patch gives replaces the current (or default) profile's field; the id and timestamp are set; other tokens are untouched |
| DefenseStore.SetFlatArmor | src/stores/defenseStore.ts:53-61 | only the flat armour changes, to max(0, value); other tokens are untouched |
| DefenseStore.SetArmorByType | src/stores/defenseStore.ts:63-75 | only the type's armour changes, to max(0, value), zero included; other tokens are untouched |
| DefenseStore.RemoveArmorByType | src/stores/defenseStore.ts:77-91 | with a stored profile the type's armour is removed; without one nothing changes |
| DefenseStore.SetMultiplier | src/stores/defenseStore.ts:93-114 | a multiplier of 1 removes the entry, any other value stores it; other types' entries are unchanged |
| DefenseStore.RemoveMultiplier | src/stores/defenseStore.ts:116-130 | with a stored profile the type's multiplier is removed; without one nothing changes |
| DefenseStore.ClearUnit | src/stores/defenseStore.ts:132-135 | the token's profile is removed and no other profile changes |
| DefenseStore.SetOneIsRemove | src/stores/defenseStore.ts:93-130 | setting a multiplier to 1 on a stored profile is removing it; on an absent one it creates the default profile |
| DefenseStore.ClearThenGet | src/stores/defenseStore.ts:38-135 | after clearing, the token has no profile and every other token's profile reads the same |
| DefenseStore.SetThenRemoveArmor | src/stores/defenseStore.ts:63-91 | setting and then removing a new type armour restores the profile, apart from its timestamp |
| DefenseStore.SetMultiplierReads | src/stores/defenseStore.ts:93-114 | a multiplier other than 1 is read back |
| DefenseStore.Store.Get | src/stores/defenseStore.ts:38 | the store's lookup; a profile found is stored under its own token id |
| DefenseStore.Store.SetDefenseOf | src/stores/defenseStore.ts:40-51 | the store's action replaces its profiles by `SetDefense`'s result and keeps every profile under its own id |
| DefenseStore.Store.SetFlatArmorOf | src/stores/defenseStore.ts:53-61 | the store's action replaces its profiles by `SetFlatArmor`'s result and keeps every profile under its own id |
| DefenseStore.Store.SetArmorByTypeOf | src/stores/defenseStore.ts:63-75 | the store's action replaces its profiles by `SetArmorByType`'s result and keeps every profile under its own id |
| DefenseStore.Store.RemoveArmorByTypeOf | src/stores/defenseStore.ts:77-91 | the store's action replaces its profiles by `RemoveArmorByType`'s result and keeps every profile under its own id |
| DefenseStore.Store.SetMultiplierOf | src/stores/defenseStore.ts:93-114 | the store's action replaces its profiles by `SetMultiplier`'s result and keeps every profile under its own id |
| DefenseStore.Store.RemoveMultiplierOf | src/stores/defenseStore.ts:116-130 | the store's action replaces its profiles by `RemoveMultiplier`'s result and keeps every profile under its own id |
| DefenseStore.Store.ClearUnitOf | src/stores/defenseStore.ts:132-135 | the store's action replaces its profiles by `ClearUnit`'s result and keeps every profile under its own id |
| AppStore.Stamp | src/stores/appStore.ts:54-58 | the stored event carries the given id and time, and removing them gives back exactly the caller's event |
| AppStore.Push | src/stores/appStore.ts:52-61 | the new event comes first, then the old history, cut to 50 events |
| AppStore.PushAll | src/stores/appStore.ts:52-61 | a history of at most 50 events stays within 50 |
| AppStore.EventSurvives | src/stores/appStore.ts:52-61 | an event moves down one place per later event and is still present after fewer than 50 of them |
| AppStore.Partialize | src/stores/appStore.ts:104-107 | the persisted history is the first min(50, n) events, unchanged when there are at most 50, with the debug flag |
| AppStore.Combine | src/stores/appStore.ts:73-98 | the name comes from the record when it has a non-empty one, else the token's; hp, maxHp, tempHp, mana and maxMana come from the record, or zero and absent mana without one; flat armour, type armour and multipliers come from the profile, or zero and empty without one; the two flags say which exist |
| AppStore.CombinedUnits | src/stores/appStore.ts:70-100 | one merged unit per selected token, in order |
| AppStore.CombinedDefenseFlags | src/stores/appStore.ts:70-100 | a unit is flagged as defended exactly when the store holds a profile for it, and then carries that profile's type armour |
| AppStore.Store.Persist | src/stores/appStore.ts:104-107 | a store within its 50-event bound persists its whole history and debug flag |
| AppStore.Store.AddHistoryEvent | src/stores/appStore.ts:52-61 | the stamped event is pushed and the 50-event bound is kept |
| AppStore.Store.ClearHistory | src/stores/appStore.ts:63 | the history becomes empty and nothing else changes |
| AppStore.Store.ToggleDebugMode | src/stores/appStore.ts:67 | the debug flag flips and nothing else changes |
| AppStore.Store.SetSelectedTokens | src/stores/appStore.ts:47 | the selection becomes the given tokens; the history and debug flag are unchanged |
| AppStore.Store.GetCombinedUnits | src/stores/appStore.ts:70-100 | one merged unit per selected token, in order, each merged with the defence store's current profile for its id |
| UseObr.ToToken | src/hooks/useOBR.ts:30-38 | a token takes the item's id, image and position, its parsed record, and its name or «Безымянный» |
| UseObr.TokensOf | src/hooks/useOBR.ts:28-39 | one token per image item |
| UseObr.TokensSound | src/hooks/useOBR.ts:28-39 | every loaded token comes from an image item |
| UseObr.TokensOfAppend | src/hooks/useOBR.ts:28-39 | one more item appends its token, when it is an image, after the tokens already loaded: the tokens keep the items' order |
| UseObr.TokensComplete | src/hooks/useOBR.ts:28-39 | every image item's token is loaded |
| UseObr.LoadSelectedTokens | src/hooks/useOBR.ts:14-47 | tokens are kept before the host is ready and after a failed fetch, cleared for an empty selection, and loaded otherwise |
| UseObr.RefreshToken | src/hooks/useOBR.ts:79-93 | a token whose item changed takes the item's record, and its name unless that is empty; any other token is unchanged |
| UseObr.RefreshTokens | src/hooks/useOBR.ts:77-94 | every token is refreshed in place, in order |
| UseObr.RefreshIdempotent | src/hooks/useOBR.ts:77-94 | handling the same change twice gives what handling it once gave |
| UseObr.RefreshAfterLoad | src/hooks/useOBR.ts:14-94 | with unique ids, refreshing freshly loaded tokens from the same items changes nothing |
| UseObr.SelectedUnit | src/hooks/useOBR.ts:103-128 | the hook's merge is the store's merge, except that without a profile the flat armour is the record's armour |
| UseObr.SelectedUnits | src/hooks/useOBR.ts:103-128 | one merged unit per selected token, in order |
| UseObr.MergesDiffer | src/hooks/useOBR.ts:120 | the hook's and the store's merges differ only in flat armour, and only for a token without a profile whose record has non-zero armour |

## Left out

- Floating point. Hit points, armour and raw damage are integers. Multipliers are
  exact reals, and `Math.floor(raw × multiplier)` is the exact floor. The bar
  width is the exact rational `146 × hp / max` rounded half up, so no binary
  rounding error is modelled.
- `Number()` and `String()` of metadata values are exact for numbers, booleans
  and null. `ToNumber` maps strings, arrays and objects to 0, so a numeric string
  such as `"12"` reads as 0. `ToText` renders an array as "".
- Integer-like metadata keys (`"0"`, `"12"`): JavaScript lists them first, in
  ascending numeric order, ahead of the other keys. The model keeps insertion
  order for every key, so for a record stored under such a key the choice of
  `NestedScan` and `DetectNested` can differ from the source's.
- The host SDK (`getItems`, `updateItems`, `getSelection`, `onChange`, `onReady`):
  the scene is an item list, and each call that can fail is a fault parameter.
  The asynchronous interleaving of those calls with other clients is left out.
- HealthBar.SingleUpdate: the bar and label attachments are not items of the
  model. Their width and text are computed by `Display`. Finding them and storing
  into them is a single possible-fault flag.
- `updateTokenHealthBar` and `debugTokenAttachments` in `src/utils/grimoireWriter.ts`
  only touch attached bar items and the console, and they are not part of this
  model. The first catches its own errors and its return value is ignored, so it
  never changes what `updateTokenHp` returns. The bar items it rescales and
  annotates are not modelled: GrimoireWriter.UpdateTokenHp changes only the
  token's own metadata.
- Console output, `persist` to localStorage, and the state's React
  subscriptions. `Store.Persist` gives the persisted slice only.
- `setObrReady` and `setIsGm` are plain field setters, and they are not part of
  this model. The readiness flag is a parameter of `UseObr.LoadSelectedTokens`.
- Event ids (`uuidv4()` from the `uuid` package) and `Date.now` timestamps are parameters of
  `AppStore.Stamp` and of every defence-store operation.
- `createHistoryEvent` only assembles its arguments into a record. It is the
  `HistoryInput` constructor and has no contract of its own.
- DefenseStore.SetDefense: a patch is `Option` per field. A TypeScript patch that
  sets a field to `undefined` explicitly would overwrite the field with
  `undefined`, and that case is not modelled.
- `DamageResult.maxHp` is declared in `src/types/index.ts:95` but never set by
  the calculator, so the model's result has no such field.
- UI components (`MassCalculator`'s apply handler, the panels, the combat log),
  `useIsGM` and `useObrIntegration` are outside the core.
- UseObr.TokensOf: its own contract states only the length. Soundness,
  completeness and order are the separate lemmas `UseObr.TokensSound`,
  `UseObr.TokensComplete` and `UseObr.TokensOfAppend`.
- HealthBar.RunBatch: its own contract states only the count. The per-update
  effect is `HealthBar.BatchStep`.
- AppStore.PushAll: its own contract states only the length bound. Positions are
  in `AppStore.EventSurvives`.

## Notable code behaviours

The model follows the code on these points:

- the damage-type union has 20 members, although the comment above it
  (src/types/index.ts:1) says 19;
- the generic writer clamps the new hp only at 0 (`Math.max(0, …)` at
  src/utils/grimoireWriter.ts:43, 59, 142 and 154), while
  src/utils/updateHealthBar.ts:33 clamps it to [0, max];
- `setArmorByType` stores an armour value of 0 like any other value
  (src/stores/defenseStore.ts:63-75), where `setMultiplier` drops a value of 1;
- a nested record whose `current-hp` is null is accepted, because `hp ??
  currentHp ?? current-hp` (src/utils/grimoireParser.ts:99) is then null, not
  undefined, and reads as 0 hp;
- the writer's `!prefix` tests (src/utils/grimoireWriter.ts:29, 112 and 135)
  treat a record detected under the empty key as missing, which the parser
  does not.

## Findings

The generic writer in `src/utils/grimoireWriter.ts` re-detects the convention
with `detectGrimoirePrefix`, whose rules differ from `parseGrimoireData`'s, and it
treats any object at the detected key as a nested record. Each row's as-written
member exhibits the discrepancy on a concrete input. Each row's corrected member
proves the intended property of a writer that stores the hp where the parser
reads it. That writer is `CorrectedWriter.WriteParsed`, used per item by
`CorrectedWriter.CorrectedBatch`.

| source | as written | input that shows it | evidently intended | confidence | as-written member | corrected member |
|---|---|---|---|---|---|---|
| src/utils/grimoireParser.ts:167-175 | nested detection takes the first object with `hp` or `currentHp`, while parsing takes the first object whose `hp ?? currentHp ?? current-hp` is defined | `{"a":{"current-hp":4},"b":{"hp":7}}` | the write goes to the record the overlay displays | not executed | CorrectedWriter.NestedWriteMissesParsedRecord | CorrectedWriter.WriteParsedRoundTrip |
| src/utils/grimoireWriter.ts:111-116 | a record carrying only `current-hp` is parsed but never detected, so every update to it is rejected as "No Grimoire data" | `{"a":{"current-hp":4}}` | a token the overlay shows hp for can be written | not executed | CorrectedWriter.DetectionMissesCurrentHp | CorrectedWriter.CorrectedBatchReadsBack |
| src/utils/grimoireWriter.ts:138-149 | a flat prefix whose bare key also holds an object is written as a nested record | `{"grimoire/hp":5,"grimoire":{"hp":3}}` | the flat `grimoire/hp` the parser reads is written | not executed | CorrectedWriter.FlatWriteGoesToBarePrefix | CorrectedWriter.WriteParsedRoundTrip |
| src/utils/grimoireWriter.ts:138-177 | a tracker key holding null is detected, and `'hp' in null` then throws, failing the whole batch | `{"com.bitperfect-software.hp-tracker/data":null,"grimoire/hp":5}` | the flat record the parser fell through to is written | not executed | CorrectedWriter.NullTrackerFailsBatch | CorrectedWriter.CorrectedBatchReadsBack |
| src/utils/grimoireWriter.ts:138-167 | a tracker key holding a number is detected; the flat branch then finds no hp key, writes nothing, and still counts a success | `{"com.bitperfect-software.hp-tracker/data":5,"grimoire/hp":5}` | the flat record is written, and success counts only written tokens | not executed | CorrectedWriter.NumberTrackerCountsUnwritten | CorrectedWriter.CorrectedBatchReadsBack |
