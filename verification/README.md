# PharmaLink in Dafny

PharmaLink tracks medicines along a supply chain on a Hyperledger Fabric ledger. Manufacturers
(`hersteller`) register medications (`Medikament`). An authority (`behoerde`) approves or
rejects them. Approved medications are split into numbered units of a charge. Units pass from
owner to owner: wholesaler (`grosshaendler`), pharmacy (`apotheke`), consumer. A Spring backend
mirrors the ledger in memory and answers searches. A Next.js frontend shows product passports,
caches data and keeps a search history.

This project models three parts of that system as pure Dafny functions and proves properties
about them:

- **The chaincode** `PharmaSupplyChainContract` (modules `Ledger` and `LedgerProperties`).
  The world state is a map from keys to records. Each state-changing transaction maps a state
  and the caller's identity either to the committed new state, with the events it set and the
  JSON it returns, or to the error code it throws. A thrown error commits nothing.
- **The frontend logic** (TypeScript):
  - the search in a passport's JSON tree (`JsonSearch`);
  - the data services and caches (`DataService`, `LinkedIds`, `CachedDataService`, `TtlCache`,
    `ComponentCache`);
  - the preloaders (`Preloader`, `ComponentPreloader`);
  - meta pop-ups and delivery notes (`MetaPopups`, `Delivery`, both built on `SentinelWalk`);
  - the search history and suggestions (`SearchHistory`, `SearchPrefix`, `SuggestionList`);
  - key history and key paths (`KeyHistory`, `KeyPathDisplay`);
  - the passport tabs (`PassportTabs`);
  - the configuration (`Config`).
- **The backend logic** (Java):
  - the records it caches (`Domain`) and the in-memory state cache with its event handling
    (`StateCache`);
  - the search service (`SearchService`);
  - the reconciliation of the caller's actor (`ActorReconcile`);
  - the actor DTO's role (`ActorRole`);
  - the error-message constants (`ErrorMessages`).

Shared helpers:

- `Wrappers`: `Option` and `Result`.
- `Text`: ASCII case mapping, trimming, prefixes, decimals, split and join.
- `Seqs`: filtering and taking.
- `Sorting`: a stable sort by rank.
- `OrderedMap`: the insertion order of a JavaScript `Map`.
- `Json`: a JSON tree with JavaScript truthiness.

Calls the model cannot see become parameters:

- SHA-256 is a function `sha`.
- The clock is a `now` argument.
- The answers of HTTP calls are arguments.
- A props hash is an argument.
- Object identity is an `identical` oracle.
- `JSON.parse` and date parsing are `parse` and `time` functions.

## Model

| member | source | states |
|---|---|---|
| Ledger.UnitKeyInjective | chaincode/pharmalink_chaincode_main/src/main/java/de/jklein/fabric/PharmaSupplyChainContract.java:809 | two unit numbers of one charge give the same `medId-charge-%04d` key exactly when they are equal (padding to four digits; wider numbers are written out) |
| Ledger.GetActor | chaincode/pharmalink_chaincode_main/src/main/java/de/jklein/fabric/PharmaSupplyChainContract.java:153-161 | reading an actor fails with the given code when the key is absent, succeeds exactly when the key holds an actor, and returns that actor |
| Ledger.GetMed | chaincode/pharmalink_chaincode_main/src/main/java/de/jklein/fabric/PharmaSupplyChainContract.java:694-704 | reading a medication fails with MEDIKAMENT_NOT_FOUND when the key is absent, succeeds exactly when the key holds a medication, and returns it |
| Ledger.GetUnit | chaincode/pharmalink_chaincode_main/src/main/java/de/jklein/fabric/PharmaSupplyChainContract.java:928-936 | reading a unit fails with UNIT_NOT_FOUND when the key is absent, succeeds exactly when the key holds a unit, and returns it |
| Ledger.GetCounter | chaincode/pharmalink_chaincode_main/src/main/java/de/jklein/fabric/PharmaSupplyChainContract.java:798-802 | a medication without a stored unit counter counts from 0; otherwise the stored value is used |
| Ledger.CertRole | chaincode/pharmalink_chaincode_main/src/main/java/de/jklein/fabric/PharmaSupplyChainContract.java:77-86 | the role is missing (MISSING_CERT_ATTRIBUTE) exactly when the attribute is absent or empty; otherwise it is the part before the first colon (the attribute starts with it followed by `:`), and the whole attribute when it has no colon |
| Ledger.CallingActor | chaincode/pharmalink_chaincode_main/src/main/java/de/jklein/fabric/PharmaSupplyChainContract.java:73-97 | the caller resolves only to the actor stored under `lower(role)-sha(msp-client)`; without a stored actor there it fails with ACTOR_NOT_FOUND |
| Ledger.CallerWithRole | chaincode/pharmalink_chaincode_main/src/main/java/de/jklein/fabric/PharmaSupplyChainContract.java:106-114 | the role check passes exactly when the caller resolves and its stored role equals the required one ignoring case; otherwise it fails with UNAUTHORIZED_ACCESS |
| Ledger.InitCall | chaincode/pharmalink_chaincode_main/src/main/java/de/jklein/fabric/PharmaSupplyChainContract.java:260-344 | registration succeeds exactly when the role attribute names one of the four supply-chain roles and the actor key holds no record of another kind; a new identity gets an actor with the lower-case role and a CREATED event; a known one keeps its id and role, gets its name, e-mail and link refreshed, with an UPDATED event when anything changed and no event and no write otherwise |
| Ledger.CreateActor | chaincode/pharmalink_chaincode_main/src/main/java/de/jklein/fabric/PharmaSupplyChainContract.java:128-142 | an authority creates an actor under an unused id; an existing id fails with ACTOR_ALREADY_EXISTS; success stores exactly that actor with a CREATED event |
| Ledger.UpdateActor | chaincode/pharmalink_chaincode_main/src/main/java/de/jklein/fabric/PharmaSupplyChainContract.java:175-200 | succeeds exactly when the actor exists and the caller is that actor or an authority; replaces name, role, e-mail and link and keeps the id |
| Ledger.UpdateActorIpfsLink | chaincode/pharmalink_chaincode_main/src/main/java/de/jklein/fabric/PharmaSupplyChainContract.java:446-475 | only the actor itself may change its link; success changes the link and nothing else |
| Ledger.DeleteActor | chaincode/pharmalink_chaincode_main/src/main/java/de/jklein/fabric/PharmaSupplyChainContract.java:210-218 | an authority deletes an existing key; success removes exactly that key and emits DELETED |
| Ledger.CreateMedikament | chaincode/pharmalink_chaincode_main/src/main/java/de/jklein/fabric/PharmaSupplyChainContract.java:492-527 | only a manufacturer creates; the id is `MED-` plus the hash of the four fields; an existing id fails; success stores the medication in status `angelegt` with a zero unit counter |
| Ledger.ApproveMedikament | chaincode/pharmalink_chaincode_main/src/main/java/de/jklein/fabric/PharmaSupplyChainContract.java:544-575 | only an authority may approve, and only to `freigegeben` or `abgelehnt` (ignoring case); any other status fails with INVALID_MEDIKAMENT_STATUS_CHANGE; success records the status and the approver |
| Ledger.UpdateMedikament | chaincode/pharmalink_chaincode_main/src/main/java/de/jklein/fabric/PharmaSupplyChainContract.java:593-626 | only the medication's manufacturer updates; each of the three fields changes only when the new value is non-empty |
| Ledger.AddMedikamentTag | chaincode/pharmalink_chaincode_main/src/main/java/de/jklein/fabric/PharmaSupplyChainContract.java:646-679 | a manufacturer (its own medication) sets the `hersteller` tag, an authority the `behoerde` tag; other roles fail; other tags are kept |
| Ledger.DeleteMedikament | chaincode/pharmalink_chaincode_main/src/main/java/de/jklein/fabric/PharmaSupplyChainContract.java:742-763 | an authority, or the manufacturer while the status is `angelegt`, deletes the medication together with its unit counter |
| Ledger.MintUnits | chaincode/pharmalink_chaincode_main/src/main/java/de/jklein/fabric/PharmaSupplyChainContract.java:806-820 | a successful loop advances the counter by the number of iterations and yields one unit and one event per iteration; a failure is UNIT_ALREADY_EXISTS |
| Ledger.CreateUnits | chaincode/pharmalink_chaincode_main/src/main/java/de/jklein/fabric/PharmaSupplyChainContract.java:779-826 | success needs an existing, approved medication whose manufacturer is the caller; the counter grows by `anzahl` (none when not positive) and as many units are returned and announced |
| Ledger.AddTemperatureReading | chaincode/pharmalink_chaincode_main/src/main/java/de/jklein/fabric/PharmaSupplyChainContract.java:840-861 | only the owner appends a reading; success appends exactly that reading and changes nothing else |
| Ledger.HandOver | chaincode/pharmalink_chaincode_main/src/main/java/de/jklein/fabric/PharmaSupplyChainContract.java:896-907 | a hand-over sets owner, consumed flag and consumer reference, appends the transfer entry from the old owner, and keeps every other field |
| Ledger.TransferUnit | chaincode/pharmalink_chaincode_main/src/main/java/de/jklein/fabric/PharmaSupplyChainContract.java:875-916 | only the owner transfers, to an existing actor; a pharmacy or consumer recipient marks the unit consumed |
| Ledger.MoveUnits | chaincode/pharmalink_chaincode_main/src/main/java/de/jklein/fabric/PharmaSupplyChainContract.java:1121-1150 | the batch loop fails only with UNIT_NOT_FOUND or UNAUTHORIZED_ACCESS, keeps the set of keys, and yields one unit and event per number of the range |
| Ledger.TransferUnitsInBatch | chaincode/pharmalink_chaincode_main/src/main/java/de/jklein/fabric/PharmaSupplyChainContract.java:1089-1159 | success needs a registered caller and recipient, an existing medication and `0 < start <= end`; a missing medication or a bad range fail with their codes; the keys are unchanged and `end - start + 1` units are returned |
| Ledger.TransferUnitToConsumer | chaincode/pharmalink_chaincode_main/src/main/java/de/jklein/fabric/PharmaSupplyChainContract.java:1177-1204 | succeeds exactly when a pharmacy hands over a unit it owns that is not yet consumed; a consumed unit fails with INVALID_ARGUMENT; the unit becomes consumed by the consumer reference |
| LedgerProperties.CounterKeyNotUnitKey | chaincode/pharmalink_chaincode_main/src/main/java/de/jklein/fabric/PharmaSupplyChainContract.java:806-823 | the key of a medication's unit counter is never the key of one of its units, so writing the counter after the loop overwrites no unit |
| LedgerProperties.MintUnitsKeepsExisting | chaincode/pharmalink_chaincode_main/src/main/java/de/jklein/fabric/PharmaSupplyChainContract.java:806-820 | the minting loop never alters or removes a key that was already there |
| LedgerProperties.MintUnitsCreates | chaincode/pharmalink_chaincode_main/src/main/java/de/jklein/fabric/PharmaSupplyChainContract.java:806-820 | every number after the counter, up to the number of iterations, gets a fresh unit owned by the caller |
| LedgerProperties.MintUnitsYields | chaincode/pharmalink_chaincode_main/src/main/java/de/jklein/fabric/PharmaSupplyChainContract.java:815-819 | the minted units are returned and announced as CREATED in number order |
| LedgerProperties.MintUnitsOnlyNew | chaincode/pharmalink_chaincode_main/src/main/java/de/jklein/fabric/PharmaSupplyChainContract.java:806-820 | every key minting adds is the key of a unit number in the minted range |
| LedgerProperties.MintUnitsSucceedsIffFree | chaincode/pharmalink_chaincode_main/src/main/java/de/jklein/fabric/PharmaSupplyChainContract.java:810-812 | the minting loop succeeds exactly when none of the keys it will use is taken |
| LedgerProperties.CreateUnitsAllOrNothing | chaincode/pharmalink_chaincode_main/src/main/java/de/jklein/fabric/PharmaSupplyChainContract.java:782-823 | `createUnits` succeeds exactly when its checks pass and none of the unit numbers after the counter is taken |
| LedgerProperties.CreateUnitsIsMint | chaincode/pharmalink_chaincode_main/src/main/java/de/jklein/fabric/PharmaSupplyChainContract.java:798-823 | a successful `createUnits` is the minting loop from the stored counter followed by writing the new counter |
| LedgerProperties.CreateUnitsCreates | chaincode/pharmalink_chaincode_main/src/main/java/de/jklein/fabric/PharmaSupplyChainContract.java:806-820 | a successful `createUnits` stores a fresh unit, owned by the caller, under every number after the old counter |
| LedgerProperties.CreateUnitsReturns | chaincode/pharmalink_chaincode_main/src/main/java/de/jklein/fabric/PharmaSupplyChainContract.java:815-825 | a successful `createUnits` returns and announces the new units in number order |
| LedgerProperties.CreateUnitsFrame | chaincode/pharmalink_chaincode_main/src/main/java/de/jklein/fabric/PharmaSupplyChainContract.java:806-823 | a successful `createUnits` keeps every other key and adds only the counter and the new units |
| LedgerProperties.MoveUnitsFrame | chaincode/pharmalink_chaincode_main/src/main/java/de/jklein/fabric/PharmaSupplyChainContract.java:1121-1150 | the batch loop leaves every key outside the batch as it was |
| LedgerProperties.MoveUnitsSucceedsIff | chaincode/pharmalink_chaincode_main/src/main/java/de/jklein/fabric/PharmaSupplyChainContract.java:1124-1133 | the batch loop succeeds exactly when every unit of the range exists and belongs to the caller |
| LedgerProperties.MoveUnitsHandsOver | chaincode/pharmalink_chaincode_main/src/main/java/de/jklein/fabric/PharmaSupplyChainContract.java:1135-1145 | a successful loop hands every unit of the range to the new owner with the consumed flag of the recipient's role |
| LedgerProperties.MoveUnitsYields | chaincode/pharmalink_chaincode_main/src/main/java/de/jklein/fabric/PharmaSupplyChainContract.java:1145-1149 | the loop returns and announces the handed-over units in number order |
| LedgerProperties.MoveUnitsReturnsAt | chaincode/pharmalink_chaincode_main/src/main/java/de/jklein/fabric/PharmaSupplyChainContract.java:1145-1146 | the unit numbered `n` is returned at position `n - start` |
| LedgerProperties.MoveUnitsAnnouncesAt | chaincode/pharmalink_chaincode_main/src/main/java/de/jklein/fabric/PharmaSupplyChainContract.java:1148-1149 | the UPDATED event of unit `n` is at position `n - start` |
| LedgerProperties.BatchAllOrNothing | chaincode/pharmalink_chaincode_main/src/main/java/de/jklein/fabric/PharmaSupplyChainContract.java:1089-1159 | a batch transfer succeeds exactly when caller and recipient are registered, the medication exists, the range is valid and every unit in it belongs to the caller |
| LedgerProperties.BatchEffect | chaincode/pharmalink_chaincode_main/src/main/java/de/jklein/fabric/PharmaSupplyChainContract.java:1121-1150 | a successful batch gives every unit of the range to the recipient, consumed exactly when the recipient is a pharmacy or consumer, and leaves all other keys alone |
| LedgerProperties.MoveUnitsKeepsConsistent | chaincode/pharmalink_chaincode_main/src/main/java/de/jklein/fabric/PharmaSupplyChainContract.java:1121-1150 | the batch loop keeps every record named by its key and every consumed unit's reference equal to its owner |
| LedgerProperties.CreateUnitsKeepsConsistent | chaincode/pharmalink_chaincode_main/src/main/java/de/jklein/fabric/PharmaSupplyChainContract.java:779-826 | `createUnits` keeps the state consistent |
| LedgerProperties.SubmitKeepsConsistent | chaincode/pharmalink_chaincode_main/src/main/java/de/jklein/fabric/PharmaSupplyChainContract.java:128-1204 | every transaction keeps the state consistent: records live under their own ids and a consumed unit is owned by its consumer reference |
| LedgerProperties.BatchTxKeepsConsistent | chaincode/pharmalink_chaincode_main/src/main/java/de/jklein/fabric/PharmaSupplyChainContract.java:1089-1159 | the batch transaction keeps the state consistent |
| LedgerProperties.ActorTxKeepsConsistent | chaincode/pharmalink_chaincode_main/src/main/java/de/jklein/fabric/PharmaSupplyChainContract.java:128-475 | the actor transactions keep the state consistent |
| LedgerProperties.MedTxKeepsConsistent | chaincode/pharmalink_chaincode_main/src/main/java/de/jklein/fabric/PharmaSupplyChainContract.java:492-763 | the medication transactions keep the state consistent |
| LedgerProperties.UnitTxKeepsConsistent | chaincode/pharmalink_chaincode_main/src/main/java/de/jklein/fabric/PharmaSupplyChainContract.java:840-1204 | the single-unit transactions keep the state consistent |
| LedgerProperties.InitCallRegisters | chaincode/pharmalink_chaincode_main/src/main/java/de/jklein/fabric/PharmaSupplyChainContract.java:318-342 | after `initCall` the submitting identity resolves to the actor it returned |
| LedgerProperties.InitCallActorId | chaincode/pharmalink_chaincode_main/src/main/java/de/jklein/fabric/PharmaSupplyChainContract.java:293-295 | in a consistent state the actor `initCall` returns is named by, and stored under, `lower(role)-sha(msp-client)` |
| LedgerProperties.InitCallIdempotent | chaincode/pharmalink_chaincode_main/src/main/java/de/jklein/fabric/PharmaSupplyChainContract.java:304-329 | repeating `initCall` with the same details changes nothing, returns the same actor and emits no event |
| LedgerProperties.OnlyApprovalChangesStatus | chaincode/pharmalink_chaincode_main/src/main/java/de/jklein/fabric/PharmaSupplyChainContract.java:492-1204 | only `approveMedikament` changes the status of a stored medication |
| LedgerProperties.BatchTxKeepsStatuses | chaincode/pharmalink_chaincode_main/src/main/java/de/jklein/fabric/PharmaSupplyChainContract.java:1089-1159 | a batch transfer changes no medication's status |
| LedgerProperties.CreateUnitsKeepsStatuses | chaincode/pharmalink_chaincode_main/src/main/java/de/jklein/fabric/PharmaSupplyChainContract.java:779-826 | `createUnits` changes no medication's status |
| LedgerProperties.BatchKeepsStatuses | chaincode/pharmalink_chaincode_main/src/main/java/de/jklein/fabric/PharmaSupplyChainContract.java:1121-1150 | the batch loop changes no medication's status |
| LedgerProperties.ActorTxKeepsStatuses | chaincode/pharmalink_chaincode_main/src/main/java/de/jklein/fabric/PharmaSupplyChainContract.java:128-475 | the actor transactions change no medication's status |
| LedgerProperties.MedTxKeepsStatuses | chaincode/pharmalink_chaincode_main/src/main/java/de/jklein/fabric/PharmaSupplyChainContract.java:492-763 | the medication transactions other than approval change no status |
| LedgerProperties.UnitTxKeepsStatuses | chaincode/pharmalink_chaincode_main/src/main/java/de/jklein/fabric/PharmaSupplyChainContract.java:840-1204 | the single-unit transactions change no medication's status |
| LedgerProperties.NewMedikamentHasNoUnits | chaincode/pharmalink_chaincode_main/src/main/java/de/jklein/fabric/PharmaSupplyChainContract.java:795-797 | a medication just created is not approved, so no units can be created for it yet |
| LedgerProperties.CreateMedikamentTwiceFails | chaincode/pharmalink_chaincode_main/src/main/java/de/jklein/fabric/PharmaSupplyChainContract.java:502-512 | the id depends only on manufacturer and fields, so creating the same medication twice fails with MEDIKAMENT_ALREADY_EXISTS |
| LedgerProperties.ActorKeyIsNoMedKey | chaincode/pharmalink_chaincode_main/src/main/java/de/jklein/fabric/PharmaSupplyChainContract.java:88-90 | an actor key (lower-case role, a dash, a hash) is never a `MED-` medication id nor a `unitCounter_` counter key, so creating a medication never overwrites the caller |
| LedgerProperties.PharmacyReceiptIsFinal | chaincode/pharmalink_chaincode_main/src/main/java/de/jklein/fabric/PharmaSupplyChainContract.java:1190-1192 | a unit handed to a pharmacy is consumed, so it can no longer be handed to a consumer |
| JsonSearch.SearchInJson | frontend/components/passport/enhanced-json-display.tsx:152-245 | a blank (all-whitespace) query finds nothing |
| JsonSearch.WalkIsReport | frontend/components/passport/enhanced-json-display.tsx:167-195 | the recursive search reports, in order, exactly the hits of every object member of the document in depth-first pre-order (each member before the members nested in its value; array elements by index) |
| JsonSearch.WalkFieldsIsReport | frontend/components/passport/enhanced-json-display.tsx:169-190 | the walk over an object's members reports each member's hits and then those of its nested members, member by member |
| JsonSearch.WalkItemsIsReport | frontend/components/passport/enhanced-json-display.tsx:191-194 | the walk over an array reports the members of each element in index order, with the index as path segment |
| JsonSearch.MembersPaths | frontend/components/passport/enhanced-json-display.tsx:167-195 | every enumerated member's path extends the starting path and ends with the member's own key |
| JsonSearch.FieldMembersPaths | frontend/components/passport/enhanced-json-display.tsx:170 | the members of an object's fields have paths extending the object's path and ending at their keys |
| JsonSearch.ItemMembersPaths | frontend/components/passport/enhanced-json-display.tsx:193 | the members inside array elements have paths extending the array's path and ending at their keys |
| JsonSearch.ReportOrigins | frontend/components/passport/enhanced-json-display.tsx:176-226 | every reported result comes from some member: same path and same key |
| JsonSearch.HitsName | frontend/components/passport/enhanced-json-display.tsx:176-226 | every hit of a member carries the member's path and key |
| JsonSearch.ReportPathsEndAtKey | frontend/components/passport/enhanced-json-display.tsx:167-238 | reporting members whose paths end at their keys gives results whose paths end at their `fullKey` |
| JsonSearch.WalkPathsEndAtKey | frontend/components/passport/enhanced-json-display.tsx:152-245 | every result of a walk from the root has a non-empty path whose last element is its `fullKey` |
| JsonSearch.ResultPathsEndAtKey | frontend/components/passport/enhanced-json-display.tsx:152-245 | every result of `searchInJson` has a path ending with its `fullKey` |
| JsonSearch.KeyValueReportShape | frontend/components/passport/enhanced-json-display.tsx:173-183 | in `key:value` mode every result is a key match whose key contains the key part and whose shown value contains the value part (both trimmed, lower-cased) |
| JsonSearch.KeyValueReportComplete | frontend/components/passport/enhanced-json-display.tsx:173-183 | in `key:value` mode a member is reported exactly when its key and shown value match |
| JsonSearch.KeyValueSearch | frontend/components/passport/enhanced-json-display.tsx:160-198 | a query matching `^(.+?):(.+)$` yields only key matches, one for each member whose key and value match, and none for the others |
| JsonSearch.PlainReportShape | frontend/components/passport/enhanced-json-display.tsx:206-227 | in plain mode every result is a key match showing a key that contains the lowered query, or a value match showing a shown value that contains it |
| JsonSearch.PlainReportComplete | frontend/components/passport/enhanced-json-display.tsx:206-227 | in plain mode a member gives a key match exactly when its lowered key contains the query and a value match exactly when its lowered shown value does |
| JsonSearch.PlainSearch | frontend/components/passport/enhanced-json-display.tsx:152-245 | a plain query yields, for each member, a key match exactly when its key contains the lowered query and a value match exactly when its shown value does; an array or object value never matches as a value; nothing else is reported |
| JsonSearch.SearchIgnoresQueryCase | frontend/components/passport/enhanced-json-display.tsx:155-165 | lower-casing the query does not change the results |
| JsonSearch.PrimitiveRootNoResults | frontend/components/passport/enhanced-json-display.tsx:167-195 | a document whose root is neither an object nor an array yields no results |
| JsonSearch.ClassifiersIgnoreCase | frontend/components/passport/enhanced-json-display.tsx:144-150 | URL and product-id detection (`MED-`, `HERSTELLER-`, `UNIT-` followed by a character) ignore case |
| Text.SplitKeyValueMatches | frontend/components/passport/enhanced-json-display.tsx:160 | the split of a query into key and value succeeds with `(k, v)` exactly when `^(.+?):(.+)$` matches with `k` before the first colon after position 0 and `v` non-empty after it |
| Text.PadZerosValue | chaincode/pharmalink_chaincode_main/src/main/java/de/jklein/fabric/PharmaSupplyChainContract.java:809 | the four-digit zero-padded unit number reads back as the number |
| Text.PadZerosInjective | chaincode/pharmalink_chaincode_main/src/main/java/de/jklein/fabric/PharmaSupplyChainContract.java:809 | zero padding to a fixed width is injective |
| DataService.FindSimilar | frontend/lib/data-service.ts:533 | the correction is the first key in table order that contains the id ignoring case; none when no key does |
| DataService.LocalLookup | frontend/lib/data-service.ts:527-550 | the local answer has data exactly when it has no error; a miss reports `ID "<id>" not found in local data` and no links; a correction is a key of the table other than the id; data comes with its linked ids |
| DataService.LocalExactHit | frontend/lib/data-service.ts:530-532 | an id that holds a document is answered with that document and no correction |
| DataService.LocalCorrected | frontend/lib/data-service.ts:532-547 | on an exact miss the first key containing the id answers, reported as the corrected id when it differs |
| DataService.LocalEmptyIdMatchesFirst | frontend/lib/data-service.ts:533 | the empty id is contained in every key, so it resolves to the first entry of the table |
| DataService.LocalMiss | frontend/lib/data-service.ts:540-547 | with no key containing the id the answer is the fixed message with no data, no links and no correction |
| DataService.LocalFindsIffSimilar | frontend/lib/data-service.ts:529-544 | when every entry is a document, data is found exactly when some key contains the id ignoring case |
| DataService.ApiLookup | frontend/lib/data-service.ts:553-585 | an error or an exception becomes `null` data with the error (`Unknown API error` for a non-Error throw) and is never rethrown; otherwise data, timestamp and cache flag are passed on with the linked ids, and the reported `correctedId || corrected_id` is passed on exactly when it differs from the id |
| DataService.GetDataById | frontend/lib/data-service.ts:523-586 | the data source selects the local or the API branch |
| DataService.IsValidId | frontend/lib/data-service.ts:591-596 | locally an id is valid exactly when it is a key of the table; otherwise exactly when it is `MED-`, `HERSTELLER-` or `UNIT-` followed by a character |
| DataService.ValidLocalIdResolves | frontend/lib/data-service.ts:591-594 | a locally valid id is looked up exactly: it yields its document with no correction |
| DataService.ValidApiIdIsProductId | frontend/lib/data-service.ts:595 | an id valid for the API is also shown as a product id by the document viewer |
| LinkedIds.SearchIsNoteAll | frontend/lib/data-service.ts:504-516 | the search notes exactly the document's string values, in depth-first order |
| LinkedIds.SearchItemsIsNoteAll | frontend/lib/data-service.ts:512 | an array's strings are noted element by element |
| LinkedIds.SearchFieldsIsNoteAll | frontend/lib/data-service.ts:513 | an object's strings are noted value by value |
| LinkedIds.NoteAllAppend | frontend/lib/data-service.ts:504-511 | noting two runs of strings is noting the first run, then the second |
| LinkedIds.KeysIgnored | frontend/lib/data-service.ts:513 | object keys play no part: objects with the same values in the same order give the same links |
| LinkedIds.FirstWithPrefix | frontend/lib/data-service.ts:506-507 | the first string with the prefix: it has the prefix and occurs at a position before which no string has it; none exactly when no string has it |
| LinkedIds.PrefixesExclusive | frontend/lib/data-service.ts:506-507 | no string starts with both `MED-` and `HERSTELLER-` |
| LinkedIds.NoteAllFirsts | frontend/lib/data-service.ts:506-507 | noting keeps a medication or manufacturer already found, and otherwise picks the first string with its prefix |
| LinkedIds.UnitsSnoc | frontend/lib/data-service.ts:508-511 | one more string adds itself to the units exactly when it is a unit id not yet listed |
| LinkedIds.UnitsAbsent | frontend/lib/data-service.ts:509 | the unit list is absent exactly when no string is a `UNIT-` id |
| LinkedIds.UnitsMembers | frontend/lib/data-service.ts:510 | the units are exactly the unit ids among the strings, each listed once |
| LinkedIds.UnitsOrder | frontend/lib/data-service.ts:508-511 | the units are listed in the order the strings first mention them |
| LinkedIds.ExtractLinkedIdsMeaning | frontend/lib/data-service.ts:497-518 | the medication and manufacturer are the first `MED-` and `HERSTELLER-` strings; the units are all `UNIT-` strings without repeats in first-mention order, absent when there are none |
| CachedDataService.CacheKeyInjective | frontend/lib/optimized-data-service.ts:97 | distinct ids have distinct `data_<id>` cache keys |
| CachedDataService.GetDataById | frontend/lib/optimized-data-service.ts:96-185 | a live cached response is served marked as from the cache; otherwise the plain lookup answers, and a response with data is stored for 10 minutes (local) or 5 minutes (API) while one without data leaves the cache as it was |
| CachedDataService.ApiFailuresNotCached | frontend/lib/optimized-data-service.ts:144-184 | a failed API call answers `null` data with an error and is not cached |
| CachedDataService.RepeatIsServedFromCache | frontend/lib/optimized-data-service.ts:99-139 | a response with data is served from the cache by a repeat request within its lifetime |
| CachedDataService.Visit | frontend/lib/optimized-data-service.ts:202-211 | one id of the preload is looked up exactly when it is not cached, adding at most one entry |
| CachedDataService.PreloadIds | frontend/lib/optimized-data-service.ts:202-213 | preloading looks up only ids from its list, in list order, and each at most once when the list has no repeats |
| CachedDataService.PreloadCommonData | frontend/lib/optimized-data-service.ts:199-214 | the common preload looks up only `MED-1`, `HERSTELLER-1` and `UNIT-1` |
| CachedDataService.PreloadFetchesExactlyUncached | frontend/lib/optimized-data-service.ts:203 | while the cache has room for every id, the preload looks up exactly the ids not cached, in order |
| CachedDataService.PreloadSkipsCached | frontend/lib/optimized-data-service.ts:203 | when every id is cached, the preload looks nothing up and leaves the cache alone |
| TtlCache.New | frontend/lib/cache-service.ts:19-26 | a new cache is empty and well-formed |
| TtlCache.ExpiryTime | frontend/lib/cache-service.ts:35 | the expiry is `now + ttl` for a given non-zero TTL and `now + defaultTTL` when the TTL is missing or 0 |
| TtlCache.AfterEviction | frontend/lib/cache-service.ts:37-41 | a cache below capacity keeps every entry; a full one drops exactly its first-inserted key, whatever key is being set |
| TtlCache.Set | frontend/lib/cache-service.ts:33-47 | the key then holds the new entry stamped `now` with its expiry; a full cache first drops its oldest key; an existing key keeps its position and a new one goes last; no other key appears |
| TtlCache.SetKeepsBound | frontend/lib/cache-service.ts:37-47 | a cache within its capacity (at least 1) stays within it after `set` |
| TtlCache.Get | frontend/lib/cache-service.ts:55-69 | `get` answers exactly when the entry exists and `now <= expiresAt`, with its data; an expired entry is deleted and nothing else changes; no key's liveness changes |
| TtlCache.SetThenGet | frontend/lib/cache-service.ts:33-69 | after `set(k, v, ttl)`, `get(k)` returns `v` at every time up to the expiry |
| TtlCache.Has | frontend/lib/cache-service.ts:71-81 | `has` answers what `get` would find and leaves the same cache behind |
| TtlCache.Delete | frontend/lib/cache-service.ts:83-91 | `delete` reports whether the key was present and removes exactly that key |
| TtlCache.Clear | frontend/lib/cache-service.ts:93-99 | `clear` removes every entry and keeps the configuration |
| TtlCache.Cleanup | frontend/lib/cache-service.ts:118-133 | `cleanup` removes exactly the expired entries and keeps the live ones unchanged |
| TtlCache.GetStats | frontend/lib/cache-service.ts:102-115 | total entries is the size of the cache, valid entries the number of keys whose entry has not expired, and valid plus expired entries is the total |
| TtlCache.ValidEntriesAreLiveKeys | frontend/lib/cache-service.ts:104-109 | the valid-entry count equals the number of distinct keys with `now <= expiresAt` |
| TtlCache.CleanupStats | frontend/lib/cache-service.ts:102-133 | after `cleanup` nothing is expired and the valid count is what `getStats` called valid before |
| TtlCache.Load | frontend/lib/cache-service.ts:151-168 | loading admits exactly the snapshot keys that have a record with `now <= expiresAt`; each such key holds the entry of its last live record; every loaded entry is live, and there are never more keys than records; the capacity is not enforced |
| TtlCache.LoadKeepsEverythingLive | frontend/lib/cache-service.ts:159-164 | a snapshot of live entries under distinct keys is restored completely and in snapshot order, even beyond the capacity |
| ComponentCache.SortFields | frontend/lib/component-cache-service.ts:53-54 | sorting an object's keys keeps exactly the same members (as a multiset) |
| ComponentCache.SortFieldsSorted | frontend/lib/component-cache-service.ts:53-54 | sorted members are in key order |
| ComponentCache.SortFieldsOfSorted | frontend/lib/component-cache-service.ts:53-54 | members already in key order are left as they are |
| ComponentCache.SortKeys | frontend/lib/component-cache-service.ts:48-59 | `sortObjectKeys` leaves primitives and `null` alone, maps each array element to its own sorted form, and turns an object into its members ordered by key, each member keeping its key with its value sorted in turn |
| ComponentCache.SortValues | frontend/lib/component-cache-service.ts:55-57 | each member keeps its key and position, and its value becomes the value with sorted keys |
| ComponentCache.SortKeysCanonical | frontend/lib/component-cache-service.ts:48-59 | `sortObjectKeys` yields values ordered all the way down and leaves such values unchanged |
| ComponentCache.SortObjectCanonical | frontend/lib/component-cache-service.ts:52-58 | an object comes out ordered and canonical, and an ordered canonical object comes out unchanged |
| ComponentCache.SortItemsCanonical | frontend/lib/component-cache-service.ts:50 | arrays come out with canonical elements, and canonical arrays unchanged |
| ComponentCache.SortValuesCanonical | frontend/lib/component-cache-service.ts:56 | member values come out canonical, and canonical ones unchanged |
| ComponentCache.PermutedCanonical | frontend/lib/component-cache-service.ts:53-57 | reordering members keeps them canonical |
| ComponentCache.SortKeysIdempotent | frontend/lib/component-cache-service.ts:48-59 | sorting keys twice is sorting them once |
| ComponentCache.PropsChanged | frontend/lib/component-cache-service.ts:62-71 | props changed exactly when the comparison is on and either the key counts differ or some stored key's value is not strictly equal in the new props |
| ComponentCache.DifferingKey | frontend/lib/component-cache-service.ts:70 | when some key differs, there is a position in the stored keys where it does |
| ComponentCache.DifferingKeyFound | frontend/lib/component-cache-service.ts:70 | a key that reads differently makes the scan report a change |
| ComponentCache.ShallowCopy | frontend/lib/component-cache-service.ts:110 | the copy is an object with the same own members, reading the same under every key |
| ComponentCache.CopyIsUnchanged | frontend/lib/component-cache-service.ts:62-110 | props compared with their own shallow copy have not changed |
| ComponentCache.New | frontend/lib/component-cache-service.ts:23-30 | a new component cache is empty |
| ComponentCache.Get | frontend/lib/component-cache-service.ts:73-94 | a missing entry gives nothing and changes nothing; an expired entry or one whose props changed is deleted and gives nothing; otherwise the element is served, its render count grows by one and the order is kept |
| ComponentCache.Set | frontend/lib/component-cache-service.ts:96-115 | `set` stores the element with a shallow copy of the props and a render count of 1 under the data cache's expiry and eviction rules |
| ComponentCache.SetThenGet | frontend/lib/component-cache-service.ts:74-115 | an element stored and requested again with the same props before it expires is served and has then been counted twice |
| ComponentCache.ServedPropsAgree | frontend/lib/component-cache-service.ts:62-94 | with the comparison on, a served element was stored with props that agree key for key with the requested ones, even if different props hash alike |
| ComponentCache.Cleanup | frontend/lib/component-cache-service.ts:148-159 | `cleanup` removes exactly the expired entries and keeps the others unchanged |
| ComponentCache.Clear | frontend/lib/component-cache-service.ts:161-163 | `clear` removes every entry |
| ComponentCache.GetStats | frontend/lib/component-cache-service.ts:118-133 | total entries is the size, valid entries the number of unexpired keys, valid plus expired entries the total, and the render count the sum of the stored render counts |
| ComponentCache.HitCountsOnce | frontend/lib/component-cache-service.ts:86-133 | serving an element adds exactly one to the total render count |
| Preloader.Initial | frontend/lib/preloader-service.ts:1-30 | the preloader starts with an empty queue and nothing preloaded |
| Preloader.FilterFresh | frontend/lib/preloader-service.ts:102-156 | the filter keeps, in order, exactly the ids neither cached nor preloaded, and changes no id's cached status |
| Preloader.QueuePreload | frontend/lib/preloader-service.ts:158-160 | an id is queued, once, exactly when it is neither preloaded nor cached; otherwise the queue is unchanged |
| Preloader.QueuePreloadIdempotent | frontend/lib/preloader-service.ts:158-160 | queuing the same id twice is queuing it once |
| Preloader.LinkedCandidates | frontend/lib/preloader-service.ts:144-148 | the linked candidates are the medication, the manufacturer and at most the first two units: at most four ids |
| Preloader.Store | frontend/lib/preloader-service.ts:128-131 | a response with data is cached under `data_<id>` for ten minutes and the id is marked preloaded |
| Preloader.PreloadSingle | frontend/lib/preloader-service.ts:122-141 | an id whose lookup yields data ends up preloaded; one without data changes nothing; only ids with data are ever marked |
| Preloader.LinkedSelection | frontend/lib/preloader-service.ts:150-152 | the linked ids preloaded are the first three fresh candidates |
| Preloader.PreloadLinked | frontend/lib/preloader-service.ts:143-156 | preloading linked data marks only ids whose lookup yields data |
| Preloader.PreloadBatch | frontend/lib/preloader-service.ts:150-155 | every id of a chosen batch whose lookup yields data ends up preloaded, and only such ids are marked |
| Preloader.QueueSelection | frontend/lib/preloader-service.ts:111-116 | one run of the queue preloads the first five queued ids that are fresh |
| Preloader.ProcessQueue | frontend/lib/preloader-service.ts:110-120 | the queue is emptied, every selected id with data ends up preloaded, and only ids with data are marked |
| Preloader.PreloadCommonIds | frontend/lib/preloader-service.ts:102-108 | every fresh common id whose lookup yields data ends up preloaded, without a limit |
| Preloader.StartPreloading | frontend/lib/preloader-service.ts:84-100 | a run in progress makes the call do nothing; otherwise the queue ends empty, the preloaded set only grows and the flag is cleared at the end |
| Preloader.RemainingShrinks | frontend/lib/preloader-service.ts:131 | marking a new id preloaded shrinks the set of ids still to preload, so the transitive preloading terminates |
| Sorting.Sort | frontend/lib/component-preloader.ts:14 | the array's own stable `sort` keeps exactly the same elements |
| Sorting.SortSorted | frontend/lib/component-preloader.ts:14 | the sorted sequence is ordered by rank, highest first |
| Sorting.SortStable | frontend/lib/component-preloader.ts:14 | elements of equal rank keep their relative order (the array sort is stable) |
| Sorting.SortOfSorted | frontend/lib/component-preloader.ts:14 | sorting an already sorted sequence leaves it unchanged |
| Sorting.SortAppendSorted | frontend/lib/component-preloader.ts:13-14 | appending to a sorted sequence and sorting is inserting after every element ranked at least as high |
| Sorting.TopDominates | frontend/lib/search-cache-service.ts:180-191 | the first `n` elements after the descending sort are `n` of the input, and no element left out ranks above a kept one |
| ComponentPreloader.Register | frontend/lib/component-preloader.ts:12-15 | registering keeps the queue sorted by descending priority and adds exactly the new configuration |
| ComponentPreloader.RegisterInserts | frontend/lib/component-preloader.ts:13-14 | on a sorted queue, the new component goes after every component of at least its priority, so equal priorities stay in registration order |
| ComponentPreloader.RegisterAllSorts | frontend/lib/component-preloader.ts:12-15 | registrations from an empty queue yield the stable descending sort of the registered configurations |
| ComponentPreloader.StartPreloading | frontend/lib/component-preloader.ts:18-32 | nothing happens while preloading or with an empty queue; otherwise one run is scheduled, the queue is untouched and the flag is clear again at the end |
| ComponentPreloader.ProcessOne | frontend/lib/component-preloader.ts:34-53 | a run takes the head off the queue and schedules another run exactly when components remain |
| ComponentPreloader.Drain | frontend/lib/component-preloader.ts:34-53 | the chain of scheduled runs ends with an empty queue and nothing scheduled |
| ComponentPreloader.DrainProcessesQueue | frontend/lib/component-preloader.ts:34-53 | the scheduled runs process every queued component exactly once, in queue order, hence by descending priority |
| ComponentPreloader.RegisteredInOrderStays | frontend/lib/component-preloader.ts:79 | components registered in priority order stay in that order |
| ComponentPreloader.CommonComponentsSorted | frontend/lib/component-preloader.ts:56-80 | the three common components (priorities 10, 8, 6) are already in priority order |
| SentinelWalk.WalkIsConvert | frontend/lib/meta-popup-service.ts:22-71 | the walk converts exactly the document's sentinel members, in the order it meets them, stopping at the first failure |
| SentinelWalk.WalkItemsIsConvert | frontend/lib/meta-popup-service.ts:66-69 | array elements are walked in index order |
| SentinelWalk.WalkFieldsIsConvert | frontend/lib/meta-popup-service.ts:24-65 | an object's members are walked in order; a sentinel member is converted and not descended into, other object values are descended into |
| SentinelWalk.SentinelsAreSentinels | frontend/lib/meta-popup-service.ts:25 | every member the walk converts has a key starting with the sentinel prefix |
| SentinelWalk.ConvertAppend | frontend/lib/meta-popup-service.ts:24 | converting two runs of members is converting the first and then the second |
| SentinelWalk.ConvertFailsIff | frontend/lib/meta-popup-service.ts:42-58 | the walk fails exactly when converting one of the sentinel members fails |
| SentinelWalk.ConvertedFrom | frontend/lib/meta-popup-service.ts:42-58 | everything a successful conversion yields comes from one sentinel member |
| SentinelWalk.WalkSucceeds | frontend/lib/meta-popup-service.ts:22-71 | a conversion that never fails makes the walk succeed |
| MetaPopups.PopupId | frontend/lib/meta-popup-service.ts:27 | the popup id is the sentinel key without its leading `_meta_popup_` |
| MetaPopups.FromSentinel | frontend/lib/meta-popup-service.ts:29-60 | an object value gives a popup whose message is `message || value || ""` and which is kept only when that message is not blank; a message that is not text raises the TypeError of `trim`; a string value gives an info popup by its own id; other values give nothing |
| MetaPopups.CollectedFromSentinels | frontend/lib/meta-popup-service.ts:22-73 | every collected popup has a non-blank message and comes from a sentinel member of the document whose key is the popup's id after the prefix |
| MetaPopups.CollectFailsIff | frontend/lib/meta-popup-service.ts:29-45 | extraction fails exactly when a sentinel object of the document has a chosen message that is not text |
| MetaPopups.ExtractMetaPopups | frontend/lib/meta-popup-service.ts:19-77 | the popups are those collected, sorted by descending `priority || 0` with text priorities read as `Number(text)`, each with a non-blank message |
| MetaPopups.PriorityTextIsNumber | frontend/lib/meta-popup-service.ts:76 | a priority written as the decimal text of a number ranks exactly as that number, as the subtraction converts it |
| Json.TextNumberOfDecimal | frontend/lib/meta-popup-service.ts:76 | `Number` reads the decimal text of any integer back as that integer |
| MetaPopups.ExtractKeepsDocumentOrder | frontend/lib/meta-popup-service.ts:76 | popups of equal priority keep the order in which the document holds them |
| MetaPopups.Dismiss | frontend/lib/meta-popup-service.ts:133-145 | dismissing lists the id, adds nothing else, appends it only when it was not listed yet, and keeps the list free of repeats |
| MetaPopups.DismissIdempotent | frontend/lib/meta-popup-service.ts:138 | dismissing the same popup twice is dismissing it once |
| MetaPopups.ClearDismissed | frontend/lib/meta-popup-service.ts:147-155 | after clearing, nothing is listed as dismissed |
| MetaPopups.DismissAllKeepsNoDuplicates | frontend/lib/meta-popup-service.ts:133-145 | a series of dismissals lists exactly the dismissed ids, each once |
| Delivery.ChainId | frontend/lib/delivery-service.ts:27 | the chain id is the sentinel key without `_meta_lieferkette`, or `default` when nothing remains; never empty |
| Delivery.ChainIdExamples | frontend/lib/delivery-service.ts:25-27 | `_meta_lieferkette_produktion` names the chain `_produktion` and `_meta_lieferkette` the chain `default` |
| Delivery.EntryOf | frontend/lib/delivery-service.ts:39-55 | a hand-over member gives an entry for its key as recipient, with id `<chainId>_<key>` |
| Delivery.EntryList | frontend/lib/delivery-service.ts:36-57 | a chain object gives one entry per member that is neither `title` nor `description` and holds a string or object, in member order |
| Delivery.ObjectChain | frontend/lib/delivery-service.ts:29-73 | an object sentinel gives a chain with exactly its hand-over entries, newest first, `totalDeliveries` equal to their number, and its own title when truthy, else `Lieferkette <id>` |
| Delivery.ObjectChainIsStable | frontend/lib/delivery-service.ts:60-64 | entries with the same time keep the order of the members |
| Delivery.ObjectChainEntries | frontend/lib/delivery-service.ts:36-57 | every entry of a chain is a hand-over member of the object, named by its key |
| Delivery.ItemTexts | frontend/lib/delivery-service.ts:85 | `String` of an array renders each element |
| Delivery.PlainEntries | frontend/lib/delivery-service.ts:81-87 | a parsed string sentinel gives one entry per member, with the value rendered as text |
| Delivery.StringChains | frontend/lib/delivery-service.ts:74-110 | a string sentinel that parses to an object or array gives one plain chain titled `Lieferkette <id>`; text that is not JSON, or is `null`, gives a single `System` entry; a parsed primitive gives nothing |
| Delivery.MemberChains | frontend/lib/delivery-service.ts:25-111 | every chain a sentinel member gives is named by that key and counts its own entries |
| Delivery.ExtractDeliveryChains | frontend/lib/delivery-service.ts:19-127 | every chain counts its own entries and comes from a sentinel member of the document |
| Delivery.WalkedChainFromMember | frontend/lib/delivery-service.ts:22-122 | every chain the walk yields comes from one sentinel member |
| Delivery.ExtractIsSentinelChains | frontend/lib/delivery-service.ts:19-127 | the chains are exactly those of the document's sentinel members, in document order |
| Delivery.ConvertIsAllChains | frontend/lib/delivery-service.ts:22-122 | converting sentinel members never fails and yields their chains in order |
| Delivery.GetDeliveryStatus | frontend/lib/delivery-service.ts:155-186 | a delivery is pending before its time, in transit for the next 24 hours, and delivered after that or when its time does not parse; each state has its fixed colours |
| Delivery.StatusOnlyAdvances | frontend/lib/delivery-service.ts:160-186 | as time passes a delivery only moves forward: pending, then in transit, then delivered |
| SearchHistory.FindEntry | frontend/lib/search-cache-service.ts:48-51 | the index found records the same search (text ignoring case, same type) and no earlier entry does; none is found only when no entry records it |
| SearchHistory.Touch | frontend/lib/search-cache-service.ts:53-81 | the searched entry ends up in front with the new time, count and outcome; a repeat keeps the other entries in order and counts one more, a new search starts at one and the history never grows past 100 |
| SearchHistory.AddSearch | frontend/lib/search-cache-service.ts:41-89 | a blank query changes nothing; otherwise the trimmed query is recorded, it is a key-value search exactly when it has a colon, and only key-value searches teach a pattern |
| SearchHistory.TrimColon | frontend/lib/search-cache-service.ts:42-45 | trimming keeps every colon, so the type of the trimmed query is that of the query |
| SearchHistory.TouchKeepsUnique | frontend/lib/search-cache-service.ts:48-81 | recording a search keeps the history free of two entries for the same search |
| SearchHistory.AddSearchKeepsUnique | frontend/lib/search-cache-service.ts:41-89 | adding a search keeps the history free of repeats |
| SearchHistory.TouchAgain | frontend/lib/search-cache-service.ts:53-63 | repeating a search straight away refreshes the entry the first search put in front and leaves the rest alone |
| SearchHistory.TouchFront | frontend/lib/search-cache-service.ts:53-63 | repeating the search at the front refreshes it in place |
| SearchHistory.AddSearchAgain | frontend/lib/search-cache-service.ts:41-89 | adding the same query twice in a row refreshes, in place, the entry the first call put in front; the rest of the history stays as the first call left it |
| SearchHistory.TouchCountsOnce | frontend/lib/search-cache-service.ts:48-81 | below the size bound every search adds exactly one to the total number of searches |
| SearchHistory.TouchRepeatCounts | frontend/lib/search-cache-service.ts:53-63 | a repeated search adds exactly one to the total, whatever the length of the history |
| SearchHistory.TakenOut | frontend/lib/search-cache-service.ts:62 | taking an entry out of the history removes exactly its count from the total |
| SearchHistory.AddSearchCountsOnce | frontend/lib/search-cache-service.ts:41-89 | a non-blank search below the bound adds exactly one to the total number of searches |
| SearchHistory.PatternParts | frontend/lib/search-cache-service.ts:97-105 | a key-value pattern is recorded exactly when the query splits at its first colon into a non-empty key and a non-empty value, and these are the parts returned |
| SearchHistory.Learnt | frontend/lib/search-cache-service.ts:107-121 | the pattern of a key counts one more use at the new time and holds its old values plus the new one, each once, the old ones kept in front |
| SearchHistory.RecordPattern | frontend/lib/search-cache-service.ts:97-122 | only the key of the query changes, to the learnt pattern; a query that does not split changes nothing; well-formed patterns stay well-formed |
| SearchHistory.AsSuggestions | frontend/lib/search-cache-service.ts:137-144 | one suggestion per entry, in order, carrying its text, type and counts |
| SearchHistory.ShowsLeadingDetermined | frontend/lib/search-cache-service.ts:133-136 | a selection of the first matching entries of the history is fixed by its length, so the count clauses determine the selectors' results |
| SearchHistory.RecentSearches | frontend/lib/search-cache-service.ts:241-253 | the first successful searches in history order (latest first), as many as `slice(0, limit)` keeps, negative limits included, each marked recent |
| SearchHistory.ExactMatches | frontend/lib/search-cache-service.ts:133-146 | the first three searches in history order whose lower-cased text starts with the query, all of them when fewer match, each marked recent |
| SearchHistory.FrequentMatches | frontend/lib/search-cache-service.ts:158-176 | the first two searches in history order made more than twice whose text contains the query and is not already suggested, all of them when fewer qualify, each marked frequent |
| SearchHistory.KeySuggestion | frontend/lib/search-cache-service.ts:225-237 | a key completion is a key-value suggestion without a result count |
| SearchHistory.KeySuggestions | frontend/lib/search-cache-service.ts:220-238 | the first three known keys in learnt order that start with the query, all of them when fewer do, each completed by its first value |
| SearchHistory.KeysComplete | frontend/lib/search-cache-service.ts:220-238 | every key chosen completes to a suggestion for a known key starting with the query |
| SearchHistory.ValueSuggestion | frontend/lib/search-cache-service.ts:209-216 | a value completion is a key-value suggestion without a result count |
| SearchHistory.ValueCompletions | frontend/lib/search-cache-service.ts:206-216 | the first five values of the key in learnt order whose lower-cased text starts with the partial value, all of them when fewer do, each completing the key |
| SearchHistory.Completing | frontend/lib/search-cache-service.ts:209-216 | one completion per value, in order |
| SearchHistory.FirstMatchingValues | frontend/lib/search-cache-service.ts:206-208 | the first five learnt values in order that start with the partial value, all of them when fewer match |
| SearchHistory.KeyValueSuggestions | frontend/lib/search-cache-service.ts:195-217 | no completion when the query does not split at a colon or the key is unknown; otherwise the completions of the trimmed key's first five matching values, as ValueCompletions fixes them |
| SearchHistory.Completions | frontend/lib/search-cache-service.ts:148-156 | the completions offered for a query are key-value suggestions without result count |
| SearchHistory.Candidates | frontend/lib/search-cache-service.ts:131-176 | the recent candidates are exactly the prefix matches, the suggested ones exactly the completions, and the frequent ones exactly the frequent matches not sharing text with those; each with its origin |
| SearchHistory.CandidateGroups | frontend/lib/search-cache-service.ts:131-176 | each category of the gathered candidates is exactly its group |
| SearchHistory.CandidateOrigins | frontend/lib/search-cache-service.ts:131-176 | every suggestion gathered has its origin in the history or in the patterns |
| SearchHistory.FrequentKeptApart | frontend/lib/search-cache-service.ts:158-166 | frequent suggestions never repeat the text of a suggestion gathered before them |
| SearchHistory.CandidateCounts | frontend/lib/search-cache-service.ts:133-176 | the groups together hold at most three recent and two frequent suggestions |
| SearchHistory.OrderedPrefix | frontend/lib/search-cache-service.ts:178-191 | ordering by category and cutting to the limit yields an ordered list drawn from the candidates, no longer than the limit |
| SearchHistory.RecentLead | frontend/lib/search-cache-service.ts:178-191 | in a list ordered by category the recent suggestions come first, so a prefix keeps as many of them as fit |
| SearchHistory.GetSuggestions | frontend/lib/search-cache-service.ts:125-192 | a blank query yields the recent searches; otherwise a top-`limit` choice from the candidates: no candidate is repeated beyond its multiplicity, `min(limit, #candidates)` of them are shown in category-then-score order, and none left out ranks above one shown; all of them when the limit allows, as many of the (at most three) prefix matches as the limit allows, at most two frequent ones |
| SearchHistory.RemoveSearch | frontend/lib/search-cache-service.ts:277-280 | the history becomes exactly the entries with a different text, in their order (case-sensitive), and the patterns are untouched |
| SearchHistory.RemoveSearchKeepsUnique | frontend/lib/search-cache-service.ts:277-280 | removing a search keeps the history free of repeats |
| SearchHistory.RemoveSearchIdempotent | frontend/lib/search-cache-service.ts:277-280 | removing twice is removing once |
| SearchHistory.ClearHistory | frontend/lib/search-cache-service.ts:270-274 | history and patterns are empty afterwards |
| SearchHistory.GetStats | frontend/lib/search-cache-service.ts:283-297 | counts entries, simple and key-value searches (which add up to the entries) and known keys; total searches is the sum of the frequencies and successful searches the number of entries with results |
| SearchHistory.MapFrom | frontend/lib/search-cache-service.ts:320 | the map holds exactly the keys of the stored pairs |
| SearchHistory.MapFromValues | frontend/lib/search-cache-service.ts:320 | each key holds the pattern of the last stored pair with that key |
| SearchHistory.LoadFromStorage | frontend/lib/search-cache-service.ts:314-329 | nothing stored leaves the store empty; otherwise the history is the stored searches of the last thirty days in their order, and the patterns hold exactly the stored keys, each with the pattern of its last stored pair |
| SearchHistory.PopularKeys | frontend/lib/search-cache-service.ts:256-261 | the ten most frequent known keys (all when fewer), none repeated, most frequent first, none left out more frequent than one kept |
| SearchHistory.TopKeys | frontend/lib/search-cache-service.ts:257-260 | sorting by frequency and taking ten yields known keys in frequency order that dominate the rest |
| SearchHistory.TopKeysKnown | frontend/lib/search-cache-service.ts:257-260 | the keys chosen are known keys |
| SearchHistory.TopKeysDominate | frontend/lib/search-cache-service.ts:257-260 | no key left out is more frequent than a key kept |
| SearchHistory.SortedKeysDistinct | frontend/lib/search-cache-service.ts:257-260 | the keys sorted by frequency and cut to ten repeat none |
| SearchHistory.PopularValuesForKey | frontend/lib/search-cache-service.ts:264-267 | the first five values learnt for the key, ignoring its case; nothing for an unknown key |
| SearchHistory.AddSearchKeepsWellFormed | frontend/lib/search-cache-service.ts:41-122 | adding a search keeps patterns stored under their own keys with distinct values and the history free of repeats |
| SearchHistory.RemoveAndClearKeepWellFormed | frontend/lib/search-cache-service.ts:270-280 | removing and clearing keep the store well formed |
| KeyHistory.BuildKeyIdentifier | frontend/lib/history-service.ts:226-230 | the identifier always ends with the key name |
| KeyHistory.AllIndexPath | frontend/lib/history-service.ts:226-230 | a path made only of array positions leaves just the key name |
| KeyHistory.KeyIdentifierSplits | frontend/lib/history-service.ts:226-230 | without dots inside the segments, splitting the identifier at its dots gives back the kept segments and the key, one dot per kept segment |
| KeyHistory.IndexSegmentsIgnored | frontend/lib/history-service.ts:228 | inserting an array position anywhere in the path does not change the identifier |
| KeyHistory.Lookup | frontend/lib/history-service.ts:189 | an entry is found exactly when the table holds the key, and what is found is stored under it |
| KeyHistory.HistoryKey | frontend/lib/history-service.ts:188 | the local lookup key always holds a dot, so it only meets the table's own entries |
| KeyHistory.FetchKeyHistory | frontend/lib/history-service.ts:181-223 | locally the stored history of the key or, when none is stored, the placeholder with value "Unbekannt" and no changes; from the backend its data, or the placeholder when the call fails or reports an error |
| SearchPrefix.PrefixesExclusive | frontend/components/layout/header.tsx:11-13 | no text starts with two different prefixes |
| SearchPrefix.PrefixKind | frontend/components/layout/header.tsx:38-48 | the kind found is the one whose prefix the text starts with, and one is found exactly when the text has a known prefix |
| SearchPrefix.DetectPrefix | frontend/components/layout/header.tsx:31-49 | the clean query is the trimmed query; a prefix is reported exactly when the trimmed query starts with one, with the kind it belongs to |
| SearchPrefix.BuildFinalSearch | frontend/components/layout/header.tsx:51-60 | the search always carries a known prefix and no surrounding blanks: the trimmed query when it has one, otherwise the selected kind's prefix before it |
| SearchPrefix.Prefixed | frontend/components/layout/header.tsx:57-58 | prefixing a trimmed text yields a trimmed text with that kind's prefix |
| SearchPrefix.BuildFinalSearchIdempotent | frontend/components/layout/header.tsx:51-60 | completing an already completed search changes nothing, whatever kind is selected |
| SearchPrefix.SearchTypeFromProductId | frontend/components/layout/header.tsx:62-70 | the kind whose prefix the id starts with; medication for a missing id or one without a known prefix |
| SearchPrefix.RemovePrefix | frontend/components/layout/header.tsx:72-77 | the prefix the id starts with, put back in front, gives the id; an id without a known prefix is returned as it is |
| SearchPrefix.RoundTrip | frontend/components/layout/header.tsx:100-140 | showing an id without its prefix and submitting it under the detected kind opens the same id, when the rest is trimmed and has no prefix of its own |
| SearchPrefix.RoundTripNeedsUnprefixedRest | frontend/components/layout/header.tsx:100-140 | the id MED-UNIT-7 is shown as UNIT-7 and resubmitted as the unit UNIT-7, so the last condition of the round trip is needed |
| SearchPrefix.HeaderSubmit | frontend/components/layout/header.tsx:132-140 | a blank query goes to the start page, any other to the completed search |
| SearchPrefix.PageSubmit | frontend/app/page.tsx:89-94 | a blank query stays put, any other opens the completed search |
| SearchPrefix.PreloadTarget | frontend/app/page.tsx:78-87 | only a query that is not blank is preloaded, always under a known prefix |
| SearchPrefix.SubmitsAgree | frontend/app/page.tsx:78-94 | the start page preloads exactly the id its submit opens, and the header opens the same page for every query that is not blank |
| KeyPathDisplay.Cut | frontend/components/passport/history-modal.tsx:144 | a cut text is exactly 30 characters and keeps the first 27 of the original |
| KeyPathDisplay.FormatKeyPath | frontend/components/passport/history-modal.tsx:137-153 | the shown path is never longer than 30 characters nor than the path, is the path itself exactly when that fits, and a long path of one or two parts is cut |
| KeyPathDisplay.LongPathKeepsEnds | frontend/components/passport/history-modal.tsx:141-152 | a long path of three or more parts shows its first and last part around "..." when they fit, and otherwise at least starts with its first part |
| SuggestionList.JsRem | frontend/components/search/search-suggestions.tsx:51-55 | the remainder of a non-negative number lies in 0 up to the divisor, that of a negative one in the divisor's negation up to 0 |
| SuggestionList.HandleKey | frontend/components/search/search-suggestions.tsx:44-67 | nothing changes while the list is hidden or empty; the arrows keep the highlight on a row; Enter chooses the highlighted row's query exactly when a row is highlighted; Escape clears the highlight; other keys do nothing |
| SuggestionList.ArrowDownIsNext | frontend/components/search/search-suggestions.tsx:49-52 | the down arrow moves to the next row and wraps from the last to the first |
| SuggestionList.ArrowUpIsPrevious | frontend/components/search/search-suggestions.tsx:53-56 | the up arrow moves to the previous row and wraps from the first to the last |
| SuggestionList.ArrowsInverse | frontend/components/search/search-suggestions.tsx:49-56 | down then up, or up then down, returns to the highlighted row |
| SuggestionList.AgeOf | frontend/components/search/search-suggestions.tsx:131-137 | the age is just now under a minute, otherwise the whole minutes (under an hour), hours (under a day) or days that have passed |
| SuggestionList.FormatTimestamp | frontend/components/search/search-suggestions.tsx:131-142 | the text is "gerade eben" or "vor" followed by the minutes, hours or days of the age |
| SuggestionList.MembersIff | frontend/components/search/search-suggestions.tsx:145-154 | a row is in a category's group exactly when it is a row of that category |
| SuggestionList.Groups | frontend/components/search/search-suggestions.tsx:145-202 | only non-empty groups are shown, each holding its category's rows in list order, recent before frequent before suggested |
| SuggestionList.GroupedIff | frontend/components/search/search-suggestions.tsx:200-202 | a category's group is shown exactly when some row has that category |
| SuggestionList.ShownIsPermutation | frontend/components/search/search-suggestions.tsx:145-202 | the groups show every row exactly once |
| SuggestionList.ShownMembers | frontend/components/search/search-suggestions.tsx:156-202 | the groups show the recent rows, then the frequent ones, then the suggested ones |
| SuggestionList.OrderedListShownInOrder | frontend/components/search/search-suggestions.tsx:145-202 | a list already in category order is shown in its own order |
| SuggestionList.SuggestionsShownInOrder | frontend/components/search/search-suggestions.tsx:145-202 | every list of suggestions the search history produces is shown in list order |
| PassportTabs.IsTabAvailable | frontend/components/passport/passport-tabs.tsx:75-89 | the active tab is always available; another only with linked ids that hold a non-empty id of its kind, or at least one unit for the unit tab |
| PassportTabs.HandleTabClick | frontend/components/passport/passport-tabs.tsx:49-72 | the click handler on its own: a click on the active tab does nothing; on another it opens the linked id (the first unit for the unit tab) exactly when a search handler is given and the tab is available, and otherwise switches to the tab |
| PassportTabs.ClickButton | frontend/components/passport/passport-tabs.tsx:126-145 | a click on the rendered button: an unavailable tab's button is disabled and does nothing; otherwise the handler runs, so a tab is opened exactly when a search handler is given and the tab is available and not active, and switched to exactly when no search handler is given |
| PassportTabs.SearchingTabsNeverSwitch | frontend/components/passport/passport-tabs.tsx:126-145 | with a search handler, a click on the page never merely switches the tab: an available tab other than the active one opens its linked id |
| Config.GetConfig | frontend/lib/config.ts:42-100 | the loaded settings when there are any, otherwise the fallback, which reads data automatically in development |
| Config.GetConfigOnce | frontend/lib/config.ts:40-100 | the first call answers from the file or the fallback and keeps that answer; every later call returns the kept answer |
| Config.GetConfigKeepsFirstAnswer | frontend/lib/config.ts:40-43 | after one call, later calls answer the same whatever the file then holds |
| Config.GetDataSource | frontend/lib/config.ts:136-141 | local data exactly when so configured or when automatic in development, the backend exactly when so configured or when automatic elsewhere |
| Config.GetClientConfig | frontend/lib/config.ts:118-133 | the client view together with the backend version URL gives back the full settings |
| Config.ClientConfigOmitsOnlyVersionUrl | frontend/lib/config.ts:118-133 | two settings have the same client view exactly when they differ at most in the backend version URL |
| Config.FallbackUsesLocalData | frontend/lib/config.ts:61-141 | without readable settings the frontend reads local demo data |
| StateCache.RemoveId | src/main/java/de/jklein/pharmalink/service/state/SystemStateService.java:179-181 | exactly the entries without the id stay |
| StateCache.Upsert | src/main/java/de/jklein/pharmalink/service/state/SystemStateService.java:189-190 | the new entry is last, the entries with its id are gone otherwise, and the id then occurs once |
| StateCache.HandleDeletion | src/main/java/de/jklein/pharmalink/service/state/SystemStateService.java:177-185 | a deletion removes exactly the entries with the id from the list of its type and touches nothing else; an unknown type changes nothing |
| StateCache.HandleActorUpdate | src/main/java/de/jklein/pharmalink/service/state/SystemStateService.java:187-193 | a fetched actor replaces every cached entry with its id, once, at the end; an actor the ledger does not return changes nothing |
| StateCache.HandleMedikamentUpdate | src/main/java/de/jklein/pharmalink/service/state/SystemStateService.java:195-201 | a fetched medication replaces every cached entry with its id, once, at the end; nothing fetched changes nothing |
| StateCache.HandleUnitUpdate | src/main/java/de/jklein/pharmalink/service/state/SystemStateService.java:203-216 | a fetched unit is kept in "my units" once exactly when the current actor owns it (two absent owners count as equal), and removed otherwise; units stay owned by the current actor |
| StateCache.FirstPresent | src/main/java/de/jklein/pharmalink/service/state/SystemStateService.java:160-165 | the text of the first listed member the payload has, or "" when it has none |
| StateCache.ExtractId | src/main/java/de/jklein/pharmalink/service/state/SystemStateService.java:160-165 | the actor id if present, else the medication id, else the unit id, else ""; a payload that is not an object yields "" |
| StateCache.HandlerFor | src/main/java/de/jklein/pharmalink/service/state/SystemStateService.java:146-154 | exactly the fourteen event names of the service select a handler: the four actor, four medication and three unit events their update handlers, and each of the three deletion events the deletion of its own record type |
| StateCache.Apply | src/main/java/de/jklein/pharmalink/service/state/SystemStateService.java:146-154 | no handler changes the current actor, and the units kept as mine stay owned by it |
| StateCache.HandleEvent | src/main/java/de/jklein/pharmalink/service/state/SystemStateService.java:133-158 | an event without a body, with a malformed body, without an id or with an unknown name changes nothing; otherwise the handler the name selects runs on the extracted id; no event changes the current actor or lets a unit of another owner into my units |
| StateCache.DeletionEventsRemove | src/main/java/de/jklein/pharmalink/service/state/SystemStateService.java:146-153 | a deletion event with an id leaves no record with that id in the cache of its kind and leaves the other caches alone |
| StateCache.LedgerEventsChangeNothing | src/main/java/de/jklein/pharmalink/service/state/SystemStateService.java:146-154 | the chaincode's own event name is not one the service reacts to, so ledger events leave the caches unchanged |
| StateCache.HandleEventsKeepsOwnership | src/main/java/de/jklein/pharmalink/service/state/SystemStateService.java:133-216 | over any run of events the current actor stays and my units stay its units |
| StateCache.LoadState | src/main/java/de/jklein/pharmalink/service/state/SystemStateService.java:95-112 | the actor list, then the medication list, is replaced by what the ledger returns and my units are emptied; a failing read stops the load where it happens |
| StateCache.Reconcile | src/main/java/de/jklein/pharmalink/service/state/SystemStateService.java:218-238 | a new id (or none) becomes current and my units become its units, or nothing when there is no id or the query fails, and the state is saved; the same id changes and saves nothing |
| StateCache.ReconcileIdempotent | src/main/java/de/jklein/pharmalink/service/state/SystemStateService.java:218-238 | reconciling twice with the same id saves once |
| StateCache.ReconcileEstablishesOwnership | src/main/java/de/jklein/pharmalink/service/state/SystemStateService.java:218-238 | when the owner query answers only that owner's units, reconciling leaves my units owned by the current actor |
| SearchService.LowerAll | src/main/java/de/jklein/pharmalink/service/search/SearchService.java:98-100 | each search tag lower-cased, in order |
| SearchService.AnySearchTag | src/main/java/de/jklein/pharmalink/service/search/SearchService.java:106-107 | true exactly when the lower-cased key or value contains one of the lower-cased search tags |
| SearchService.AnyTagEntry | src/main/java/de/jklein/pharmalink/service/search/SearchService.java:102-108 | true exactly when some tag entry matches some search tag |
| SearchService.HasMatchingTags | src/main/java/de/jklein/pharmalink/service/search/SearchService.java:94-109 | a medication matches exactly when one of its tag keys or values contains one of the search tags, ignoring case; no tags never match |
| SearchService.ManufacturerNames | src/main/java/de/jklein/pharmalink/service/search/SearchService.java:52-57 | collecting the manufacturers' names fails only on the id of a manufacturer |
| SearchService.ManufacturerNamesKeys | src/main/java/de/jklein/pharmalink/service/search/SearchService.java:52-57 | the collected ids are exactly the manufacturers' ids |
| SearchService.ManufacturerNamesSucceedsIff | src/main/java/de/jklein/pharmalink/service/search/SearchService.java:52-57 | the collection fails exactly when two manufacturers (role "hersteller", ignoring case) share an id |
| SearchService.ManufacturerNamesValues | src/main/java/de/jklein/pharmalink/service/search/SearchService.java:52-57 | every manufacturer's id maps to its lower-cased name |
| SearchService.NameLookupMatches | src/main/java/de/jklein/pharmalink/service/search/SearchService.java:59-62 | looking a medication's manufacturer up in the collected names finds the query exactly when a manufacturer with that id has a name containing it |
| SearchService.SearchMedikamente | src/main/java/de/jklein/pharmalink/service/search/SearchService.java:30-66 | asking for one's own medications without a current actor finds nothing; the search fails exactly when a query with text meets two manufacturers sharing an id |
| SearchService.PrefilteredSelects | src/main/java/de/jklein/pharmalink/service/search/SearchService.java:31-48 | the owner, status and tag stages together keep exactly the medications meeting the conditions their parameters switch on |
| SearchService.SearchMedikamenteSelects | src/main/java/de/jklein/pharmalink/service/search/SearchService.java:30-66 | a successful search yields exactly the cached medications meeting owner, status, tag and text conditions, in cache order |
| SearchService.SearchWithoutFiltersFindsAll | src/main/java/de/jklein/pharmalink/service/search/SearchService.java:30-66 | without any filter every cached medication is found |
| SearchService.OwnSearchFindsOwnMedications | src/main/java/de/jklein/pharmalink/service/search/SearchService.java:33-40 | a search for one's own medications finds only medications made by the current actor |
| SearchService.SearchActors | src/main/java/de/jklein/pharmalink/service/search/SearchService.java:68-84 | exactly the cached actors meeting the role, name and id filters given with text, in cache order |
| SearchService.SearchUnitsByCharge | src/main/java/de/jklein/pharmalink/service/search/SearchService.java:86-92 | exactly the current actor's units with a batch name containing the query, ignoring case, in cache order |
| SearchService.UnitSearchIgnoresCase | src/main/java/de/jklein/pharmalink/service/search/SearchService.java:86-92 | the case of the query does not matter |
| SearchService.EmptyChargeQueryFindsNamedUnits | src/main/java/de/jklein/pharmalink/service/search/SearchService.java:86-92 | an empty query finds every own unit that has a batch name |
| SearchService.UnitSearchFindsOwnUnits | src/main/java/de/jklein/pharmalink/service/search/SearchService.java:86-92 | the units found belong to the current actor |
| ActorReconcile.Reconcile | src/main/java/de/jklein/pharmalink/service/system/SystemStateService.java:32-57 | afterwards the chaincode's id is both cached and stored, and the database is written exactly when it did not already hold that id |
| ActorReconcile.LoadFromDatabaseOnFailure | src/main/java/de/jklein/pharmalink/service/system/SystemStateService.java:63-76 | a cached id stays; otherwise the stored id, if any, is adopted; the database is never written |
| ActorReconcile.ReconcileTwiceWritesOnce | src/main/java/de/jklein/pharmalink/service/system/SystemStateService.java:32-57 | a second reconciliation with the same id writes nothing and changes nothing |
| ActorReconcile.OperationsKeepAgreement | src/main/java/de/jklein/pharmalink/service/system/SystemStateService.java:32-76 | after a reconciliation the cached id is the stored one, and the fallback keeps that agreement |
| ActorReconcile.FallbackAfterReconcileIsNoop | src/main/java/de/jklein/pharmalink/service/system/SystemStateService.java:32-76 | after a reconciliation the fallback has nothing to do |
| ActorRole.RoleFromId | src/main/java/de/jklein/pharmalink/api/dto/ActorResponseDto.java:17-33 | "unbekannt" for a missing or blank id; otherwise the role whose name and a dash begin the id, or "unbekannt" when none does |
| ActorRole.PrefixesExclusive | src/main/java/de/jklein/pharmalink/api/dto/ActorResponseDto.java:22-29 | an id begins with at most one of the four role prefixes |
| ActorRole.RoleOfRegisteredActor | src/main/java/de/jklein/pharmalink/api/dto/ActorResponseDto.java:17-33 | the response for an actor registered by the chaincode's self-registration reports the lower-cased role of the registering certificate |
| ErrorMessages.TitleForCode | src/main/java/de/jklein/pharmalink/constants/ErrorMessages.java:18-27 | the 404 and 500 titles exactly for those integer codes, the default title for every other code, non-integer or missing |
| ErrorMessages.MessageForCode | src/main/java/de/jklein/pharmalink/constants/ErrorMessages.java:29-38 | the 404 and 500 texts exactly for those integer codes, the default text otherwise |
| ErrorMessages.TitleDeterminesMessage | src/main/java/de/jklein/pharmalink/constants/ErrorMessages.java:18-38 | the title determines the text: two codes with the same title have the same text |

## Left out

Chaincode:

- The read-only queries `queryAllActors`, `queryActorById`, `queryActorByEmail`, `queryActorsByRole`, `queryActorsByBezeichnung`, `queryMedikamenteByHerstellerId`, `queryMedikamenteByBezeichnung`, `queryUnitsByMedId`, `queryUnitsByOwner` and `unitExists` are left out. They are CouchDB rich queries or single reads that change no state. The single reads the transactions rely on are modelled as `Ledger.GetActor`, `Ledger.GetMed` and `Ledger.GetUnit`.
- `generateSha256` is the parameter `sha`, because hashing is not modelled. Injectivity of the hash is never assumed.
- Fabric keeps only the last `setEvent` of a transaction. The model lists every event a transaction sets, in order.
- Deserialising a key that holds a record of another kind fails with the model-only code `WrongRecordKind`. The source would read such JSON into the wrong class.
- Records are assumed to have no `null` fields.
- The 32-bit `int` of the unit counter and of the unit number is unbounded here. `Integer.parseInt` on a counter that is not a number is not modelled either.
- The chaincode's record classes are not part of this model. The initial medication status "angelegt" comes from the check in `deleteMedikament`.

Frontend:

- `CacheService.preload` is not modelled.
- Concurrency is sequentialised: `Promise.all` in the preloaders and `preloadCommonData` runs its calls one after another, in order.
- Timing and the DOM are left out: hover and focus listeners, the `setTimeout` debounces, `requestIdleCallback`, and the 500 ms delay of the local history.
- The component preloader's cache-key computation is left out, because its result is never used.
- Presentation is left out: `getPopupColors`, category icons and colours, `highlightQuery`, `formatDeliveryTimestamp` (`toLocaleString`), and all JSX rendering.
- Statistics that need floating point are left out: the averages, hit rates and memory estimates of `getStats`, and the success rate of the search history.
- `hashProps` (`btoa` and `Math.random`) is a parameter of the component cache.
- `localStorage` writes (`saveToStorage`) are left out. Reading it back is modelled as an optional snapshot argument.
- MetaPopups.ExtractMetaPopups: the `TypeError` that a truthy non-text message raises is the failure `MessageNotText`; how the page reacts to the uncaught exception is not modelled.
- Delivery.ObjectChain: a JavaScript `sort` whose comparator answers `NaN` has no defined order. The model ranks dates that do not parse below every valid date.
- Case mapping and whitespace are ASCII only. Unicode case folding is not modelled.
- Json: numbers are integers, so fractional numbers in documents and their rendering are not modelled. `Delivery.JsString` and `StateCache.AsText` render numbers as decimal integers.
- Json.Lookup: a document is assumed to name each member of an object once. For a repeated name `JSON.parse` keeps the last value, while the lookup returns the first.
- MetaPopups.ExtractMetaPopups: a text priority counts as `Number(text)` only when it is blank or an optionally signed decimal integer. Fractions, exponents, hexadecimal and `Infinity` are not modelled. Text that converts to `NaN` ranks as 0, where the source's comparator answers `NaN` and the engine chooses the order. Arrays and objects rank as 0, while `Number` gives 0 for an empty array, the number of its element's text for a one-element array, and `NaN` for longer arrays and objects.
- Preloader: termination of linked preloading is proved only when finitely many ids yield data (the `universe` argument). The source has no such bound: `linkedDataDepth` is only tested to be positive and never decremented, so linked preloading recurses as long as new ids with data appear.
- DataService.LocalLookup, DataService.IsValidId: the table is a plain map. In the source, `demoData[id]` and `id in demoData` also find inherited properties such as `constructor`.
- ComponentCache.SortKeys: object members are enumerated in insertion order. JavaScript lists integer-like keys first, in ascending order, and this is not modelled here or in the other `Object.entries` walks.
- KeyPathDisplay.FormatKeyPath: lengths count characters (Unicode scalar values). JavaScript's `length` and `substring` count UTF-16 code units, so paths with characters outside the Basic Multilingual Plane are measured differently.
- SearchHistory.GetSuggestions: inside a category the source orders by the floating-point score `0.7 * frequency + 0.3 * lastUsed / 10^6`. The model uses the same score scaled by 10^7 as an exact integer, `7000000 * frequency + 3 * lastUsed`, so floating-point rounding in ties is not reproduced.
- PassportTabs: the tooltip position and the colours and cursors of the buttons are not modelled. The `disabled` gate on unavailable tabs is modelled by `PassportTabs.ClickButton`.
- Config.GetConfig: reading `config/app.yaml` is a parameter (`loaded`). The kept first answer is modelled separately by `Config.GetConfigOnce`.

Backend:

- The audit log of chaincode events, the database writes of `saveStateToDatabase`, logging and JSON serialisation are I/O and are left out. Whether a write happens is modelled as a flag.
- Concurrency of the synchronised lists is left out. Each handler runs atomically.
- SearchService.SearchMedikamente: `Collectors.toMap` also throws on a manufacturer without a name (`null` value). Names are never `null` here.
- ActorReconcile.Reconcile: only the first stored system state is seen. A stored state whose actor id is `null` is not modelled; the source would throw on it when comparing ids.
- The event name mismatch is proved rather than fixed. The chaincode emits only `PharmalinkDataEvent`, and the backend's event switch never selects a handler for it (`StateCache.LedgerEventsChangeNothing`). Either side could be the intended one, so no corrected behaviour is proposed.
