# JK Mobility cron jobs — a Dafny model

The repository is a set of scheduled jobs. Each job fetches one master-data
set from the upstream SAP OData service and reconciles it into a MongoDB
collection. The data sets are customer hubs, customer fleets, tyre patterns,
territories, products, sizes, tyre/tube mappings, categories and catalogue
entries. Each run writes an audit record (`SyncLog`), and each job sits
behind a module-level `running` latch. Two deployments also wrap their job
in an entry point that connects to MongoDB with retries and disconnects
afterwards: the fleet Lambda `index.mjs` and the product `index.js`.

The model works over an abstract store.
- A collection is a map from natural key to document, and a document is a
  map from field name to value (`Store`).
- `$set` overwrites the named fields and keeps the rest, and an upsert on a
  missing key inserts the schema defaults plus the filter fields.
- The hub and fleet schemas add `active != false` to every `find*` (filter
  `LiveOnly`). The other schemas match every document (filter `AnyDoc`).
- `undefined` values are dropped from an update, as the driver does.

HTTP is modelled as a given function from attempt number to outcome: a reply
with a status and a body, or a transport error. The same idea replaces every
other effect with a parameter:
- whether each store write lands;
- the `find` results;
- the MongoDB connect outcomes and the backoff jitter;
- the disconnect outcome.

The writes to the synced collections that can fail are inputs: the hub and
ship-to-party upserts, the pattern `bulkWrite` batches, the territory
`bulkWrite`, the size upserts and product updates, the per-record product
writes, and the category and catalogue upserts. For each of them the input
says whether it succeeds, or the error it rejects with, and on a failure the
run takes the path the source takes: the hub upserts stop the run, an
ordered `bulkWrite` stops at the failing write, and a failed batch is
skipped. On those paths the counters and logs are exact functions of the
inputs. The reads, the `SyncLog` writes, and the fleet and tyre/tube writes
are taken to succeed (see "## Left out").

Modules, one per source component:
- `Store`: documents, collections, upserts, `$addToSet`, the soft-delete
  filter, and the fold of a sequence of upserts with its laws (last write
  wins, idempotence, keys kept).
- `Text`: `trim`, the `[^a-zA-Z0-9]` strip and the credential-redacting URL
  regex.
- `Http`: `robustGet` and `redactConfigForLog`. The four other copies of
  `robustGet` (pattern, territory, size and tyre/tube mapping) are identical
  to the hub controller's copy, which the rows below cite.
- `SyncLogs` and `Schemas`: the log lifecycle and the schema defaults and
  required paths.
- `HubSync`, `PatternSync`, `TerritorySync`, `TyreMappingSync`,
  `ProductSync`, `SizeSync`, `FleetSync`, `CategorySync`, `CatalogueSync`:
  one reconciler each.
- `Jobs`: the `running` latch. The eight `jobs/` files are identical but for
  the sync they await, so the rows cite the category job.
- `Connection`: `connectWithRetry`, `isIgnorableDisconnectError`,
  `safeDisconnect`, the Lambda `handler` and the product `main`.

## Model

| member | source | states |
|---|---|---|
| Store.Apply | sync_customer_hub_master/controllers/customer_hub_master.controller.js:127-139 | definition: one `findOneAndUpdate` with `upsert: true`: a stored document the filter matches gets the `$set` fields laid over it; otherwise the insert document (schema defaults plus filter fields) gets them, under the key |
| Store.ApplyAll | sync_customer_hub_master/controllers/customer_hub_master.controller.js:127-139 | definition: the upserts applied one after another, in order |
| Store.Matches | sync_customer_hub_master/models/customerHub.model.js:62-65 | definition: a filter matches a document when it is the plain filter, or when the document is visible to the soft-delete filter |
| Store.Visible | sync_customer_hub_master/models/customerHub.model.js:62-65 | definition: `{ active: { $ne: false } }`: a document is visible unless its `active` is `false` |
| Store.Landed | sync_pattern_master/controllers/pattern_master.controller.js:171-185 | definition: the writes that take effect, in order: those whose `lands` input is true |
| Store.Lands | sync_customer_hub_master/controllers/customer_hub_master.controller.js:142 | definition: a write lands exactly when it has no error |
| Store.AddToSet | sync_tyre_tubbing_mapping_master/controllers/tyre_tubbing_mapping_master.controller.js:161-172 | `$addToSet` adds the id, keeps every element, adds nothing else, leaves a list that already holds the id unchanged, and keeps a duplicate-free list duplicate-free |
| Store.FindLive | sync_customer_fleet_master/models/customerFleet.model.js:76-79 | a `find` returns exactly the documents whose `active` is not `false`, unchanged |
| Store.Defined | sync_customer_hub_master/controllers/customer_hub_master.controller.js:129-135 | an update object loses exactly its `undefined` fields, as mongoose drops them, and keeps every other field's value |
| Store.Put | sync_customer_hub_master/controllers/customer_hub_master.controller.js:129-135 | setting a defined value adds or replaces that one field; setting `undefined` changes nothing |
| Store.RowDoc | sync_pattern_master/controllers/pattern_master.controller.js:158-169 | `{ ...item }` holds exactly the record's fields, as strings, and is visible to the soft-delete filter |
| Store.ApplyAllKeys | sync_customer_hub_master/controllers/customer_hub_master.controller.js:127-139 | after a run of upserts the collection's keys are the old keys plus every key written |
| Store.ApplyAllUntouched | sync_customer_hub_master/controllers/customer_hub_master.controller.js:127-139 | a key no upsert names keeps its document |
| Store.Cover | sync_customer_hub_master/controllers/customer_hub_master.controller.js:127-139 | after the upserts every written key holds a document the operations' filter matches: under the soft-delete filter, a visible one |
| Store.Absorb | sync_customer_hub_master/controllers/customer_hub_master.controller.js:127-139 | every written key holds all the `$set` fields aimed at it, merged with a later write winning |
| Store.Merged | sync_customer_hub_master/controllers/customer_hub_master.controller.js:127-139 | when every written key already holds a matching document, the upserts only lay their `$set` fields over the stored documents |
| Store.Idempotent | sync_customer_hub_master/controllers/customer_hub_master.controller.js:127-139 | re-applying the same upserts changes nothing |
| Store.LastWriteWins | sync_customer_hub_master/controllers/customer_hub_master.controller.js:127-139 | an upsert no later upsert on the same key follows leaves all its `$set` fields stored |
| Store.ApplyAllConcat | sync_pattern_master/controllers/pattern_master.controller.js:153-188 | applying two runs of upserts one after the other is applying their concatenation |
| Store.KeepsField | sync_customer_hub_master/controllers/customer_hub_master.controller.js:165-187 | upserts that never set a field, aimed at keys already holding matching documents, add no key and keep that field in every document |
| Store.ApplyAllKeyed | sync_customer_hub_master/controllers/customer_hub_master.controller.js:127-139 | upserts that store their key in field `f` keep a collection in which every document records its own key in `f` |
| Store.LandedEvery | sync_pattern_master/controllers/pattern_master.controller.js:171-185 | when every write lands, the landed writes are all the writes |
| Store.UnlandedUntouched | sync_pattern_master/controllers/pattern_master.controller.js:171-185 | a key whose every write failed keeps its document |
| Store.LandedStep | sync_pattern_master/controllers/pattern_master.controller.js:171-185 | one more write changes the collection exactly when it lands, by that write |
| Store.FirstFailure | sync_customer_hub_master/controllers/customer_hub_master.controller.js:142 | `Promise.all` over m writes rejects exactly when some write fails |
| Store.FirstFailureFound | sync_customer_hub_master/controllers/customer_hub_master.controller.js:142 | the rejection of `Promise.all` is the error of a write every earlier write of which succeeded: the first failure in order |
| Store.FirstUnlanded | sync_territories_master/controllers/territories_master.controller.js:176 | writes awaited in order stop at the first failure: every write before the stop succeeded, and the write at the stop, if there is one, failed |
| Store.ApplyUntilFail | sync_territories_master/controllers/territories_master.controller.js:176 | an ordered run of writes leaves applied exactly the writes before the first that fails |
| Text.Trim | sync_size_master/controllers/size_master.controller.js:148 | definition: `String.prototype.trim` as the trailing trim of the leading trim |
| Text.TrimStart | sync_size_master/controllers/size_master.controller.js:148 | definition: drops leading whitespace characters one at a time |
| Text.TrimEnd | sync_size_master/controllers/size_master.controller.js:148 | definition: drops trailing whitespace characters one at a time |
| Text.TrimSpec | sync_size_master/controllers/size_master.controller.js:148 | `trim` removes only whitespace, and only at both ends, and the result starts and ends with a non-space |
| Text.TrimIdempotent | sync_size_master/controllers/size_master.controller.js:148 | trimming twice is trimming once |
| Text.TrimStartSpec | sync_size_master/controllers/size_master.controller.js:148 | the leading trim removes a prefix made only of whitespace and leaves a string that is empty or starts with a non-space |
| Text.TrimEndSpec | sync_size_master/controllers/size_master.controller.js:148 | the trailing trim removes a suffix made only of whitespace and leaves a string that is empty or ends with a non-space |
| Text.StripNonAlnum | sync_product_master/controllers/product.controller.js:97 | the stripped title holds only `[a-zA-Z0-9]` characters |
| Text.StripKeepsCounts | sync_product_master/controllers/product.controller.js:97 | every alphanumeric character keeps its count and every other character is removed |
| Text.StripIdempotent | sync_product_master/controllers/product.controller.js:97 | stripping twice is stripping once |
| Text.StripConcat | sync_product_master/controllers/product.controller.js:97 | stripping a concatenation is concatenating the stripped parts |
| Text.StripKeepsAlnum | sync_product_master/controllers/product.controller.js:97 | an alphanumeric title is unchanged |
| Text.ContainsIff | sync_customer_fleet_master/index.mjs:69-81 | the pattern test on a literal matches exactly when the literal occurs at some index of the message |
| Text.OccursThenContains | sync_customer_fleet_master/index.mjs:69-81 | an occurrence at an index means the message contains the literal |
| Text.ContainsThenOccurs | sync_customer_fleet_master/index.mjs:69-81 | a message containing the literal has an index where it occurs |
| Text.ContainsInfix | sync_customer_fleet_master/index.mjs:69-81 | any text with the literal in the middle contains it |
| Text.LineEnd | sync_customer_hub_master/controllers/customer_hub_master.controller.js:22 | the end of the line from a position: no line terminator before it, and a terminator or the end of the string at it, since `.` does not cross a line break |
| Text.LastAt | sync_customer_hub_master/controllers/customer_hub_master.controller.js:22 | the last `@` in a range, or none when the range has no `@` |
| Text.MatchAt | sync_customer_hub_master/controllers/customer_hub_master.controller.js:22 | the longest match of `//.*@` starting at an index, or none when no match starts there |
| Text.FirstMatch | sync_customer_hub_master/controllers/customer_hub_master.controller.js:22 | the leftmost match starting at or after an index, taken longest, or none when no match exists there |
| Text.RedactUrl | sync_customer_hub_master/controllers/customer_hub_master.controller.js:22 | a url with no `//…@` match is unchanged; otherwise the leftmost, longest match is replaced by `//REDACTED@` with the text around it kept |
| Text.RedactBasicAuth | sync_customer_hub_master/controllers/customer_hub_master.controller.js:22 | `//u:p@h` becomes `//REDACTED@h` |
| Http.Try | sync_customer_hub_master/controllers/customer_hub_master.controller.js:56-63 | definition: one `instance.get`: a reply the status check accepts is returned, one it refuses is thrown as a rejection carrying the reply, and a transport error is thrown as a network error |
| Http.StopFrom | sync_customer_hub_master/controllers/customer_hub_master.controller.js:51-78 | definition: from attempt k, the number of the first attempt that succeeds or gets a 4xx, or `retries` when none does |
| Http.Stop | sync_customer_hub_master/controllers/customer_hub_master.controller.js:51-78 | definition: the number of attempts `robustGet` makes: none when `retries <= 0`, else `StopFrom(1)` |
| Http.Outcome | sync_customer_hub_master/controllers/customer_hub_master.controller.js:29-84 | definition: what `robustGet` returns or throws: `undefined` thrown with no attempt, else the outcome of the last attempt made |
| Http.RobustGet | sync_customer_hub_master/controllers/customer_hub_master.controller.js:29-84 | the loop makes `Stop` attempts and ends with `Outcome`; it waits once fewer than it attempts, and wait j is `initialDelayMs·2^j` |
| Http.StopFromSpec | sync_customer_hub_master/controllers/customer_hub_master.controller.js:51-78 | from attempt k on, the loop stops at the first attempt that succeeds or gets a 4xx, or at attempt `retries` |
| Http.StopSpec | sync_customer_hub_master/controllers/customer_hub_master.controller.js:30-63 | with `retries <= 0` there is no attempt and `undefined` is thrown; otherwise between 1 and `retries` attempts are made, every attempt before the last is a retryable failure, and the last succeeded, got a 4xx, or was number `retries` |
| Http.FirstFinalEnds | sync_customer_hub_master/controllers/customer_hub_master.controller.js:51-72 | the first success or 4xx ends the loop, and the loop returns or rethrows that attempt's outcome |
| Http.GotIff | sync_customer_hub_master/controllers/customer_hub_master.controller.js:51-63 | a response is returned exactly when some attempt succeeds before any attempt ends the loop, and the response is that attempt's |
| Http.LastErrorRethrown | sync_customer_hub_master/controllers/customer_hub_master.controller.js:82-83 | when no attempt ends the loop early, all `retries` attempts are made and the last attempt's error is thrown, never an empty value |
| Http.AcceptAllFirstReply | sync_pattern_master/controllers/pattern_master.controller.js:127-133 | with `validateStatus: () => true`, the first reply of any status is returned after the transport errors before it |
| Http.AcceptAllNoReply | sync_pattern_master/controllers/pattern_master.controller.js:32-90 | with `validateStatus: () => true` and only transport errors, every attempt is made and the last network error is thrown |
| Http.RedactConfig | sync_customer_hub_master/controllers/customer_hub_master.controller.js:15-24 | a missing config gives `{}`; an `Authorization` header that is present becomes `REDACTED` (an empty one stays empty) and the other headers are kept; `auth` becomes REDACTED/REDACTED; the url is redacted |
| SyncLogs.Create | sync_tyre_tubbing_mapping_master/models/sync_log.model.js:5-23 | a new log is `pending`, with its action and initiator, no error text and empty `meta` |
| SyncLogs.Succeed | sync_customer_hub_master/controllers/customer_hub_master.controller.js:238-240 | the log becomes `successful` with the given `meta` and keeps its action, initiator and error text |
| SyncLogs.Fail | sync_customer_hub_master/controllers/customer_hub_master.controller.js:247-249 | the log becomes `failed` with `errorMessages` set and keeps its action, initiator and `meta` |
| SyncLogs.SettleKeepsLifecycle | sync_tyre_tubbing_mapping_master/models/sync_log.model.js:13-17 | a log created with a non-empty action and then settled either way is schema-valid and has moved from `pending` exactly once |
| SyncLogs.CreatePatternLog | sync_pattern_master/models/sync_log.model.js:9-22 | the pattern service's log starts `pending` with `errors` `[]` and `action` defaulting to `""` |
| SyncLogs.PatternReportUndeclared | sync_pattern_master/models/sync_log.model.js:3-24 | schema fact, not an operation property: the pattern log schema declares `status` but not `error` or `meta`, which the job writes |
| Schemas.DefaultsVisible | sync_customer_hub_master/models/customerHub.model.js:54-65 | schema fact, not an operation property: the hub, fleet and product defaults are all visible to the soft-delete filter; a document with `active` missing or true is visible and one with `active: false` is not |
| HubSync.HubOp | sync_customer_hub_master/controllers/customer_hub_master.controller.js:127-139 | each hub record upserts under its `HubCode`, live documents only; its `$set` holds at most `hubCode`, `hubName` and `fleetCode`, each taken from `HubCode`, `HubName` and `Kunnr` when the record has it |
| HubSync.HubOps | sync_customer_hub_master/controllers/customer_hub_master.controller.js:123-140 | one upsert per hub record, in record order |
| HubSync.UpsertHubs | sync_customer_hub_master/controllers/customer_hub_master.controller.js:123-142 | the hub upserts run in order, each that succeeds is applied and a failed one changes nothing; `Promise.all` rejects with the first failure, and without one every upsert is applied and `allResolvedData` holds each upsert's resulting document |
| HubSync.ResolvedStep | sync_customer_hub_master/controllers/customer_hub_master.controller.js:127-142 | one more upsert is applied after the earlier ones, and the document it resolves to is the one it leaves stored |
| HubSync.ResolvedAt | sync_customer_hub_master/controllers/customer_hub_master.controller.js:142 | resolved document m is the stored document right after upsert m |
| HubSync.Resolved | sync_customer_hub_master/controllers/customer_hub_master.controller.js:142 | definition: the documents `Promise.all` resolves to: each `findOneAndUpdate` with `new: true` yields its document right after its own update |
| HubSync.ShipFilter | sync_customer_hub_master/controllers/customer_hub_master.controller.js:157-163 | definition: a row is kept for a hub when `Kunn2` is its hub code, `Vkorg` "1000", `Spart` "20" and `Vtweg` "10" |
| HubSync.ShipMatches | sync_customer_hub_master/controllers/customer_hub_master.controller.js:157-163 | every kept ship-to-party row has `Kunn2 = hubCode`, `Vkorg = "1000"`, `Spart = "20"` and `Vtweg = "10"` |
| HubSync.ShipMatchesCounts | sync_customer_hub_master/controllers/customer_hub_master.controller.js:157-163 | the filter keeps every matching row as many times as it occurs and drops every other row |
| HubSync.ShipOp | sync_customer_hub_master/controllers/customer_hub_master.controller.js:166-186 | a ship-to-party row upserts under its `Kunn2` and sets only `pinCode`, `address`, `city` and `depoCode` |
| HubSync.ShipOpFields | sync_customer_hub_master/controllers/customer_hub_master.controller.js:167-183 | each of the four fields comes from `Kunn2Pincode`, `Kunn2Address`, `Kunn2City` and `Shpvkbur`, when present |
| HubSync.ShipOps | sync_customer_hub_master/controllers/customer_hub_master.controller.js:166-187 | one upsert per matching row, in row order |
| HubSync.ShipStep | sync_customer_hub_master/controllers/customer_hub_master.controller.js:151-204 | definition: one hub's queries and matching rows: query by fleet code; when it succeeds with no matching row, query by hub code; a failed query leaves no rows |
| HubSync.ShipApplied | sync_customer_hub_master/controllers/customer_hub_master.controller.js:165-232 | definition: the step's upserts up to the first that fails, since the hub's `try` abandons the rest |
| HubSync.ShipToParty | sync_customer_hub_master/controllers/customer_hub_master.controller.js:151-235 | one hub's step applies the upserts of its matching rows in order up to the first that fails, since the hub's `catch` abandons the rest, and sends the queries `ShipStep` lists |
| HubSync.SecondQueryOnlyWhenNoMatch | sync_customer_hub_master/controllers/customer_hub_master.controller.js:153-204 | the first query is by fleet code; a second query, by hub code, is sent exactly when the first succeeded and matched no row; a failed step writes nothing; every applied row matches the filter |
| HubSync.StepsOps | sync_customer_hub_master/controllers/customer_hub_master.controller.js:146-236 | definition: the applied upserts of each resolved hub's step, hub by hub |
| HubSync.StepsQueries | sync_customer_hub_master/controllers/customer_hub_master.controller.js:146-236 | definition: the queries of each resolved hub's step, hub by hub |
| HubSync.EnrichAll | sync_customer_hub_master/controllers/customer_hub_master.controller.js:146-236 | the ship-to-party loop applies, hub by hub in order, each resolved hub's upserts up to that hub's first failure, and sends every step's queries |
| HubSync.EnrichStep | sync_customer_hub_master/controllers/customer_hub_master.controller.js:146-236 | one more resolved hub applies its step's upserts after the earlier hubs' and appends its queries |
| HubSync.SyncCustomerHubMaster | sync_customer_hub_master/controllers/customer_hub_master.controller.js:89-252 | with a hub list and a failed hub upsert, the upserts that succeeded stay applied, no ship-to-party query is sent, the log fails with the first failure's message and it is rethrown; with no failure the run applies the hub upserts and then each hub's ship-to-party upserts up to its first failure, and the log is `successful` with `totalHubs` equal to the record count; a failed fetch or a reply without `d.results` changes nothing, fails the log with that message and rethrows |
| HubSync.HubSnapshotIdempotent | sync_customer_hub_master/controllers/customer_hub_master.controller.js:123-142 | re-applying the hub upserts of a snapshot changes nothing (the hub upserts only, not the ship-to-party ones) |
| HubSync.StoredAfterHubs | sync_customer_hub_master/controllers/customer_hub_master.controller.js:123-142 | a record no later record overrides is stored, visible, under its hub code with its name and fleet code |
| HubSync.EnrichKeeps | sync_customer_hub_master/controllers/customer_hub_master.controller.js:175-225 | the ship-to-party upserts add no hub, keep every hub's name and fleet code, and hide no hub |
| HubSync.HubSyncKeepsKeyed | sync_customer_hub_master/controllers/customer_hub_master.controller.js:123-236 | after a whole run every hub is still stored under its own `hubCode` |
| HubSync.AllShapedConcat | sync_customer_hub_master/controllers/customer_hub_master.controller.js:166-187 | two runs of ship-to-party upserts each keyed by hub code and setting only the four address fields concatenate to one such run |
| HubSync.HubRecordStored | sync_customer_hub_master/controllers/customer_hub_master.controller.js:123-236 | after a whole run, a hub record no later record overrides is stored, visible, with its name and fleet code |
| PatternSync.PatUrl | sync_pattern_master/controllers/pattern_master.controller.js:117 | the url is the base with at most one trailing `/` removed, followed by the service path |
| PatternSync.StripsOneSlash | sync_pattern_master/controllers/pattern_master.controller.js:117 | exactly one trailing slash is stripped: `b/` gives `b…` and `b//` gives `b/…` |
| PatternSync.PatOp | sync_pattern_master/controllers/pattern_master.controller.js:158-169 | a record upserts under (`PatCode`, `CatCode`) and its `$set` is all of the record's fields |
| PatternSync.PatOps | sync_pattern_master/controllers/pattern_master.controller.js:158-169 | one upsert per record, in order |
| PatternSync.Clamp | sync_pattern_master/controllers/pattern_master.controller.js:156 | definition: a bound of `Array.prototype.slice`: a negative one counts back from the end, and the result is clamped to the array |
| PatternSync.Slice | sync_pattern_master/controllers/pattern_master.controller.js:156 | definition: `records.slice(start, end)`: the clamped range, or `[]` when the bounds cross |
| PatternSync.Flatten | sync_pattern_master/controllers/pattern_master.controller.js:153-188 | definition: the batches concatenated in order |
| PatternSync.Batched | sync_pattern_master/controllers/pattern_master.controller.js:153-188 | definition: the batches concatenate to the records, each is non-empty and at most the batch size, and all but the last are full |
| PatternSync.WriteBatch | sync_pattern_master/controllers/pattern_master.controller.js:171-185 | one batch's `bulkWrite` applies exactly the landing upserts of its records, in order |
| PatternSync.WriteAll | sync_pattern_master/controllers/pattern_master.controller.js:153-188 | for a batch size of at least one, the batch loop applies every landing upsert in record order; the batches cover the records in order, each between 1 and `BATCH_SIZE` long and all but the last full; `processed` equals the record count although failed batches are skipped |
| PatternSync.SyncPatternMaster | sync_pattern_master/controllers/pattern_master.controller.js:96-214 | a missing or empty base url fails the log with the not-configured message; a thrown fetch or a reply without a `d.results` array fails the log with its message and rethrows, writing nothing; an empty set succeeds with `fetched: 0` and no write; a batch size of at least one logs success with `fetched = processed = ` the record count; a `NaN` size writes nothing and logs success with `processed: 0`; a size below one writes only the first slice (all but the last `-size` records, or none) and never returns, leaving the log `pending` |
| PatternSync.NonPositiveSizeLoops | sync_pattern_master/controllers/pattern_master.controller.js:155-156 | with a batch size below one, the loop test `i < records.length` holds at every pass and every pass after the first takes an empty slice, so the loop never ends |
| PatternSync.PatternRecordStored | sync_pattern_master/controllers/pattern_master.controller.js:158-173 | with every write landing, a record no later record overrides is stored under its pair with all its fields |
| PatternSync.PatternSnapshotIdempotent | sync_pattern_master/controllers/pattern_master.controller.js:158-173 | re-applying a fully landed snapshot changes nothing |
| TerritorySync.ZoneName | sync_territories_master/controllers/territories_master.controller.js:152 | a zone code in the table maps to its name, and any other code maps to itself |
| TerritorySync.PropKey | sync_territories_master/controllers/territories_master.controller.js:138-152 | definition: the property name a field becomes as an object key: its text, or "undefined" when missing |
| TerritorySync.RegionMap | sync_territories_master/controllers/territories_master.controller.js:138-144 | definition: the object the `forEach` fills: each region row sets its `Region` key to the field, rows in order |
| TerritorySync.RegionMapLastWins | sync_territories_master/controllers/territories_master.controller.js:138-144 | a region row no later row with the same `Region` overrides provides that region's entry |
| TerritorySync.RegionMapKeys | sync_territories_master/controllers/territories_master.controller.js:138-144 | the maps' keys are exactly the rows' `Region` values |
| TerritorySync.RegionMapAbsent | sync_territories_master/controllers/territories_master.controller.js:138-144 | a region no row names is not in the maps |
| TerritorySync.BuildRegionMaps | sync_territories_master/controllers/territories_master.controller.js:138-144 | the `forEach` fills the name and zone maps exactly as `RegionMap` describes |
| TerritorySync.OrEmpty | sync_territories_master/controllers/territories_master.controller.js:150-151 | a missing entry reads as `""` |
| TerritorySync.TerritoryOp | sync_territories_master/controllers/territories_master.controller.js:149-173 | one upsert under `Werk` whose `$set` holds at most `regionCode`, `regionName`, `zoneCode`, `zoneName` and `depoCode`: the region and depot codes from the record, the region name and zone code from the region maps (`""` when missing), and the zone name from the zone table |
| TerritorySync.TerritoryOps | sync_territories_master/controllers/territories_master.controller.js:149-173 | one upsert per territory record, in order |
| TerritorySync.FetchError | sync_territories_master/controllers/territories_master.controller.js:123-126 | `Promise.all` fails exactly when either fetch fails, with that fetch's error; when both fail, with the error of the one that rejected first |
| TerritorySync.SyncTerritoriesMaster | sync_territories_master/controllers/territories_master.controller.js:100-211 | with both lists, the ordered `bulkWrite` applies the territory upserts up to the first that fails; with no failure the log succeeds with `totalTerritories` and `totalRegions` equal to the two lengths, otherwise it fails with that write's error, which is rethrown; a failed fetch or a reply without `d.results` writes nothing, fails the log with the error and rethrows |
| TerritorySync.TerritoryStored | sync_territories_master/controllers/territories_master.controller.js:138-176 | a territory no later record overrides is stored with the name, zone code and zone name of the last region row for its region |
| TerritorySync.UnknownRegionEmpty | sync_territories_master/controllers/territories_master.controller.js:150-152 | a territory whose region is in no region row gets `""` for its region name, zone code and zone name |
| TerritorySync.UnmappedEmpty | sync_territories_master/controllers/territories_master.controller.js:150-152 | the same for any maps lacking the region |
| TerritorySync.TerritorySnapshot | sync_territories_master/controllers/territories_master.controller.js:149-176 | the collection stays keyed by `depoCode`, and re-applying a snapshot changes nothing |
| TyreMappingSync.Rewrite | sync_tyre_tubbing_mapping_master/controllers/tyre_tubbing_mapping_master.controller.js:125-132 | a leading R, P or Q becomes 1, 2 or 3; only the first character changes, and other material numbers are unchanged |
| TyreMappingSync.AddVariant | sync_tyre_tubbing_mapping_master/controllers/tyre_tubbing_mapping_master.controller.js:161-172 | the target product's `Musthave` becomes the `$addToSet` of the id; no other product and no other field changes, and no product is added |
| TyreMappingSync.ItemStep | sync_tyre_tubbing_mapping_master/controllers/tyre_tubbing_mapping_master.controller.js:151-175 | definition: one mapping row: when the related product is stored and its id is not in the `Musthave` loaded at the start, `$addToSet` adds it to the target and `updatedCount` goes up by one; otherwise nothing changes |
| TyreMappingSync.ItemsRun | sync_tyre_tubbing_mapping_master/controllers/tyre_tubbing_mapping_master.controller.js:150-176 | definition: the rows of one product, in order |
| TyreMappingSync.ProductStep | sync_tyre_tubbing_mapping_master/controllers/tyre_tubbing_mapping_master.controller.js:120-181 | definition: one found product: no material number or a failed fetch changes nothing, an empty answer counts one skip, and otherwise its rows run against the rewritten material number |
| TyreMappingSync.MappingRun | sync_tyre_tubbing_mapping_master/controllers/tyre_tubbing_mapping_master.controller.js:120-181 | definition: the found products, in order |
| TyreMappingSync.AddVariants | sync_tyre_tubbing_mapping_master/controllers/tyre_tubbing_mapping_master.controller.js:150-176 | the item loop does exactly what `ItemsRun` describes |
| TyreMappingSync.SyncTyreTubbingMappingMaster | sync_tyre_tubbing_mapping_master/controllers/tyre_tubbing_mapping_master.controller.js:107-205 | the run processes each found product in order and the log ends `successful` with `totalProducts`, `updatedCount` and `skippedCount` |
| TyreMappingSync.AddVariantKeeps | sync_tyre_tubbing_mapping_master/controllers/tyre_tubbing_mapping_master.controller.js:161-172 | adding a stored product's id keeps every `Musthave` list duplicate-free and only grows `Musthave` by ids of stored products |
| TyreMappingSync.AddVariantDistinct | sync_tyre_tubbing_mapping_master/controllers/tyre_tubbing_mapping_master.controller.js:161-172 | `$addToSet` of any id keeps every `Musthave` list duplicate-free |
| TyreMappingSync.AddVariantOnlyAdds | sync_tyre_tubbing_mapping_master/controllers/tyre_tubbing_mapping_master.controller.js:161-172 | adding a stored product's id changes no product except by growing its `Musthave` |
| TyreMappingSync.OnlyAddsTrans | sync_tyre_tubbing_mapping_master/controllers/tyre_tubbing_mapping_master.controller.js:120-181 | two steps that only add `Musthave` ids compose to one that only adds |
| TyreMappingSync.ItemsRunKeeps | sync_tyre_tubbing_mapping_master/controllers/tyre_tubbing_mapping_master.controller.js:150-176 | one product's items keep the lists duplicate-free, only add ids, leave `skippedCount` alone and raise `updatedCount` by at most the item count |
| TyreMappingSync.ProductStepKeeps | sync_tyre_tubbing_mapping_master/controllers/tyre_tubbing_mapping_master.controller.js:120-181 | one product keeps the lists duplicate-free, only adds ids and raises `skippedCount` by at most one |
| TyreMappingSync.MappingRunKeeps | sync_tyre_tubbing_mapping_master/controllers/tyre_tubbing_mapping_master.controller.js:120-181 | the whole run keeps `Musthave` duplicate-free, only adds ids, and skips at most one per product |
| TyreMappingSync.UntargetedUntouched | sync_tyre_tubbing_mapping_master/controllers/tyre_tubbing_mapping_master.controller.js:163-165 | the update targets the original material number, so a product no found product names keeps its document |
| TyreMappingSync.ItemsUntouched | sync_tyre_tubbing_mapping_master/controllers/tyre_tubbing_mapping_master.controller.js:161-172 | an item loop writes to its target product only |
| TyreMappingSync.ListedNotCounted | sync_tyre_tubbing_mapping_master/controllers/tyre_tubbing_mapping_master.controller.js:157-159 | a related product already listed in the `Musthave` loaded at the start is neither added nor counted |
| TyreMappingSync.MissingRelatedNoChange | sync_tyre_tubbing_mapping_master/controllers/tyre_tubbing_mapping_master.controller.js:173-175 | a missing related product changes nothing and counts nothing |
| ProductSync.ProductType | sync_product_master/controllers/product.controller.js:98-105 | P or 2 gives tube, Q or 3 gives flap, and anything else, including 1, R and the empty string, gives tyre |
| ProductSync.ConstName | sync_product_master/controllers/product.controller.js:106 | code "1" is BIAS, "2" is RADIAL, and anything else is `""` |
| ProductSync.ParentFlag | sync_product_master/controllers/product.controller.js:91 | a non-empty upstream flag is kept, and anything else becomes "N" |
| ProductSync.ImageUrl | sync_product_master/controllers/product.controller.js:109 | the image is the table entry of the category code, and undefined for a code the table lacks |
| ProductSync.TyrePattern | sync_product_master/controllers/product.controller.js:69-110 | `tyrePattern` is the `Ydesc` of the pattern stored under (`PatCode`, `CatCode`), and `null` when there is none |
| ProductSync.CopyFields | sync_product_master/controllers/product.controller.js:89-121 | each upstream field the record has is copied under its target name, and nothing else is |
| ProductSync.Derived | sync_product_master/controllers/product.controller.js:91-110 | the derived fields never touch `companyName` |
| ProductSync.DerivedFields | sync_product_master/controllers/product.controller.js:92-105 | `materialNo`, `productName` and `productType` come from `Matnr`, `ProdTitle` and the prefix rule |
| ProductSync.DerivedFlags | sync_product_master/controllers/product.controller.js:91-106 | `productNameSearch`, `Const` and `ParentFlg` follow the strip, construction and default rules |
| ProductSync.DerivedLookups | sync_product_master/controllers/product.controller.js:107-110 | `imageUrl` and `tyrePattern` come from the image table and the pattern lookup, and no other field is derived |
| ProductSync.ProductOp | sync_product_master/controllers/product.controller.js:86-125 | the `updateMany` upserts under `Matnr` with the copied and derived fields, and inserts the product defaults with the material number |
| ProductSync.Survivors | sync_product_master/controllers/product.controller.js:60-141 | the records that reach the write all carry `Matnr` and `ProdTitle` |
| ProductSync.Ops | sync_product_master/controllers/product.controller.js:86-125 | definition: the upserts of the given records, in order |
| ProductSync.Written | sync_product_master/controllers/product.controller.js:60-141 | definition: the upserts of the records that survive: they did not fail and carry `Matnr` and `ProdTitle` |
| ProductSync.WriteAll | sync_product_master/controllers/product.controller.js:60-141 | the `for await` loop applies exactly the upserts of the surviving records, in order |
| ProductSync.WrittenSnoc | sync_product_master/controllers/product.controller.js:60-141 | one more record adds its upsert after the others if it survives, and nothing otherwise |
| ProductSync.SyncProductMaster | sync_product_master/controllers/product.controller.js:32-160 | an empty action fails the log's `create`; with a result list the surviving records are written and the log succeeds; otherwise nothing is written, the log fails with the message, and the error goes to `next` with status 400, or the run resolves when there is no `next` |
| ProductSync.NameSearchClean | sync_product_master/controllers/product.controller.js:97 | `productNameSearch` is alphanumeric and stripping it again changes nothing |
| ProductSync.StandardKeepsCompany | sync_product_master/controllers/product.controller.js:89-121 | the copy table of the source never writes `companyName` |
| ProductSync.StandardAvoids | sync_product_master/controllers/product.controller.js:89-121 | the copy table of the source never writes `companyName`, `active`, `jkStock`, `Musthave` or `imageUrl` |
| ProductSync.NewProductStored | sync_product_master/controllers/product.controller.js:86-125 | a record whose material number is not stored inserts a product with `companyName` JK, `jkStock` 0, `active` true and so visible, no `Musthave` (mongoose would store `[]`), and `materialNo` equal to its `Matnr`; the schema defaults survive because the `$set` avoids those fields |
| ProductSync.ExistingKeepsDefaults | sync_product_master/controllers/product.controller.js:86-125 | updating a stored product keeps its `companyName`, `active`, `jkStock` and `Musthave` as they were |
| ProductSync.ProductImage | sync_product_master/controllers/product.controller.js:107-109 | the `$set` carries the image table's entry for the record's category code, and no `imageUrl` at all for a code the table lacks |
| ProductSync.RunMaterialNoUnique | sync_product_master/controllers/product.controller.js:86-125 | after a run, in a collection keyed by material number, no two stored products share a `materialNo` |
| ProductSync.ProductOpValid | sync_size_master/models/product.model.js:20-58 | writing a record with a non-empty `Matnr` and `ProdTitle` keeps every stored product schema-valid |
| ProductSync.ProductRecordStored | sync_product_master/controllers/product.controller.js:86-125 | when no record fails, a record no later record overrides is stored under its material number with every field of its update |
| ProductSync.AllSurvive | sync_product_master/controllers/product.controller.js:133-140 | when no record fails and all carry the two fields, every record is written |
| ProductSync.SurvivorsFrom | sync_product_master/controllers/product.controller.js:133-140 | every surviving record is an input record that did not fail |
| ProductSync.WrittenOnlySurvivors | sync_product_master/controllers/product.controller.js:133-140 | every write belongs to a record that did not fail, so a failed record writes nothing |
| ProductSync.ProductSnapshot | sync_product_master/controllers/product.controller.js:86-125 | the collection stays keyed by material number, and re-running the same answer changes nothing |
| SizeSync.SizeOp | sync_size_master/controllers/size_master.controller.js:125-138 | a size record upserts under `ZsizeCd` and sets only `ZsizeCd`, `Ydesc` (`Desc1`, untrimmed) and `CatCode` |
| SizeSync.Selects | sync_size_master/controllers/size_master.controller.js:143-145 | definition: the product filter: `prodSize` equals the record's `ZsizeCd` and `Catcode` its `CatCode`, a missing code reading as `undefined` |
| SizeSync.SetTyreSize | sync_size_master/controllers/size_master.controller.js:142-151 | exactly the products with `prodSize = ZsizeCd` and `Catcode = CatCode` get `tyreSize`, and the others are unchanged |
| SizeSync.Modified | sync_size_master/controllers/size_master.controller.js:143-151 | `modifiedCount` is every product the filter selects, since `timestamps: true` makes each matched update set `updatedAt`; it is 0 exactly when no product is selected |
| SizeSync.ModifiedKept | sync_size_master/controllers/size_master.controller.js:143-151 | a `tyreSize` update does not change which products a later update selects, so it does not change that update's `modifiedCount` |
| SizeSync.ModifiedAfterRun | sync_size_master/controllers/size_master.controller.js:143-151 | a whole run of `tyreSize` updates does not change any update's `modifiedCount` |
| SizeSync.MatchedSum | sync_size_master/controllers/size_master.controller.js:143-166 | definition: the number of stored products each record's filter selects, summed over the records |
| SizeSync.ModifiedSumMatched | sync_size_master/controllers/size_master.controller.js:160-166 | `productsUpdated` equals, record by record, the number of products the filter selects in the collection as it was before the run |
| SizeSync.MatchedAfterRun | sync_size_master/controllers/size_master.controller.js:143-166 | after a run, every record still selects as many products as before it |
| SizeSync.RerunCountsSame | sync_size_master/controllers/size_master.controller.js:160-172 | re-running the same snapshot logs the same `productsUpdated`, although no `tyreSize` changes the second time |
| SizeSync.SizeOps | sync_size_master/controllers/size_master.controller.js:125-138 | definition: the size upserts of the records, in order |
| SizeSync.ModifiedSum | sync_size_master/controllers/size_master.controller.js:160-166 | definition: the sum of the product updates' `modifiedCount`s, each taken on the products as the earlier updates left them |
| SizeSync.Count | sync_size_master/controllers/size_master.controller.js:165 | definition: `modifiedCount || 0`: a size document adds 0 |
| SizeSync.OddSum | sync_size_master/controllers/size_master.controller.js:164-166 | definition: the sum over the odd positions 1, 3, 5, … |
| SizeSync.QueuedOf | sync_size_master/controllers/size_master.controller.js:124-152 | definition: a record's two queries: its size upsert, and the product update with its size code, category and trimmed description |
| SizeSync.Queries | sync_size_master/controllers/size_master.controller.js:122-157 | definition: the queries the `forEach` queues, record by record |
| SizeSync.RunSize | sync_size_master/controllers/size_master.controller.js:125-138 | definition: query 2k, the size upsert: applied unless it fails, and a failure becomes the rejection if it is the first |
| SizeSync.RunTyre | sync_size_master/controllers/size_master.controller.js:142-151 | definition: query 2k + 1, the product update: applied unless it fails, and a failure becomes the rejection if it is the first |
| SizeSync.Settle | sync_size_master/controllers/size_master.controller.js:160 | definition: `Promise.all` over the queued queries: each runs in queue order |
| SizeSync.LastTyreSize | sync_size_master/controllers/size_master.controller.js:142-151 | definition: the `tyreSize` a product ends with: the trimmed description of the last record whose filter selects it, or none |
| SizeSync.FirstWithoutDesc | sync_size_master/controllers/size_master.controller.js:148 | the first record without `Desc1`, on whose `trim` the `forEach` throws |
| SizeSync.TyreRun | sync_size_master/controllers/size_master.controller.js:142-151 | the product updates add no product |
| SizeSync.Results | sync_size_master/controllers/size_master.controller.js:120-160 | two results per record |
| SizeSync.WriteAll | sync_size_master/controllers/size_master.controller.js:120-187 | a record without `Desc1` throws in the `forEach` before any query runs, so nothing is written and the `trim` error is caught; otherwise `Promise.all` applies every size upsert and product update that succeeds, rejects with the first failure, and with no failure the products are those of the plain run and `productsUpdated` is the sum of the updates' `modifiedCount` |
| SizeSync.Queue | sync_size_master/controllers/size_master.controller.js:122-157 | the `forEach` throws exactly when some record lacks `Desc1`; otherwise it queues both queries of every record, in record order |
| SizeSync.Reject | sync_size_master/controllers/size_master.controller.js:160 | a failed query changes neither collection, and the first failure stays the rejection of `Promise.all` |
| SizeSync.SettleSizes | sync_size_master/controllers/size_master.controller.js:125-160 | `Promise.all` applies exactly the size upserts that succeed, in record order |
| SizeSync.SettleProducts | sync_size_master/controllers/size_master.controller.js:142-160 | `Promise.all` applies exactly the product updates that succeed, in record order |
| SizeSync.SettleRejection | sync_size_master/controllers/size_master.controller.js:160 | the rejection of `Promise.all` is the first failure among the record's 2n queries |
| SizeSync.SettleQueries | sync_size_master/controllers/size_master.controller.js:122-160 | the queued queries settle to the landed size upserts, the landed product updates and the first failure |
| SizeSync.QueuedSizeOps | sync_size_master/controllers/size_master.controller.js:125-138 | the queued size upserts are the records' own size upserts, in order |
| SizeSync.UpdatesEvery | sync_size_master/controllers/size_master.controller.js:142-151 | when every product update succeeds, the products are those of the plain run |
| SizeSync.UpdatesLanded | sync_size_master/controllers/size_master.controller.js:142-151 | the product updates that land add no product and remove none |
| SizeSync.CountUpdated | sync_size_master/controllers/size_master.controller.js:163-166 | the strided loop sums the odd-index results |
| SizeSync.SyncSizeMaster | sync_size_master/controllers/size_master.controller.js:90-189 | with a result list, a record without `Desc1` writes nothing and fails the log with the `trim` error; otherwise the queries that succeed are applied, and with no failure the log succeeds with `totalSizes` equal to the record count and `productsUpdated` equal to the sum of the product updates, while a failed query fails the log with the first failure and rethrows; a failed fetch or a reply without `d.results` writes nothing, fails the log and rethrows |
| SizeSync.ResultsLayout | sync_size_master/controllers/size_master.controller.js:122-152 | record i's size result sits at 2i and its product result at 2i+1 |
| SizeSync.OddSumIsTotal | sync_size_master/controllers/size_master.controller.js:163-166 | with the size results at the even positions, the odd-index sum is the total |
| SizeSync.TotalSumConcat | sync_size_master/controllers/size_master.controller.js:163-166 | the total of two result lists is the sum of their totals |
| SizeSync.TotalIsModified | sync_size_master/controllers/size_master.controller.js:160-166 | the total of the results is the sum of the product updates' `modifiedCount` |
| SizeSync.ProductsUpdatedTotal | sync_size_master/controllers/size_master.controller.js:163-172 | `productsUpdated` counts every product update's `modifiedCount`, each missing one as 0 |
| SizeSync.SizeRecordStored | sync_size_master/controllers/size_master.controller.js:125-138 | a record no later record overrides is stored under its size code with its description and category |
| SizeSync.SizesIdempotent | sync_size_master/controllers/size_master.controller.js:125-138 | the sizes stay keyed by size code, and re-applying a snapshot changes nothing |
| SizeSync.ProductTyreSize | sync_size_master/controllers/size_master.controller.js:142-151 | every product keeps all its fields except `tyreSize`, which is the trimmed description of the last record selecting it |
| SizeSync.SelectionKept | sync_size_master/controllers/size_master.controller.js:145 | setting `tyreSize` does not change which records select a product |
| SizeSync.ProductsIdempotent | sync_size_master/controllers/size_master.controller.js:142-151 | re-running the same records leaves the products as they are |
| SizeSync.RerunKeeps | sync_size_master/controllers/size_master.controller.js:142-151 | a rerun leaves each product's document as it is |
| FleetSync.FleetFieldsKeys | sync_customer_fleet_master/controllers/customer_fleet_master.controller.js:139-154 | the update always sets `isMobility` and never sets `active` or the other defaults; if it writes `fleetCode`, the value is the hub's fleet code |
| FleetSync.FleetOp | sync_customer_fleet_master/controllers/customer_fleet_master.controller.js:139-154 | the upsert is keyed by `fleetCode`; `hubs: [id]` is part of it exactly when no fleet was found |
| FleetSync.Pushed | sync_customer_fleet_master/controllers/customer_fleet_master.controller.js:133 | `push` appends the id to `hubs` and keeps every other field |
| FleetSync.Run | sync_customer_fleet_master/controllers/customer_fleet_master.controller.js:109-165 | `count` never exceeds the number of hubs |
| FleetSync.Queries | sync_customer_fleet_master/controllers/customer_fleet_master.controller.js:115-122 | one request per hub, filtered by its fleet code |
| FleetSync.FleetStep | sync_customer_fleet_master/controllers/customer_fleet_master.controller.js:112-164 | definition: one hub's `try` body: a failed or non-2xx request, a reply without a results list or an empty list writes nothing and is not counted; a `save` of a fleet that lacks its required paths rejects and is not counted; otherwise the hub id is pushed when the found fleet lacks it, the upsert is applied and the hub is counted |
| FleetSync.ProcessHub | sync_customer_fleet_master/controllers/customer_fleet_master.controller.js:112-164 | one hub's body does exactly what `FleetStep` describes |
| FleetSync.SyncCustomerFleetMaster | sync_customer_fleet_master/controllers/customer_fleet_master.controller.js:96-182 | the loop runs every hub in order and the log ends `successful` with `totalHubs` and `synced = count` |
| FleetSync.RunStep | sync_customer_fleet_master/controllers/customer_fleet_master.controller.js:109-165 | one more hub is one more step of the loop |
| FleetSync.MobilityIff | sync_customer_fleet_master/controllers/customer_fleet_master.controller.js:151 | `isMobility` is true exactly when `Class` is "MB" |
| FleetSync.FleetFieldsCopied | sync_customer_fleet_master/controllers/customer_fleet_master.controller.js:142-145 | the fleet code, `fleetName`, `pinCode` and `address` come from the hub and from `Name1`, `Pincode` and `Address` |
| FleetSync.FleetFieldsContact | sync_customer_fleet_master/controllers/customer_fleet_master.controller.js:146-149 | `city`, `mobile`, `gstNo` and `Vkbur` come from `City1`, `Mobile`, `GstNo` and `Vkbur` |
| FleetSync.StepCounted | sync_customer_fleet_master/controllers/customer_fleet_master.controller.js:124-164 | a hub is counted exactly when its request returned at least one row and the save did not reject; an uncounted hub writes nothing |
| FleetSync.StepFrame | sync_customer_fleet_master/controllers/customer_fleet_master.controller.js:127-154 | a hub's step touches only the fleet under its fleet code |
| FleetSync.HubLinked | sync_customer_fleet_master/controllers/customer_fleet_master.controller.js:127-154 | after a counted hub, its fleet is stored and visible; an existing fleet's `hubs` gains the hub id only if absent, and a new fleet's is `[hub._id]` |
| FleetSync.StepKeepsNoDup | sync_customer_fleet_master/controllers/customer_fleet_master.controller.js:131-136 | one hub keeps every fleet's `hubs` duplicate-free |
| FleetSync.RunKeepsNoDup | sync_customer_fleet_master/controllers/customer_fleet_master.controller.js:109-165 | the whole run keeps every `hubs` list duplicate-free |
| FleetSync.StepIdempotent | sync_customer_fleet_master/controllers/customer_fleet_master.controller.js:127-154 | processing the same hub with the same answer again right after (one step) changes nothing |
| FleetSync.LastUpdateHolds | sync_customer_fleet_master/controllers/customer_fleet_master.controller.js:139-154 | after a counted hub, the fleet carries every field of the update |
| FleetSync.NoRowsNoWrites | sync_customer_fleet_master/controllers/customer_fleet_master.controller.js:124-160 | when each answer is an empty list, nothing is written and `count` is 0 |
| FleetSync.NewFleetDefaults | sync_customer_fleet_master/models/customerFleet.model.js:14-71 | a new fleet gets `enableReplacementWithoutInspection` false, `canCreateOrder` true, `active` true, `hubs` `[hub._id]`, and `isMobility` from `Class` |
| FleetSync.ReApply | sync_customer_fleet_master/controllers/customer_fleet_master.controller.js:139-154 | an upsert whose fields a live fleet already holds changes nothing |
| CategorySync.CategoryOp | sync_category_master/controllers/category_master.js:20-35 | each result upserts under its `CatCode` |
| CategorySync.CategoryOps | sync_category_master/controllers/category_master.js:20-35 | one upsert per result, in order |
| CategorySync.Settlement | sync_category_master/controllers/category_master.js:20-44 | with no result the promise never settles; with results it resolves exactly when every upsert landed, and a failed upsert crashes the process with an unhandled rejection |
| CategorySync.SyncCategoryMaster | sync_category_master/controllers/category_master.js:5-58 | no action fails `create`; with a result list every landing upsert is applied and the log becomes `successful` exactly when the promise resolves; a failed fetch or a reply without `d.results` writes nothing, leaves the log `pending` and crashes the process |
| CategorySync.AllLand | sync_category_master/controllers/category_master.js:20-44 | definition: every one of the first n upserts succeeds |
| CategorySync.RunCallbacks | sync_category_master/controllers/category_master.js:20-44 | the callbacks apply every landing upsert in index order; the ending is `Settlement`, and the log becomes `successful` exactly when the promise resolves |
| CategorySync.SyncCategoryMasterSettled | sync_category_master/controllers/category_master.js:5-58 | the corrected run always settles, never crashes and never leaves the log `pending` |
| CategorySync.EmptyNeverSettles | sync_category_master/controllers/category_master.js:20-44 | as written, zero results leave the promise pending forever, and any failed upsert crashes the run, the first failing being one that did not land |
| CategorySync.CategoryFields | sync_category_master/controllers/category_master.js:22-34 | the update sets `deleted: false`, `CatCode`, `Mandt` and `Ydesc` from the record |
| CategorySync.CategoryGroupings | sync_category_master/controllers/category_master.js:22-34 | the update sets `CompInd`, `Division`, `SymId`, `SelectionGrouping` and `DashboardGrouping` from the record |
| CategorySync.CategoryRecordStored | sync_category_master/controllers/category_master.js:20-35 | with every upsert landing, a record no later record overrides is stored under its code with its fields |
| CategorySync.CategorySnapshot | sync_category_master/controllers/category_master.js:20-35 | the collection stays keyed by `CatCode`, and re-applying a snapshot changes nothing |
| CatalogueSync.CatalogueOp | sync_catalogue_master/controllers/catalogue_master.controller.js:18-28 | each result upserts under (`MatnrTyre`, `MatnrTf`) |
| CatalogueSync.CatalogueOps | sync_catalogue_master/controllers/catalogue_master.controller.js:16-28 | one upsert per result, in order |
| CatalogueSync.Settlement | sync_catalogue_master/controllers/catalogue_master.controller.js:30-41 | definition: as written: no record never settles, any failed upsert rejects with the error list, and otherwise the last index resolves with `[]` |
| CatalogueSync.SyncCatalogueMaster | sync_catalogue_master/controllers/catalogue_master.controller.js:1-47 | with a result list, every landing upsert is applied and the promise ends as `Settlement` says; a failed fetch or a reply without `d.results` rejects with that error and writes nothing |
| CatalogueSync.WriteAll | sync_catalogue_master/controllers/catalogue_master.controller.js:16-42 | the callbacks apply every landing upsert; `errors` is the list of failures; the run rejects exactly when that list is not empty and resolves exactly when it is empty and there was a record |
| CatalogueSync.SettlementFixed | sync_catalogue_master/controllers/catalogue_master.controller.js:30-41 | the corrected rule always settles, matches the original when there are records, and resolves exactly when no upsert failed |
| CatalogueSync.EmptyNeverSettles | sync_catalogue_master/controllers/catalogue_master.controller.js:16-32 | as written, zero results never settle the promise; the corrected rule resolves with `[]` |
| CatalogueSync.ErrorsExactly | sync_catalogue_master/controllers/catalogue_master.controller.js:33-41 | `errors` is empty exactly when every upsert succeeded |
| CatalogueSync.ErrorsCounted | sync_catalogue_master/controllers/catalogue_master.controller.js:33-41 | there is one " ADDING" entry per failed upsert |
| CatalogueSync.CatalogueFields | sync_catalogue_master/controllers/catalogue_master.controller.js:18-28 | the update sets both material numbers, `Priority`, `Tyre` and `deleted: false` |
| CatalogueSync.CatalogueRecordStored | sync_catalogue_master/controllers/catalogue_master.controller.js:18-28 | with every upsert landing, a record no later record overrides is stored under its pair |
| CatalogueSync.CatalogueSnapshotIdempotent | sync_catalogue_master/controllers/catalogue_master.controller.js:18-28 | re-applying a fully landed snapshot changes nothing |
| Jobs.Ended | sync_category_master/jobs/sync_category_master.js:14-21 | a settled sync is never skipped; a rejection is logged with its message, never rethrown |
| Jobs.RunGuard.constructor | sync_category_master/jobs/sync_category_master.js:3 | the flag starts clear |
| Jobs.RunGuard.Begin | sync_category_master/jobs/sync_category_master.js:7-15 | a call while the flag is set does not call the sync; otherwise the flag is set before the sync is called |
| Jobs.RunGuard.Finish | sync_category_master/jobs/sync_category_master.js:18-24 | after the sync settles, the error is logged and swallowed and the flag is cleared |
| Jobs.RunGuard.Invoke | sync_category_master/jobs/sync_category_master.js:5-24 | one invocation is `Step` on the flag, and the sync is called exactly when the flag was clear |
| Jobs.Step | sync_category_master/jobs/sync_category_master.js:5-24 | definition: one cron tick on the `running` flag: skipped while it is set; otherwise the sync runs, and the flag is cleared after it unless it never settles |
| Jobs.Replay | sync_category_master/jobs/sync_category_master.js:5-24 | definition: ticks one after another, each starting from the flag the previous one left |
| Jobs.StepSpec | sync_category_master/jobs/sync_category_master.js:7-24 | a set flag skips the invocation; a clear flag runs the sync, logs its error, and leaves the flag set exactly when the sync never settles |
| Jobs.SettledRunsNeverSkip | sync_category_master/jobs/sync_category_master.js:22-24 | while every sync settles, no invocation is skipped and the flag is clear after each |
| Jobs.StuckAfterNeverSettles | sync_category_master/jobs/sync_category_master.js:12-24 | after an invocation whose sync never settles, the flag stays set and every later invocation is skipped |
| Jobs.RunningStaysSet | sync_category_master/jobs/sync_category_master.js:7-10 | a set flag skips every invocation |
| Jobs.CategoryEnd | sync_category_master/jobs/sync_category_master.js:15 | the guard's `await` hangs exactly when the category promise never settles, completes exactly when it resolves, and a crash ends the process, so the guard sees no ending at all |
| Jobs.CategoryEmptyAnswerLocksJob | sync_category_master/jobs/sync_category_master.js:12-24 | as written, an empty category answer locks the category job for good |
| Jobs.CategorySettledReleases | sync_category_master/jobs/sync_category_master.js:22-24 | with the corrected category run, the flag is clear after each invocation |
| Connection.ConnectStop | sync_customer_fleet_master/index.mjs:42-59 | definition: the number of connect attempts: none when `maxRetries <= 0`, else up to the first that connects or attempt `maxRetries` |
| Connection.ConnectOutcome | sync_customer_fleet_master/index.mjs:42-59 | definition: `connectWithRetry` returns when no attempt is allowed or the last attempt connects, and otherwise rethrows that attempt's error |
| Connection.Backoff | sync_customer_fleet_master/index.mjs:54 | definition: `Math.min(30000, 1000 * 2 ** attempt) + jitter` |
| Connection.MessageOf | sync_customer_fleet_master/index.mjs:67 | definition: `err.message || err.toString()` |
| Connection.ConnectWithRetry | sync_customer_fleet_master/index.mjs:42-59 | the loop makes `ConnectStop` attempts with result `ConnectOutcome`; it waits once fewer than it attempts, and the wait after failed attempt n is `Backoff(n, jitter)` |
| Connection.ConnectFromSpec | sync_customer_fleet_master/index.mjs:42-59 | the attempts stop at the first success or at `maxRetries` |
| Connection.ConnectStopSpec | sync_customer_fleet_master/index.mjs:42-59 | with `maxRetries <= 0` there is no attempt and the call returns; otherwise between 1 and `maxRetries` attempts are made, all before the last failed, and the last succeeded or was number `maxRetries` |
| Connection.ConnectReturnsIff | sync_customer_fleet_master/index.mjs:42-59 | the connect returns exactly when some attempt succeeds; otherwise every attempt is made and the last error is rethrown |
| Connection.BackoffSchedule | sync_customer_fleet_master/index.mjs:54 | the base wait lies between 2000 and 30000 ms, it is `1000·2^n` up to attempt 4 and 30000 from attempt 5, and the jitter adds 0 to 199 ms |
| Connection.Pow2Grows | sync_customer_fleet_master/index.mjs:54 | the exponential part grows with the attempt number |
| Connection.IsIgnorable | sync_customer_fleet_master/index.mjs:64-83 | a falsy error is not ignorable; the two closed-client error names and the `ResetPool` label are ignorable |
| Connection.PoolClosedMessageIgnorable | sync_customer_fleet_master/index.mjs:69-76 | a message containing `MongoPoolClosedError`, which the `PoolClosedError` pattern matches, is ignorable |
| Connection.PhrasesIgnorable | sync_customer_fleet_master/index.mjs:69-82 | a message containing the closed-pool phrase or the cancelled-socket phrase is ignorable |
| Connection.OtherErrorsNotIgnorable | sync_customer_fleet_master/index.mjs:79-82 | an error with another name and label and an unrelated message is not ignorable |
| Connection.SafeDisconnect | sync_customer_fleet_master/index.mjs:85-111 | the disconnect never throws; it called `disconnect` exactly when `readyState` is not 0, and reports an ignored race exactly for an ignorable error |
| Connection.HandlerResponse | sync_customer_fleet_master/index.mjs:127-144 | the handler's status is 200 or 500 |
| Connection.Handler | sync_customer_fleet_master/index.mjs:116-144 | the handler's answer is `HandlerResponse` of the five-attempt connect and of how the sync ends; the disconnect outcome does not change it |
| Connection.HandlerStatus | sync_customer_fleet_master/index.mjs:127-144 | 200 exactly when some of the five attempts connects and the sync settles; when all five fail, 500 with the last error's message |
| Connection.ProductExit | sync_product_master/index.js:47-75 | the process exits with 0 or 1 |
| Connection.ProductMain | sync_product_master/index.js:8-75 | a missing `MONGO_URI` exits before any connect; otherwise `ConnectStop` connects are made, and every exit 1 after a URI follows an attempted disconnect |
| Connection.ProductExitIff | sync_product_master/index.js:47-75 | exit 0 exactly when the URI is set, the first successful connect has `readyState` 1, the sync settles and the disconnect does not fail; no attempt at all exits 1 |

## Left out

- HTTP transport details: axios agents, timeouts, headers and the
  `Date.now()` durations in the logs. Each request is a given outcome.
- MongoDB internals: connection state, `bulkWrite` result normalisation,
  query planning and strict-mode dropping of undeclared fields. The pattern
  job's `error` and `meta` writes and the category/catalogue `deleted` field
  are kept in the model, although the schema would drop them.
- Concurrency: the queries under `Promise.all` in the hub and size jobs
  run one after another in array order, and every one of them runs; the
  rejection is the first failure in that order, where the source would
  reject with the first in time. The async `forEach` callbacks of the
  category and catalogue jobs also run in index order. After a category
  crash, every upsert still in flight that succeeds is taken to land.
- Store writes that fail: these are the `lands`/`fails` inputs. A failing
  `findOne`, `save` or `findOneAndUpdate` in the fleet loop is not modelled,
  apart from `save` rejecting a fleet without its required paths, and
  neither is a failing `findOne` or `updateMany` in the tyre/tube loop.
- Failing reads: a `find` that rejects is not modelled. That includes the
  fleet job's `customerHubModel.find({})` (customer_fleet_master.controller.js:103),
  which would take the outer `catch` at lines 173-180, and the tyre/tube job's
  `Product.find`. `FleetSync.SyncCustomerFleetMaster` therefore always ends `Done`.
- Failing `SyncLog` writes: a `SyncLog.create` or `findByIdAndUpdate` that
  rejects for a reason other than schema validation is not modelled. The
  validation failure of `create` on an empty action is modelled.
- Timestamps: the `createdAt` and `updatedAt` paths that `timestamps: true`
  adds are not stored in the model. Every idempotence lemma (a rerun
  "changes nothing") holds up to `updatedAt`. The one place where the
  timestamps change a result is the size job's `modifiedCount`, which
  `SizeSync.Modified` counts as every matched product.
- Array defaults: mongoose stores `[]` for an array path a new document
  lacks (`Musthave` of a product; `hubs`, `mappedFleets` and `KAMs` of a
  fleet). The model leaves such a path out. A new fleet's `hubs` is written as
  `[id]` anyway, `mappedFleets` and `KAMs` are never read, and the
  tyre/tube job reads a missing `Musthave` like `[]`.
- Soft-deleted documents: under the `active != false` filter, an upsert that
  meets a soft-deleted hub or fleet overwrites it in the model. MongoDB
  would insert a second document.
- Undefined filter keys: a record without its natural key upserts under
  `undefined`, which the model keys like any other value.
- Mongoose subdocuments: `Musthave` entries are `{ variant }` subdocuments
  with their own `_id`. The model stores them as plain ids, so `$addToSet`
  is set insertion.
- The axios nuance where an explicit `validateStatus: undefined` may turn
  off status validation: the status check is a parameter.
- The outer `catch` of the category controller: it is unreachable, because
  every error is raised inside the promise executor.
- Unhandled rejections: the category model takes Node 15 or later, where an
  unhandled rejection ends the process (`Crashes`). On older runtimes the
  promise would stay pending instead.
- Body `Malformed`: a reply whose `d.results` is missing and one whose
  `d.results` is truthy but not an array are one case. For the second, the
  hub (lines 112/155), size (lines 113/122) and tyre/tube mapping (lines
  142/150) jobs pass the guard and throw a TypeError on the first array
  method, which the model does not distinguish from the invalid-response
  path.
- The territory log's `bulkResult` counts (lines 185-198): the inserted,
  modified and upserted figures depend on MongoDB's report and are not part
  of the modelled `meta`.
- Jobs.RunGuard in a warm Lambda: `Connection.Handler` starts from a fresh
  guard on each call, while a warm Lambda container keeps the module-level
  `running` flag from the call before.
- Per-product errors in the tyre/tube mapping job: only a failed fetch is
  modelled. A throwing `findOne` or `updateMany` there is not.
- The `find` inputs: the products with `Flag` "F", the stored hubs and the
  order `find` returns them in are inputs, not computed.
- The hub job's `fleets` array (lines 121-126): it is filled but never read.
- The product job's `SapLogger.create`: the audit write to a second
  collection is not modelled.
- Process effects: `process.exit`, the SIGINT/SIGTERM handlers, `dotenv`
  and `printOutboundIp`. The values the entry points read from the
  environment are parameters; only the pattern job's batch size, whose
  `parseInt` may give zero, a negative number or `NaN`, is modelled by what
  it parses to.
- `Math.random` jitter: it is a parameter, bounded below 200 where that
  matters.
- The unused `robustGet` copy in the fleet controller (lines 32-91). The
  fleet fetch is one axios call with no retry.
- The winston logger wrapper and the plain schema declarations of the
  territory, category, size, catalogue, pattern and SAP-logger models. They
  are used only as record shapes.
- Connection.IsIgnorable: the message cases are stated by
  `PoolClosedMessageIgnorable` and `PhrasesIgnorable`. The "false otherwise"
  direction is stated for one representative message
  (`OtherErrorsNotIgnorable`), not for every message without the phrases.
- Connection.Handler: `readyState` and the disconnect outcome are inputs,
  and the response does not depend on them.
- Jobs.RunGuard: the guard keeps one more field, `calls`, beside `running`.
  It records the flag's value at each call of the sync. There is no
  concurrency: an invocation whose sync never settles is one that is still
  awaiting when later ticks arrive.

## Findings

| source | as written | input that shows it | evidently intended | confidence | as-written member | corrected member |
|---|---|---|---|---|---|---|
| sync_category_master/controllers/category_master.js:20-44 | only the callback of the last index resolves, so a run with no record never settles | a CatMstSet reply with `d.results = []`: no callback runs, the promise never settles, the log stays `pending`, and the job's `running` flag is never cleared, so every later tick is skipped (a failed fetch or a failed upsert crashes the process instead) | settle after the upserts whatever their number, and fail the log on a fetch error | high (derived from the code; not executed) | CategorySync.EmptyNeverSettles, Jobs.CategoryEmptyAnswerLocksJob | CategorySync.SyncCategoryMasterSettled, Jobs.CategorySettledReleases |
| sync_catalogue_master/controllers/catalogue_master.controller.js:16-32 | resolves only from the callback of the last index | a CatalogTtfDtlSet reply with `d.results = []`: no callback runs and the promise never settles | resolve with the empty `errors` list when there are no records | high (derived from the code; not executed) | CatalogueSync.EmptyNeverSettles | CatalogueSync.SettlementFixed |
| sync_pattern_master/controllers/pattern_master.controller.js:153-188 | the batch loop steps `i` by the parsed `SYNC_BULK_BATCH_SIZE` without checking it | `SYNC_BULK_BATCH_SIZE=0` or `-1` with at least one record: `i` never grows, every pass after the first takes an empty slice, and the job never finishes, its log left `pending`; with `abc` (`NaN`) nothing is written and the log says `successful` with `processed: 0` | consecutive non-empty slices of a positive batch size covering every record | high (derived from the code; not executed) | PatternSync.SyncPatternMaster, PatternSync.NonPositiveSizeLoops | PatternSync.WriteAll |
