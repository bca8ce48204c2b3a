# Contract event listener: a Dafny model

This project models the core of a service that follows smart contracts on
an Ethereum chain. The service keeps a registry of contracts, each with the
events it tracks, a sync cursor (`latestBlock`) and per-event listening
flags. It back-fills past logs and then subscribes to new ones. It stores
contracts, events and token records in a document store, and it enriches
token records with an image URL fetched through the public IPFS gateway.
An HTTP query layer translates query strings into store queries.

The model has one Dafny module per part of the program:

- `Common` (`common.dfy`) holds shared values: `Option`, a JSON value type, the
  chain's event record, the event-or-batch payload, the batch maximum block
  and ASCII case folding.
- `Text` (`text.dfy`) holds the string built-ins the program relies on:
  first-occurrence `replace`, `split` with its round trip, and `parseInt` on
  decimal and `0x` hexadecimal strings.
- `Persistence` (`persistence.dfy`, `src/modules/database.ts`) is the store.
  Each collection is a sequence in insertion order, so the position of a
  document is its object id. There are pure transition functions for
  `eventHandler`, `updateContract`, `updateToken` and `methodHandler`. The
  class `Database` has one method per store operation.
- `Watcher` (`watcher.dfy`, `src/modules/listen.ts`) is the per-contract
  reader. It covers constructor defaults, the range split on the provider's
  10000-result limit, range defaults, network tagging, subscriptions and
  method calls.
- `Registry` (`registry.dfy`, `src/modules/listener.ts`) is the class
  `Listener`. Its fields `contracts`, `order` (the insertion order of its
  keys), `isListening` and `requests` are updated in place. `requests` is the
  log of back-fill and subscription requests handed to the watchers.
- `TokenUri` (`token_uri.dfy`, `src/modules/handlers/uri.ts`) rewrites the
  metadata URI, resolves the image with its three-way fallback and reshapes
  the token record.
- `ApiHelper` (`api_helper.dfy`, `src/utils/apiHelper.ts`) is `makeQuery`:
  filter, renaming under a query name, sort, select, skip and limit.
- `BlockWindows` (`block_windows.dfy`, `src/utils/listener.ts`) is the
  fixed-step chunker: the windows it asks for, and how many.

External calls are parameters:

- The chain client's `getPastEvents` is a function from a block range to a
  response.
- `fetch` is a function from a URL to a response.
- `JSON.parse` is a partial function.
- `isAddress` and the ABI's event list are fields of a `Web3` value.
- Asynchronous steps are modelled as running in program order, except where
  a finding below says otherwise.

JavaScript semantics the source depends on are written out:

- `key in object` also sees `Object.prototype` member names.
- `key in array` tests indices and array properties, not element values.
- `parseInt` (with no radix) reads a leading `0x` or `0X` as hexadecimal.
  Otherwise it reads decimal digits. A string with no digit gives `NaN`, and
  `NaN` propagates through subtraction.
- `String.replace` with a string pattern replaces the first occurrence only.

## Model

| member | source | states |
|---|---|---|
| Common.MaxBlock | src/modules/listener.ts:83 | `Math.max` over a non-empty batch: no record's block exceeds it, and some record has that block |
| Common.LowerSpec | src/modules/database.ts:52 | case folding (used for the `'i'` regex match) keeps the length and folds each character on its own |
| Common.LowerIdempotent | src/modules/database.ts:52 | folding twice is folding once, and a string matches its folded form ignoring case |
| Text.IndexOf | src/modules/handlers/uri.ts:11 | the first position where the pattern occurs, or none when it occurs nowhere |
| Text.IndexFrom | src/modules/handlers/uri.ts:11 | the first occurrence at or after a position, or none |
| Text.ReplaceFirstSpec | src/modules/handlers/uri.ts:11 | `replace` with a string pattern changes only the first occurrence, and leaves a string without the pattern as it is |
| Text.ReplaceFirstAtStart | src/modules/handlers/uri.ts:11 | a string starting with the pattern gets the replacement in front of the rest |
| Text.Split | src/utils/apiHelper.ts:86 | `split` always returns at least one part |
| Text.SplitJoin | src/utils/apiHelper.ts:86 | the parts of `split` hold no separator, and joining them gives back the string |
| Text.JoinSplit | src/utils/apiHelper.ts:97 | splitting a join of separator-free parts gives back the parts |
| Text.SplitNoSeparator | src/utils/apiHelper.ts:109 | a string without the separator splits into itself alone |
| Text.SplitPrefix | src/utils/apiHelper.ts:109 | splitting `a + sep + b`, where `a` holds no separator, gives `a` and then the parts of `b` |
| Text.ParseIntOfNat | src/utils/apiHelper.ts:110 | `parseInt` of a decimal numeral gives its value |
| Text.ParseIntHex | src/utils/apiHelper.ts:110 | `parseInt` of `0x` or `0X` followed by hexadecimal digits gives their hexadecimal value |
| Text.ParseIntHexMarkOnly | src/utils/apiHelper.ts:110 | `0x` not followed by a hexadecimal digit gives `NaN` |
| Text.ParseIntSkipsSpace | src/utils/apiHelper.ts:110 | leading ECMAScript white space or a line terminator never changes what `parseInt` reads |
| Persistence.InsertContractInto | src/schema/ContractSchema.ts:27 | inserting into the contract collection keeps (address, network) unique |
| Persistence.FirstContractMatch | src/modules/database.ts:271-282 | `findOneAndUpdate` picks the first document matching the filter, or none when none does |
| Persistence.UpdateContractKeepsIndex | src/modules/database.ts:254-283 | `updateContract` keeps the collection's size and keeps (address, network) unique |
| Persistence.FilterPathKeepsKeys | src/modules/database.ts:271-282 | without an id, no document's address or network changes |
| Persistence.FilterPathWritesFirstMatch | src/modules/database.ts:271-282 | without an id, only the first document that matches the case-insensitive filter can change |
| Persistence.IdPathRenames | src/modules/database.ts:262-270 | with an id, that document's address and network are rewritten; fields left undefined keep their value |
| Persistence.ExistenceIgnoresNetwork | src/modules/database.ts:50-55 | whether a contract exists depends on the address alone: changing a document's network does not change the answer |
| Persistence.ExistenceIgnoresCase | src/modules/database.ts:50-55 | two addresses equal ignoring case get the same existence answer |
| Persistence.InsertedExists | src/modules/database.ts:50-82 | after `insertContract`, saved or rejected as a duplicate, `isExistContract` of its address is true |
| Persistence.StoredEventFields | src/modules/database.ts:145-166 | `insertEvents` keeps the old documents first; the i-th new document carries the i-th event's address, block number, transaction hash, event name and return values, and the schema stores no network |
| Persistence.StoredAll | src/modules/database.ts:147-166 | `insertEvents` stores one projected document per event, in order |
| Persistence.FirstAtBlock | src/modules/database.ts:293-295 | `find` returns the first record carrying the block, or none |
| Persistence.FirstBlockIndex | src/modules/database.ts:293-295 | the first record at the maximum block is the one `find` returns |
| Persistence.CursorWrite | src/modules/database.ts:289-323 | an empty batch writes no cursor; a non-empty batch writes the batch maximum; a single event writes its own block |
| Persistence.EmptyBatchWritesNothing | src/modules/database.ts:290-291 | an empty batch changes neither the contracts nor the events |
| Persistence.StoredCursorCanDecrease | src/modules/database.ts:315-318 | a single event at an older block lowers the stored cursor |
| Persistence.FirstAddressMatch | src/modules/database.ts:271-274 | the cursor update without network goes to the first document whose address matches ignoring case |
| Persistence.BatchCursorIsMax | src/modules/database.ts:292-307 | after a batch, that document holds the batch maximum, and every other document is unchanged |
| Persistence.InsertTokenInto | src/schema/TokenSchema.ts:24 | inserting into the token collection keeps (address, network, tokenId) unique |
| Persistence.FirstOlderToken | src/modules/database.ts:237-243 | the update goes to the first token with the same key and an older block, or to none |
| Persistence.UpdateTokenLastBlockWins | src/modules/database.ts:237-243 | `updateToken` never changes a key and never lowers a block; a changed record matched the strict `$lt` filter and now carries the incoming block and data |
| Persistence.UpdateTokenSoleMatch | src/modules/database.ts:237-243 | for the only record with the key, the result holds the newer of the stored and incoming block and data; no other record changes |
| Persistence.MethodHandlerKeepsNewest | src/modules/database.ts:329-346 | after `methodHandler` exactly one record has the key; it holds `max(stored, incoming)` block, or the incoming record when none was stored |
| Persistence.MethodHandlerInserts | src/modules/database.ts:329-346 | a token with a new key is appended as it is |
| Persistence.OutOfOrderTokenUpdates | src/modules/database.ts:329-346 | tokens at block 10 and then block 5 leave the record at block 10 |
| Persistence.Database.IsExistContract | src/modules/database.ts:50-55 | `exists` scans for the first document whose address matches the argument ignoring case; the answer is true exactly when some stored address does |
| Persistence.Database.InsertContract | src/modules/database.ts:65-83 | succeeds exactly when no document has that (address, network), and then appends it; nothing else changes |
| Persistence.Database.UpdateContract | src/modules/database.ts:254-283 | the contract collection becomes `UpdateContractIn` of the old one; the store invariants hold |
| Persistence.Database.InsertEvent | src/modules/database.ts:89-130 | appends the projected event |
| Persistence.Database.InsertEvents | src/modules/database.ts:145-166 | appends the projected events in order; an empty list changes nothing |
| Persistence.Database.EventHandler | src/modules/database.ts:289-323 | stores the events and writes the cursor as the pure transition says |
| Persistence.Database.InsertToken | src/modules/database.ts:196-214 | succeeds exactly when the key is new, and then appends the token |
| Persistence.Database.UpdateToken | src/modules/database.ts:224-244 | tokens become `UpdateTokenIn` of the old ones |
| Persistence.Database.MethodHandler | src/modules/database.ts:329-346 | tokens become the insert-then-update result |
| Watcher.NewListenDefaults | src/modules/listen.ts:52-55 | leaving out the network and the interface builds the same watcher as passing `'rinkbey'` and the standard interface |
| Watcher.NewListenKeepsGiven | src/modules/listen.ts:52-55 | `??` replaces only a missing value: a given network, even `""`, and a given interface are kept, with that interface's events, and so are rpc and address |
| Watcher.AddressCheckOnlyWarns | src/modules/listen.ts:42-51 | the address check only warns: whatever `isAddress` says, the watcher is the same apart from the warning, which is raised exactly for a rejected address |
| Watcher.Tagged | src/modules/listen.ts:186-188 | every record, in order, gets the watcher's network |
| Watcher.Middle | src/modules/listen.ts:134 | `Math.round((s+e)/2)`: twice the middle is `s+e`, or `s+e+1` when the sum is odd (.5 rounds up) |
| Watcher.HalvesPartition | src/modules/listen.ts:134 | `[s,m]` and `[m+1,e]` are disjoint and together cover exactly `[s,e]` |
| Watcher.HalvesProgress | src/modules/listen.ts:134 | both halves are strictly shorter exactly when `e - s >= 2`; for `e - s <= 1` the left half is the whole range |
| Watcher.NoProgressDiverges | src/modules/listen.ts:151 | a limit error on a range of one or two blocks never ends, for any fuel |
| Watcher.OtherErrorsRethrown | src/modules/listen.ts:129-153 | any error other than the limit message is rethrown unchanged |
| Watcher.SplitTerminates | src/modules/listen.ts:119-155 | when the limit error occurs only on ranges wider than two blocks, the recursion ends within `e - s` steps |
| Watcher.SplitPartitions | src/modules/listen.ts:119-155 | the ranges actually fetched tile `[s,e]` in order, with no gap and no overlap |
| Watcher.SplitCollectsWindow | src/modules/listen.ts:121-127 | against a chain in block order, the collected records are exactly those in `[s,e]`, in order |
| Watcher.LimitSplitsOnce | src/modules/listen.ts:151-152 | `[0,20000]` over the cap, with both halves under it, makes exactly the queries `[0,10000]` and `[10001,20000]` |
| Watcher.Split | src/modules/listen.ts:119-154 | the awaited `recur`: a range is queried once; a limit error splits it at `Math.round` of the middle, left half first; any other error ends the load with that error. Its properties are the lemmas that follow |
| Watcher.Recur | src/modules/listen.ts:119-155 | the recursion appends what the specification function collects, and stops as it says |
| Watcher.LoadRange | src/modules/listen.ts:107-160 | `_loadPastEvents` with the two halves awaited: it returns the collected records starting from an empty accumulator |
| Watcher.LoadRangeAsWritten | src/modules/listen.ts:107-160 | as written: away from the limit path it gives what one awaited query gives, and it never reports more than one fetched range |
| Watcher.LimitPathLosesRecords | src/modules/listen.ts:151-159 | as written, once the first query hits the limit the load returns no record, while the awaited load returns every log of the range |
| Watcher.RangeDefaults | src/modules/listen.ts:196-201 | with no options the range is block 0 to the head; each bound is read from its own option alone, an absent field or 0 keeps the default and any other value replaces it |
| Watcher.ZeroFromBlockIsDefault | src/modules/listen.ts:199 | `fromBlock` 0 behaves like no `fromBlock` |
| Watcher.LoadPastEvents | src/modules/listen.ts:168-214 | an unknown event reaches no handler; a first success is handed over tagged; other errors are rethrown; the limit error runs the split over the defaulted range |
| Watcher.LimitPathDeliversWindow | src/modules/listen.ts:196-210 | with the split awaited, the limit path hands the handler exactly the chain's records in the defaulted range |
| Watcher.Subscription | src/modules/listen.ts:222-252 | an unknown event subscribes nothing; otherwise each arriving record is passed on with the network |
| Watcher.MethodOutcomes | src/modules/listen.ts:255-270 | the handler runs exactly when the call returns, and reading `methodName` back from its one-key argument gives the result; a failure reaches the caller with its own error |
| Watcher.MethodInjective | src/modules/listen.ts:255-270 | the outcome determines the call's result: two calls with the same outcome returned the same value or failed with the same error |
| Registry.BumpedIsMax | src/modules/listener.ts:70-74 | `_updateBlock` yields the larger of the cursor and the new block, so it never lowers the cursor |
| Registry.BumpedIdempotent | src/modules/listener.ts:70-74 | repeating the same update changes nothing |
| Registry.WrapperCursorIsBatchMax | src/modules/listener.ts:76-88 | on a non-empty batch, the cursor of the first record's address becomes max(old, batch maximum); an empty batch changes no cursor |
| Registry.CursorAddressesDiffer | src/modules/listener.ts:81-84 | the registry bumps the first record's address while the store writes the address of the record at the maximum block |
| Registry.FalseFlags | src/modules/listener.ts:109-114 | every listed event's flag is false; other flags of the address are kept |
| Registry.PastRequestsFor | src/modules/listener.ts:210-218 | one back-fill request per tracked event, in order, each from the current cursor |
| Registry.SubscriptionsForSpec | src/modules/listener.ts:256-264 | an event is subscribed exactly when it is tracked and its flag is not set |
| Registry.SubscriptionsAllOff | src/modules/listener.ts:256-264 | with no flag set, every tracked event is subscribed, in order |
| Registry.PastRequestsAllCovers | src/modules/listener.ts:231-244 | the whole-registry back-fill asks for every tracked event of every contract, from its cursor |
| Registry.SubscriptionsAllCovers | src/modules/listener.ts:276-289 | the corrected whole-registry subscription covers every tracked event whose flag is off |
| Registry.ListenAllAsWrittenFails | src/modules/listener.ts:280 | as written, the whole-registry branch throws as soon as a contract has an event, because it indexes with `address` |
| Registry.InitialFlagsOff | src/modules/listener.ts:34-43 | start-up sets the flag of every tracked event of every contract to false |
| Registry.InitialFlagsKeep | src/modules/listener.ts:34-43 | start-up adds no address and sets no flag to true |
| Registry.SetFlagsOff | src/modules/listener.ts:109-114 | only the given address's flags change, and they change as `FalseFlags` says |
| Registry.Listener.constructor | src/modules/listener.ts:30-49 | empty registry, then flags off, the whole-registry back-fill and then the subscriptions |
| Registry.Listener.InitFlags | src/modules/listener.ts:34-43 | the flags become `InitialFlags` of the old flags |
| Registry.Listener.UpdateBlock | src/modules/listener.ts:70-74 | succeeds exactly when the address is present; raises only that cursor, and only when the new block is greater |
| Registry.Listener.EventHandlerWrapper | src/modules/listener.ts:76-92 | applies the batch-maximum bump, then hands the payload to the store; an absent address throws before the store is reached |
| Registry.Listener.EventHandlerWrapperAsWritten | src/modules/listener.ts:213 | the wrapper as the watchers call it, passed without `bind` at lines 213, 237, 261 and 284: every delivery, an empty batch included, ends in a TypeError and leaves the cursors and the store unchanged |
| Registry.DeliveryStoresEvents | src/modules/database.ts:289-296 | what an unbound delivery loses: a single record or a non-empty batch that reaches the store appends all its events after the stored ones |
| Registry.ListenResubscribes | src/modules/listener.ts:255-262 | with every flag false, listenEvents(address) subscribes each tracked event again, so an event already subscribed in the log gets a second subscription (for `""` through the whole-registry loop) |
| Registry.Listener.RequestPastEvents | src/modules/listener.ts:210-218 | appends one back-fill request per tracked event |
| Registry.Listener.SubscribeEach | src/modules/listener.ts:256-264 | appends the subscriptions for the events whose flag is off |
| Registry.Listener.RequestAllPastEvents | src/modules/listener.ts:231-244 | appends the back-fill requests of every contract, in key order |
| Registry.Listener.SubscribeAll | src/modules/listener.ts:276-289 | appends the subscriptions of every contract, in key order (corrected reading) |
| Registry.Listener.LoadPastEvents | src/modules/listener.ts:205-249 | an unknown address gives failure and no request; a known one gets one request per event from its cursor; no address covers the registry |
| Registry.Listener.ListenEvents | src/modules/listener.ts:251-294 | subscribes only events whose flag is off and never changes contracts or flags; an unknown address gives failure |
| Registry.Listener.SubscribeAllAsWritten | src/modules/listener.ts:276-289 | the whole-registry loop as written: it stops with a TypeError as `ListenAllAsWritten` says |
| Registry.Listener.ListenEventsAsWritten | src/modules/listener.ts:251-294 | `listenEvents` as written: the key-given branch as intended; the whole-registry branch throws unless the registry tracks no event |
| Registry.WellformedAfterAdd | src/modules/listener.ts:94-114 | storing an entry under its own address, appending a new address to the key order and turning its flags off keeps every key once, one flag map per address and no flag on |
| Registry.Listener.AddEntry | src/modules/listener.ts:94-120 | stores the entry with `latestBlock = fromBlock`, turns its flags off, leaves other addresses' flags as they were, then back-fills and subscribes |
| Registry.Listener.PersistIfNew | src/modules/listener.ts:146-155 | the contract is saved, subject to the unique index, exactly when the store has no matching address; events and tokens are untouched |
| Registry.Listener.AddIfNew | src/modules/listener.ts:156-164 | an address not yet local gets its watcher, its entry, the last place in the key order, its flags off and its requests; a local address leaves the registry as it was |
| Registry.Listener.Add | src/modules/listener.ts:122-170 | normalises the events; fails and changes nothing exactly when the address is both local and stored; otherwise persists when not stored; a new address gets its entry, goes last in the key order, has its flags turned off and gets its back-fill and subscription requests, and nothing else in the registry changes; a local address leaves the registry as it was |
| Registry.Listener.AddAsWritten | src/modules/listener.ts:136-164 | with the un-awaited existence check, `add` never persists and fails exactly when the address is local; a new address is registered as in `Add` |
| Registry.Listener.AddEvent | src/modules/listener.ts:172-203 | corrected: an unknown address or a tracked event fails and changes nothing; a new event is appended, persisted, back-filled and subscribed |
| Registry.Listener.AddEventAsWritten | src/modules/listener.ts:172-203 | as written `addEvent` never succeeds: every registered address, even with a new event that the intended version appends, is told it does not exist, and only an unregistered address throws |
| TokenUri.ImageOf | src/modules/handlers/uri.ts:10-30 | the URL `fetchImageURL` settles with; it rejects exactly when the fetch gives a JSON body other than `null` without a string `image` |
| TokenUri.FetchImageURL | src/modules/handlers/uri.ts:10-30 | settles as `ImageOf` says: a JSON body gives its rewritten `image`; invalid JSON gives the URI rewritten twice; a failed request or a `null` body gives `""`; a non-string image rejects |
| TokenUri.GatewayRewriteStable | src/modules/handlers/uri.ts:11-27 | for `ipfs://<cid>`, the first rewrite gives the gateway URL and the second changes nothing |
| TokenUri.Reshaped | src/modules/handlers/uri.ts:39-50 | forwards address, network, tokenId and block unchanged, keeps the other data fields, and sets `media.image` to the URL |
| TokenUri.Forwarded | src/modules/handlers/uri.ts:37-50 | a record goes on exactly when `tokenURI` is a string, the image fetch settles with a URL and `media` is an object; it is then the token reshaped with that URL |
| TokenUri.UriHandler | src/modules/handlers/uri.ts:37-55 | forwards exactly `Forwarded(t, fetch)`, the token reshaped with the URL `ImageOf` gives, to `methodHandler`; a non-string URI, a rejected fetch or a non-object `media` forwards nothing and leaves the tokens as they were |
| TokenUri.ForwardsGatewayImage | src/modules/handlers/uri.ts:10-50 | a token with URI `ipfs://<cid>` whose gateway metadata names `ipfs://<img>` is forwarded with `media.image` set to the gateway URL of `<img>`, and its id and block kept |
| ApiHelper.FilterOfSpec | src/utils/apiHelper.ts:17-36 | a key is in the filter exactly when it is not `sort`, `range` or `select` and its value is not empty; its value is the parsed JSON, or the raw string when parsing fails |
| ApiHelper.LookupAbsent | src/utils/apiHelper.ts:18 | a key not in the query has no value |
| ApiHelper.AcceptedKeysSpec | src/utils/apiHelper.ts:63 | the keys walked when renaming are exactly the filter's keys, each once |
| ApiHelper.PrefixedHasDot | src/utils/apiHelper.ts:75 | a renamed key `queryName.key` holds a dot |
| ApiHelper.PrefixedInjective | src/utils/apiHelper.ts:75 | distinct keys get distinct renamed keys |
| ApiHelper.RenamedSpec | src/utils/apiHelper.ts:63-79 | an excluded key keeps its value; every other key is deleted and its value moves to `queryName.key` |
| ApiHelper.RenamedNoNew | src/utils/apiHelper.ts:63-79 | renaming introduces no dot-free key that was not in the filter |
| ApiHelper.TranslatedSpec | src/utils/apiHelper.ts:17-81 | for each query entry: rejected keys are absent; without a query name, or for an excluded key, the key keeps its value; otherwise it appears only as `queryName.key`; an `events` value is wrapped in `$in` |
| ApiHelper.LookupAt | src/utils/apiHelper.ts:18 | with distinct keys, each key's value is its own entry |
| ApiHelper.SchemaFieldsRenamed | src/utils/apiHelper.ts:66-73 | `"address"` is not an index of the key array while `"0"` is: the `in` test checks indices, not field names |
| ApiHelper.AddressFilterRenamed | src/utils/apiHelper.ts:63-79 | as written, an `address` filter under a query name moves to `queryName.address`; with the field-name test it stays `address` |
| ApiHelper.SortOfKeys | src/utils/apiHelper.ts:84-92 | each item contributes `item.slice(1)`, and only those keys, with direction +1 or -1 |
| ApiHelper.SortOfLastWins | src/utils/apiHelper.ts:84-92 | the last item with a given key decides its direction |
| ApiHelper.SortItems | src/utils/apiHelper.ts:89 | `-field` sorts descending; any other first character is dropped and the rest sorts ascending |
| ApiHelper.SelectOfSpec | src/utils/apiHelper.ts:95-103 | each space-separated token, and only those, maps to 1 |
| ApiHelper.RangeWindow | src/utils/apiHelper.ts:108-112 | the range `"a-b"` gives `skip = a` and `limit = b - a` |
| ApiHelper.RangeOfParts | src/utils/apiHelper.ts:108-112 | for `a-b` with no dash in either part, `skip` is `parseInt(a)` and `limit` is `parseInt(b) - parseInt(a)`, `NaN` when either is |
| ApiHelper.RangeWithoutDash | src/utils/apiHelper.ts:111 | a range without `-` gives a `NaN` limit |
| ApiHelper.BuildFilter | src/utils/apiHelper.ts:17-36 | the filter loop builds `FilterOf` and walks its keys in query order |
| ApiHelper.RenameKeys | src/utils/apiHelper.ts:63-79 | the renaming loop builds `Renamed` |
| ApiHelper.BuildSort | src/utils/apiHelper.ts:84-92 | the sort loop builds `SortOf` |
| ApiHelper.BuildSelect | src/utils/apiHelper.ts:95-103 | the select loop builds `SelectOf` |
| ApiHelper.MakeQueryWith | src/utils/apiHelper.ts:11-115 | the filter is `params` overridden by the translated query; sort, select, skip and limit as specified, and empty or `undefined` when their keys are absent |
| ApiHelper.MakeQuery | src/utils/apiHelper.ts:11-115 | `makeQuery` as written, with the array-index exclusion test; `params` keys survive unless the filter overrides them |
| ApiHelper.MakeQueryIntended | src/utils/apiHelper.ts:11-115 | `makeQuery` with the field-name exclusion test: schema fields keep their names and values |
| BlockWindows.After | src/utils/listener.ts:31 | the loop leaves `currentBlock` past `toBlock`, and within one step of it when it ran at all |
| BlockWindows.WindowsAt | src/utils/listener.ts:28-36 | the k-th request is `[from + k*step, from + k*step + step]`, and its start never exceeds `toBlock` |
| BlockWindows.WindowsSpan | src/utils/listener.ts:31 | the last start is at most `toBlock`, and one more step would pass it |
| BlockWindows.WindowsCount | src/utils/listener.ts:31 | exactly `floor((to - from)/step) + 1` requests, or none when `from > to` |
| BlockWindows.SharedBoundaries | src/utils/listener.ts:34-35 | consecutive windows share their boundary block |
| BlockWindows.Covered | src/utils/listener.ts:31-36 | every block from `fromBlock` to `toBlock` lies in some requested window |
| BlockWindows.RerunIssuesNothing | src/utils/listener.ts:28-31 | `currentBlock` is never reset, so a second run asks for nothing |
| BlockWindows.Chunker.constructor | src/utils/listener.ts:12-20 | `fromBlock` defaults to 0 and `toBlock` to `'latest'`, which starts the head query |
| BlockWindows.Chunker.HeadResolved | src/utils/listener.ts:17-19 | the resolved head replaces a `'latest'` end |
| BlockWindows.Chunker.GetPastEvents | src/utils/listener.ts:30-40 | against `'latest'` nothing is asked; otherwise the log grows by exactly `Windows(current, to, step)` and the cursor ends at `After` |

## Notable behaviour of the code

- `src/schema/EventSchema.ts:13-34` declares no unique index and no
  `network` field. Stored events are a plain sequence, duplicates are kept,
  and the network is dropped (`Persistence.StoredEventFields`).
- `src/modules/listen.ts:42-51` only warns when `isAddress` rejects the
  address (`Watcher.AddressCheckOnlyWarns`).
- `src/modules/listener.ts:172` takes the address and the event, and no
  network.
- For a response that is not JSON, `src/modules/handlers/uri.ts:20-23` keeps
  the rewritten URL, and line 27 rewrites it again (`TokenUri.FetchImageURL`).
- The registry's cursor only rises (`Registry.BumpedIsMax`). The stored
  cursor is written unconditionally at `src/modules/database.ts:301-304` and
  `315-318` (`Persistence.StoredCursorCanDecrease`).
- `src/modules/listener.ts:231-244` does not await the per-event back-fill
  requests. The model issues them in program order.
- No line of `src/modules/listener.ts` sets a flag of `isListening` to
  `true`: lines 40 and 113 only write `false`. The model keeps every flag
  false (`Registry.FlagsFalse`, part of `Registry.Wellformed`). So each
  `listenEvents(address)`, the one `_add` issues and the one `addEvent`
  issues, subscribes every tracked event of the address again, and an
  event that is already live gets a second subscription
  (`Registry.ListenResubscribes`).

## Left out

- I/O, telemetry and scheduling are not modelled: the WebSocket provider, Sentry breadcrumbs, console output, promise scheduling and `.finally` ordering. Un-awaited calls run to completion in program order.
- Watcher.Split: the source recursion has no bound. The model's `fuel` parameter ends it with `OutOfFuel`. `Watcher.NoProgressDiverges` shows that a limit error on a one- or two-block range never ends. `Watcher.SplitTerminates` shows that fuel `e - s` suffices otherwise.
- Watcher.Recur / Watcher.LoadRange: the two halves are awaited one after the other. An error in the left half abandons the right. The source does not await them (`src/modules/listen.ts:151-152`); that reading is `Watcher.LoadRangeAsWritten`, and the finding below compares the two.
- Watcher.LimitPathDeliversWindow: with the source's un-awaited halves the handler of `loadPastEvents` gets an empty batch on the limit path (`Watcher.LimitPathLosesRecords`). The lemma states the awaited reading.
- Watcher.NewListen: construction failures are not modelled. `src/modules/listen.ts:59-90` rethrows anything the provider or the contract constructor throws, and web3's contract constructor throws for an address it cannot use. The model always builds the watcher.
- ApiHelper.SortOf: the sort is a map, so the order of its keys is lost. `src/utils/apiHelper.ts:87-90` builds an object whose key order sets Mongo's sort priority (first occurrence first).
- Persistence.UpdateContractIn: a field passed as `undefined` keeps its stored value. This is Mongoose's behaviour when undefined update fields are stripped. Under Mongoose 5's default, the cursor writes at `src/modules/database.ts:301-304` and `315-318` would also set `events` and `jsonInterface` to null. The model assumes stripping.
- TokenUri.UriHandler: the model stores the forwarded token with the store's `methodHandler`. `src/modules/handlers/method.ts:2,11` calls `getDb`, which `src/modules/database.ts` does not export. As written the call throws, the `catch` swallows it, and no token is stored.
- Mongo `$regex` with `new RegExp(x, 'i')` is modelled as ASCII case-insensitive equality. Substring matching and regex metacharacters are not modelled. `RegExp(undefined)` matches everything.
- The `isAddress` check and the ABI's event list are oracles in `Watcher.Web3`. The standard ABI file and `src/config/networks.ts` are not part of this model. The network table is a map on the listener.
- `src/modules/listener.ts:159` passes `(rpc, jsonInterface, address)` to a constructor declared `(rpc, address, network, jsonInterface)`. As written the watcher's address is the interface, its network is the contract address, and its interface is the standard one. The model builds the watcher from the registry's address, network and interface, so it also passes the network, which line 159 never does.
- Listener `_loadDb` calls `loadDb`, which `src/modules/database.ts` does not define. The registry starts empty and start-up runs over that registry.
- `for...in` (and object spread) take integer-like keys first, in ascending order, and then the other keys in insertion order. The model walks registry keys in insertion order only.
- JavaScript numbers are IEEE doubles, and the model's integers are exact. `parseInt` of a numeral above 2^53, and the subtraction at `src/utils/apiHelper.ts:111`, round in JavaScript and do not in the model. The same holds for block numbers and cursors.
- ApiHelper: query values are strings. Repeated query keys that arrive as arrays are not modelled.
- TokenUri.UriHandler: a `media` field that is an array forwards nothing. In JavaScript the array would still be spread into the reshaped token. (A non-object `data` also forwards nothing in JavaScript, because `fetchImageURL` rejects at `src/modules/handlers/uri.ts:11`; a primitive `media` makes the assignment at line 43 throw.)
- Registry.Listener.EventHandlerWrapper: models the wrapper called with the registry as `this`, as the code evidently intends. As written it is passed unbound and every call throws (see "## Findings" and `Registry.Listener.EventHandlerWrapperAsWritten`).
- BlockWindows.Chunker.GetPastEvents requires `step > 0`. With `step <= 0` the source loop does not end. With no `step` it issues one window and stops on `NaN`. A missing `eventOptions` throws on destructuring. None of these is modelled.
- Block tags such as `'latest'` passed as `fromBlock`/`toBlock` to the watcher are not modelled; ranges are numbers.
- `getJsonInterface`, `getContracts`, `deleteContract`, `fetchContract`, `fetchEvent` and `fetchToken` only pass values through, and are not modelled.
- Event arrays are not aliased between the registry, the watcher and the store. `events.push` in `addEvent` is modelled as a new sequence stored in the registry and passed to the store.
- `ApiHelper.InArrayLiteral` lists the `Array.prototype` names of ES2019 and the `Object.prototype` names. Later additions to `Array.prototype` are not listed.

## Findings

| source | as written | input that shows it | evidently intended | confidence | as-written member | corrected member |
|---|---|---|---|---|---|---|
| src/modules/listener.ts:173 | `if (!(address in this.contracts))` guards the branch that reads `this.contracts[address]` | any registered address: reported as "does not exist"; any unknown address: TypeError | add the event when the address is registered | high, not executed | Registry.Listener.AddEventAsWritten | Registry.Listener.AddEvent |
| src/modules/listener.ts:280-282 | the whole-registry loop reads `this.isListening[address]` and `this.contracts[address]` with `address` undefined | `listenEvents()` with one contract tracking one event: TypeError before any subscription | index with the loop variable `addr` | high, not executed | Registry.ListenAllAsWrittenFails | Registry.Listener.ListenEvents |
| src/modules/listener.ts:213 | `this._eventHandlerWrapper` is handed to the watcher without `bind` (also at lines 237, 261 and 284), and the watcher calls it as a plain function (`src/modules/listen.ts:185`, `206`, `239`), so `this` is undefined in the strict-mode class body | any delivery, an empty batch included: TypeError at `this._updateBlock` (line 81 or 87) or `this._db` (line 91); no cursor moves, nothing is stored, and on the back-fill path `src/modules/listen.ts:190-211` rethrows it because it is not the limit error | bind the handler to the registry | high, not executed | Registry.Listener.EventHandlerWrapperAsWritten | Registry.Listener.EventHandlerWrapper |
| src/modules/listener.ts:136 | `isExistContract` returns a promise that is not awaited, so `inDb` is always truthy | `add` of a new address: the contract is never persisted | await the existence check | high, not executed | Registry.Listener.AddAsWritten | Registry.Listener.Add |
| src/utils/apiHelper.ts:66-73 | `key in [...]` tests array indices and array properties, not field names | query `address=0x1` with a query name `q`: filter key becomes `q.address` | keep schema fields such as `address` unprefixed | medium, not executed | ApiHelper.AddressFilterRenamed | ApiHelper.MakeQueryIntended |
| src/modules/listen.ts:151-159 | the halves `recur(start, middle); recur(middle + 1, end);` are not awaited, so `return returnData` runs before they push | a range over the 10000-result limit whose logs are not empty: `_loadPastEvents` returns `[]`, and `loadPastEvents` hands the handler `[]` | await both halves in turn | high, not executed | Watcher.LimitPathLosesRecords | Watcher.LoadRange |
