# The IndexedDB data layer of the Advanced REST Client, in Dafny

This project models `arc.app.db.idb`, the IndexedDB data layer of the Advanced REST Client
Chrome application, and proves properties of the model. The layer has three parts:

- the one-time migration from the legacy WebSQL tables;
- the seeding of the reference tables when the database is created;
- the queries and updates that the rest of the application calls.

The model is built in layers, one module per layer:

- **Wrappers**: `Option`, `Result` and the ways an operation rejects. A rejection comes from
  a wrong argument count, an explicit `throw new Error(...)`, a `TypeError`, an `add` on a
  key that is taken, or a WebSQL statement that reports an error (`SqlError`).
- **Text**: a lexicographic order on characters (Unicode scalar values), standing in for the
  order of IndexedDB string keys, and an ASCII case-insensitive prefix test.
- **Tables**: a natural-keyed object store as a sequence of rows, strictly sorted by key.
  - It covers `get`, `put`, `add` and a filtered cursor.
  - `KeysBelow` gives the ascending keys of an auto-increment store that a query delivers.
- **Har**: the HAR-shaped `RequestObject`.
  - `createRequestKey` comes with its inverse, so the key can be read back.
  - `_createHARfromSql` is the normaliser of a flat request row.
- **Migration**: `_converSqlIdb` as methods with loops, plus the bookkeeping of
  `_storeUpgrade`:
  - the in-flight `projects` dictionary, which removes duplicate legacy projects;
  - the `exported` list.

  Both are specified by functions over the request sequence.
- **StoreTables**: what a series of `put`, `add` or auto-increment inserts does to one table.
- **Store**: the database as a class `Database`.
  - Its fields are the tables, the two key generators, the `upgraded` flag, the application
    version and the adapter switch.
  - The methods change those fields; the query functions read them.
  - Each Dexie transaction is one method and changes the tables atomically.
  - A rejected promise is an `Err` result. The upgrade's null outcome is a boolean.

Notes on how the code was read:

- JavaScript truthiness is written out explicitly:
  - a legacy `project` of 0 attaches no project hint;
  - an export hint at position 0 is falsy, so the first `exported` row never gets an export
    record (`Migration.FirstExportedRowDropped`);
  - a falsy `time` in `updateProjectLegacy` falls back to the current time;
  - a falsy `requestId` in `addProject` gives an empty `requestIds`.
- `Object.keys` lists integer-like keys in ascending order. So the in-flight project
  dictionary keeps its legacy ids in ascending order, and the projects are stored in that
  order.
- The migration writes run inside one Dexie transaction (app.db.idb.js:329-409). They are
  therefore modelled as atomic: a failure would leave nothing written.
- `importProjectWithRequests` takes `project.oldId || project.id` as the legacy id, and it
  does so for a stored ProjectObject as well. A restored project with id 5 and no `oldId`
  therefore gets legacy id 5. This is modelled as written.

## Model

| member | source | states |
|---|---|---|
| Har.CreateRequestKey | RestClient/dev/libs/app.db.idb.js:253-260 | Fails with the argument count unless exactly two arguments are given; otherwise the key is the method, one ':' and the url, by length and by parts |
| Har.ColonIndex | RestClient/dev/libs/app.db.idb.js:253-260 | A helper of RequestKeyRoundTrip, for the key's inverse `SplitRequestKey`, which exists only in the model: the position of the first ':' of a string. There is no ':' before it, and there is a ':' at it when it lies inside the string |
| Har.RequestKeyRoundTrip | RestClient/dev/libs/app.db.idb.js:253-260 | For a method without ':', splitting the request key at its first ':' gives back the method and the url |
| Har.MimeTypeOr | RestClient/dev/libs/app.db.idb.js:439-440 | The content type found, or `application/x-www-form-urlencoded` when it is missing or empty |
| Har.NormalizeShape | RestClient/dev/libs/app.db.idb.js:414-473 | A normalised row is a history record of the row's url and method, with no legacy id. Its log has exactly one page, keyed `createRequestKey(method, url)` and titled with the row's name and time, and exactly one entry on that page. The entry has the placeholder response `0 No response` and the merged headers. It has post data exactly when the method is not GET/HEAD, and then the data holds the content type (or the default) and the payload |
| Har.BodyOnlyForPayloadMethods | RestClient/dev/libs/app.db.idb.js:436-446 | The same row under GET and HEAD carries no body; under POST it carries the payload |
| Migration.FirstExport | RestClient/dev/libs/app.db.idb.js:280-288 | None exactly when no `exported` row references the id; otherwise the first position whose `reference_id` equals it |
| Migration.ExportHint | RestClient/dev/libs/app.db.idb.js:280-288 | The `for` loop with `break` finds the same position as FirstExport |
| Migration.ConvertSaved | RestClient/dev/libs/app.db.idb.js:272-290 | The i-th output is the i-th `request_data` row normalised, typed saved, with its legacy id, its project hint when it is truthy, and its first export position |
| Migration.ConvertHistory | RestClient/dev/libs/app.db.idb.js:291-295 | The i-th output is the i-th `history` row normalised, with its legacy id and no hints |
| Migration.ConvertUrls | RestClient/dev/libs/app.db.idb.js:296-309 | One history object per `urls` or `websocket_data` row, copying url and time, in order |
| Migration.Convert | RestClient/dev/libs/app.db.idb.js:264-319 | Null stays null; otherwise the saved rows then the history rows, the url and socket history, and the legacy data passed through |
| Migration.ConvertedRequestsOrder | RestClient/dev/libs/app.db.idb.js:272-295 | The converted requests number the saved rows plus the history rows: first every saved row in order, then every history row in order |
| Migration.ConvertedHintsInRange | RestClient/dev/libs/app.db.idb.js:280-288 | Every export hint of a converted request points inside the `exported` rows |
| Migration.InsertKeyAscending | RestClient/dev/libs/app.db.idb.js:363 | Adding a new legacy id to the dictionary keeps its `Object.keys` ascending and adds exactly that id |
| Migration.ProjectStepWellKeyed | RestClient/dev/libs/app.db.idb.js:352-370 | One request's project bookkeeping keeps the dictionary's key list and its entries in agreement |
| Migration.ProjectsUpToWellKeyed | RestClient/dev/libs/app.db.idb.js:385-387 | The dictionary stays well keyed over every prefix of the request loop |
| Migration.IdsReferencing | RestClient/dev/libs/app.db.idb.js:352-370 | The new ids of the requests whose project hint is p, ascending: an id occurs exactly when its request references p |
| Migration.ProjectsUpToContents | RestClient/dev/libs/app.db.idb.js:352-370 | After any prefix of the requests, the entry for a legacy id is the expected one. It exists exactly when the id is truthy, exactly one legacy row has it, and some request refers to it. It carries that row's name, time and id and the new ids of all referencing requests |
| Migration.ContentsStep | RestClient/dev/libs/app.db.idb.js:352-370 | One request carries ProjectsUpToContents from i requests to i + 1 |
| Migration.ProjectsAfterContents | RestClient/dev/libs/app.db.idb.js:345-387 | Project deduplication over all requests: each truthy legacy id yields at most one project, created on the first referencing request when exactly one legacy row matches, and later requests are appended to it |
| Migration.SharedProjectMerged | RestClient/dev/libs/app.db.idb.js:363-369 | Two requests referencing the same legacy project, described by one legacy row, end up in the same project |
| Migration.ExportStep | RestClient/dev/libs/app.db.idb.js:372-380 | A request yields at most one export record, and one exactly when its export hint is present and truthy (not position 0) |
| Migration.ExportsUpToOrdered | RestClient/dev/libs/app.db.idb.js:372-387 | Export records of any prefix name ids of that prefix, strictly increasing |
| Migration.ExportsAfterOrdered | RestClient/dev/libs/app.db.idb.js:372-387 | Export records name ids of the batch, strictly increasing |
| Migration.ExportsUpToContents | RestClient/dev/libs/app.db.idb.js:372-387 | A record is in the export list of a prefix exactly when some request of that prefix exports it |
| Migration.ExportsAfterContents | RestClient/dev/libs/app.db.idb.js:372-387 | A record is in the export list exactly when some request has a truthy hint that yields it |
| Migration.FirstExportedRowDropped | RestClient/dev/libs/app.db.idb.js:372 | A saved request whose export hint is position 0 gets no export record |
| StoreTables.PutAllLastWins | RestClient/dev/libs/app.db.idb.js:334-340 | After a series of puts, a url holds the time of its last put, or its old time when the series never puts it |
| StoreTables.AddAllSucceeds | RestClient/dev/libs/app.db.idb.js:100-106 | A batch of header adds with fresh, distinct keys succeeds and holds exactly the old rows and the new ones |
| StoreTables.AddAllFails | RestClient/dev/libs/app.db.idb.js:100-106 | A batch of header adds in which a key repeats or is taken fails as a whole |
| StoreTables.AddCodesSucceeds | RestClient/dev/libs/app.db.idb.js:101-103 | A batch of status adds with fresh codes succeeds and maps every code to its definition, keeping the old ones |
| StoreTables.AddCodesFails | RestClient/dev/libs/app.db.idb.js:101-103 | A batch of status adds with a repeated or taken code fails as a whole |
| StoreTables.InsertedUpToContents | RestClient/dev/libs/app.db.idb.js:350 | Inserting a prefix adds exactly its ids, the k-th holding the k-th object, and leaves other rows unchanged |
| StoreTables.InsertedContents | RestClient/dev/libs/app.db.idb.js:350 | Auto-increment inserts add exactly the keys base .. base + n - 1, the k-th holding the k-th object, and leave every other row as it was |
| StoreTables.InsertedFresh | RestClient/dev/libs/app.db.idb.js:350 | Inserts under fresh ids keep every old row, and each new id was free before and now holds its object |
| StoreTables.InsertedBound | RestClient/dev/libs/app.db.idb.js:350 | Inserts keep every key of the table between 1 and the next id |
| StoreTables.ExportTableKeys | RestClient/dev/libs/app.db.idb.js:402-407 | The export table holds exactly the old keys and the `[serverId+requestId]` key of every added record |
| StoreTables.ExportTableValues | RestClient/dev/libs/app.db.idb.js:402-407 | A record whose request id no later record repeats is the one stored under its key |
| StoreTables.ExportTableBound | RestClient/dev/libs/app.db.idb.js:402-407 | The export table names only requests below the next request id |
| StoreTables.ExportAddsFresh | RestClient/dev/libs/app.db.idb.js:402-407 | The records have request ids at or above the first new id, strictly increasing, and every old key names an older request. Under those conditions the n-th `add` finds its `[serverId+requestId]` key in neither the old table nor the first n records |
| Store.TaggedHeaders | RestClient/dev/libs/app.db.idb.js:97-100 | The header rows are the request definitions tagged `request`, then the response definitions tagged `response`, in order |
| Store.ImportedOldId | RestClient/dev/libs/app.db.idb.js:702 | The project's legacy id is its `oldId`, else its `id`, else absent |
| Store.ImportedRequestOldId | RestClient/dev/libs/app.db.idb.js:717-721 | An imported request keeps its `oldId`, else its `id` when it has no `type`, else no legacy id |
| Store.ImportedRequestShape | RestClient/dev/libs/app.db.idb.js:714-722 | An imported request is a saved record of the item's url and method with the normalised log and the legacy id above; an `importRequests` copy is saved with no legacy id |
| Store.ImportLinksRequests | RestClient/dev/libs/app.db.idb.js:728-744 | After an import the project lists every new id; each id it lists was listed before, or is a fresh id that now holds the matching imported request |
| Store.LoadedValid | RestClient/dev/libs/app.db.idb.js:329-409 | The upgrade keeps the keys of every store below their generators and the natural-keyed stores in key order |
| Store.SqlDataRead | RestClient/dev/libs/app.db.idb.js:207-243 | Null exactly when the upgrade is not wanted. Otherwise a rejection with a WebSQL error exactly when a read fails, and the legacy tables when all reads succeed |
| Store.Database.constructor | RestClient/dev/libs/app.db.idb.js:60-71 | A new database is empty, its generators start at 1, and it is not upgraded |
| Store.Database.Populate | RestClient/dev/libs/app.db.idb.js:84-114 | Without definitions nothing is written. Otherwise the statuses and the tagged headers are added in one transaction. It succeeds exactly when no key repeats or is taken; a failed transaction rejects with a constraint error and writes nothing |
| Store.Database.AddStatuses | RestClient/dev/libs/app.db.idb.js:101-103 | The status loop computes AddCodes |
| Store.Database.AddHeaders | RestClient/dev/libs/app.db.idb.js:104-106 | The header loop computes AddAll |
| Store.Database.PutHistoryUrls | RestClient/dev/libs/app.db.idb.js:334-336 | The url history after the loop is PutAll of the entries |
| Store.Database.PutHistorySockets | RestClient/dev/libs/app.db.idb.js:338-340 | The socket history after the loop is PutAll of the entries |
| Store.Database.InsertRequest | RestClient/dev/libs/app.db.idb.js:345-382 | The hint-free request is stored under the next id, and the dictionary and export list are updated from its hints |
| Store.Database.InsertPending | RestClient/dev/libs/app.db.idb.js:385-389 | After the request loop the requests are inserted under consecutive ids, and the dictionary and export list are ProjectsAfter and ExportsAfter |
| Store.Database.InsertProjects | RestClient/dev/libs/app.db.idb.js:394-401 | The dictionary's projects are added in `Object.keys` order under consecutive ids |
| Store.Database.InsertExports | RestClient/dev/libs/app.db.idb.js:402-407 | The export table ends as ExportTable of the records, and each record's add finds its key free (by ExportAddsFresh) |
| Store.Database.LoadHistory | RestClient/dev/libs/app.db.idb.js:334-340 | Both history stores receive their puts |
| Store.Database.LoadRequests | RestClient/dev/libs/app.db.idb.js:341-408 | Requests, projects and export records are stored as Loaded describes |
| Store.Database.StoreUpgrade | RestClient/dev/libs/app.db.idb.js:323-410 | Null writes nothing and reports it; otherwise the state becomes Loaded in one atomic step, and the invariant holds |
| Store.Database.OnReady | RestClient/dev/libs/app.db.idb.js:115-165 | Once upgraded, ready changes nothing. Otherwise it records the application version (or `tests case`). A persisted set flag writes no table and sets `upgraded` and the adapter. Without `chrome.storage`, or with a clear flag, the legacy tables are read. A failed read writes nothing and flags nothing: `upgraded` is then set only when `chrome.storage` is absent. A successful read is converted and loaded, and sets `upgraded` and the adapter. The flag is written back exactly when `chrome.storage` exists, the flag was clear and the read succeeded |
| Store.Database.ReadUpgradeFlag | RestClient/dev/libs/app.db.idb.js:122-140 | Resolves true exactly when `chrome.storage` holds a set flag. `upgraded` becomes set when `chrome.storage` is absent or the flag is set. The adapter is switched exactly when the flag is set |
| Store.Database.ConvertAndStore | RestClient/dev/libs/app.db.idb.js:143-144 | Null writes nothing and reports it. Read tables are converted and loaded in one step, and the invariant holds |
| Store.Database.UpgradeChain | RestClient/dev/libs/app.db.idb.js:122-164 | A set flag writes no table and switches the adapter. A failed read writes nothing, leaves the adapter and flags nothing. Read tables are converted and loaded, and switch the adapter. `upgraded` ends set exactly when `chrome.storage` is absent, the flag was set, or the read succeeded. The flag is written back exactly when the flag was clear and the read succeeded |
| Store.Database.NormalizeSaved | RestClient/dev/libs/app.db.idb.js:853-857 | Every item normalised and typed saved, in order |
| Store.Database.NormalizeImported | RestClient/dev/libs/app.db.idb.js:714-723 | Every item normalised, typed saved and given its legacy id, in order |
| Store.Database.AddRequests | RestClient/dev/libs/app.db.idb.js:858-863 | The requests are added under consecutive fresh ids, which are returned |
| Store.Database.ImportRequests | RestClient/dev/libs/app.db.idb.js:849-869 | The items are stored as saved copies under new consecutive ids, the old rows are kept, and the new ids are returned |
| Store.Database.ImportProjectWithRequests | RestClient/dev/libs/app.db.idb.js:700-751 | The items are stored as saved requests keeping their legacy ids, and the project with the new ids appended is put. The key is the project's own id for a stored ProjectObject, else a fresh one, and the key generator moves past it |
| Store.Database.PutImportedProject | RestClient/dev/libs/app.db.idb.js:704-712 | The project with the new ids appended is put under its own id when it is a stored ProjectObject with a truthy id, which moves the key generator past that id. Any other project goes under a fresh auto-increment key |
| Store.Database.AddProject | RestClient/dev/libs/app.db.idb.js:667-682 | The project (referencing the request only when its id is truthy) is put under a fresh key |
| Store.Database.GetStatusCode | RestClient/dev/libs/app.db.idb.js:555-568 | The definition stored under the code, or undefined exactly when there is none |
| Store.Database.GetRequest | RestClient/dev/libs/app.db.idb.js:876-885 | The request stored under the id, or undefined |
| Store.Database.GetHeaderByName | RestClient/dev/libs/app.db.idb.js:577-595 | Some stored row with key `[name+type]`, or null exactly when there is none |
| Store.Database.GetHeadersByName | RestClient/dev/libs/app.db.idb.js:604-615 | The result holds exactly the headers whose key starts with the name, ignoring case, and whose type matches, strictly sorted by key |
| Store.Database.GetHistoryUrls | RestClient/dev/libs/app.db.idb.js:646-656 | The result holds exactly the url entries that start with the query, ignoring case, strictly sorted by url |
| Store.Database.GetProjectLegacy | RestClient/dev/libs/app.db.idb.js:759-770 | Null exactly when no project has that legacy id; otherwise the project with the smallest key among those that have it |
| Store.Database.ListProjects | RestClient/dev/libs/app.db.idb.js:809-817 | Every project with its key, each once, ascending by key |
| Store.Database.GetProjectRequests | RestClient/dev/libs/app.db.idb.js:892-915 | Empty for a missing project or one with no requests. Otherwise exactly the stored requests the project lists, ascending by id, each once |
| Store.Database.GetRequestObjectsByLegacyId | RestClient/dev/libs/app.db.idb.js:988-999 | Exactly the requests with that legacy id, ascending by key |
| Store.Database.PutUrlHistory | RestClient/dev/libs/app.db.idb.js:624-637 | After the put the url holds the new time and every other url keeps its value; the result is the url |
| Store.Database.UpdateProjectLegacy | RestClient/dev/libs/app.db.idb.js:783-802 | With no project for the legacy id it rejects with 'No project found.' and changes nothing. Otherwise the project gets the name and the time (or `now` for a falsy time), and the same legacy lookup still finds it |
| Store.Database.DeleteProjectLegacy | RestClient/dev/libs/app.db.idb.js:824-842 | With no project for the legacy id it rejects with 'Project not found in legacy list'; otherwise exactly that project is deleted and the requests are kept |
| Store.Database.DeleteWithRequests | RestClient/dev/libs/app.db.idb.js:927-934 | The project and exactly the requests it lists are deleted; every other request is unchanged |
| Store.Database.DeleteProjectRecursive | RestClient/dev/libs/app.db.idb.js:921-940 | A missing project fails with a TypeError before anything is deleted; otherwise the project and its requests go and every other request stays |
| Store.Database.DeleteProjectRecursiveLegacy | RestClient/dev/libs/app.db.idb.js:941-965 | With no project for the legacy id it rejects with 'No project found.' and changes nothing; otherwise it deletes like deleteProjectRecursive |
| Tables.Find | RestClient/dev/libs/app.db.idb.js:559 | `get(key)`: None exactly when no row has the key; otherwise the value of a row with the key |
| Tables.PutMembers | RestClient/dev/libs/app.db.idb.js:628-631 | A put leaves the new row plus the old rows with other keys; the table grows by one exactly when the key was new |
| Tables.FindPut | RestClient/dev/libs/app.db.idb.js:628-631 | After a put, the put key reads the new value and every other key reads its old value |
| Tables.Add | RestClient/dev/libs/app.db.idb.js:101-106 | `add` fails exactly when the key is taken; otherwise the table grows by the row and stays sorted |
| Tables.Select | RestClient/dev/libs/app.db.idb.js:649-651 | A filtered cursor returns exactly the rows that pass the filter, in key order |
| Tables.KeysBelow | RestClient/dev/libs/app.db.idb.js:762 | Index queries deliver exactly the matching keys, ascending |
| Tables.KeysBelowSame | RestClient/dev/libs/app.db.idb.js:790-796 | Changing values without touching the indexed field leaves a query's result unchanged |

## Left out

- The schema set-up in `open()` is not modelled. This covers `db.version(1).stores`, `mapToClass` and the error handler (app.db.idb.js:58-83 and the promise around them). The schema is implicit in the field types of `Database`.
- Promise chaining, `Promise.all` fan-out and `db.close()` are not modelled. Each transaction is one atomic, sequential method. Auto-increment ids are given in call order.
- The WebSQL reads of `_getSQLdata` (app.db.idb.js:211-243) are I/O. Their outcome is the `websql` parameter of `OnReady`: the tables they deliver, or None when one of the six `executeSql` calls reports an error (app.db.idb.js:235-240). Two other failures never reject in the source: `arc.app.db.websql.open()` failing (app.db.idb.js:213, no `.catch`) and the WebSQL transaction failing before its statements run (app.db.idb.js:215, no error callback). In both, the promise never settles and the `ready` chain hangs. The model has no hanging run, so it cannot tell these apart from a reported error. Which query failed, its error object and partly read tables are not modelled either.
- `_upgradeWebSQL`, `_upgradeWebSLurlHistory` and `_upgradeWebSLSocketUrlHistory` are I/O plumbing that the upgrade chain does not use.
- `chrome.storage.local.get/set` and `chrome.runtime.getManifest` are parameters of `OnReady`:
  - the persisted flag, or its absence;
  - the manifest version;
  - the `flagWritten` result, which reports a write-back.
- The `downloadDefinitions` fetch is an input: the optional definitions of `Populate`.
- `arc.app.headers.toJSON`, `_oldCombine` and `getContentType` are defined outside this file. They are given functions (`HeaderHelpers`).
- The HAR classes are plain datatypes. `ProjectObject.addRequest` is not part of this model and is taken to append. `new RequestObject(item)` in `getProjectRequests` is taken to copy.
- Whether a stored ProjectObject keeps its other fields through its constructor is not visible. An imported ProjectObject is modelled by its name, time, request ids and id.
- Store.Database.ImportProjectWithRequests: when the caller passes a ProjectObject, the source changes that object in place, and the caller sees the change. It sets `project.oldId` (app.db.idb.js:711-713), and `project.addRequest` appends every new request id to it (app.db.idb.js:736). The model takes the project as a value (`ProjectInput`), so only the stored copy gets these changes; the update of the caller's object is not captured.
- Text.StrLt: orders strings by Unicode scalar value. IndexedDB and `sortBy` compare UTF-16 code units. The two orders differ only when a character above U+FFFF is compared with one in U+E000–U+FFFF: IndexedDB puts U+10000 before U+E000, and the model puts it after. The key order of the history and header tables and the result order of `getHistoryUrls` and `getHeadersByName` inherit this.
- StartsWithIgnoreCase: Dexie's `startsWithIgnoreCase` collation is approximated by ASCII lower-casing of both strings.
- Dates are plain integers: `new Date(item.time)` holds the row's time.
- `getRequestObjectsQueryArrayKey` is not modelled. It compares a compound index with a concatenated string, so its result depends on Dexie key semantics that are not visible here.
- `Date.now()` in `updateProjectLegacy` is the `now` parameter.
- Logging, including the warning for duplicate legacy project rows, and `initDev` are not modelled.
- The `driveObjects` store is not in the model: no modelled operation touches it.
- Migration.InFlight: the in-flight project dictionary orders its keys numerically. That is `Object.keys` order only for array-index keys, the integers 0 to 2^32 − 2. `Object.keys` lists any other legacy project id after the index keys, in insertion order. That covers negative ids and ids of 2^32 − 1 or more. The model uses numeric order for those too.
- Store.Database.GetProjectLegacy, GetProjectRequests, ListProjects and GetRequestObjectsByLegacyId require every key to be below its generator. This is the class invariant `Valid`, which every method keeps; it is not a demand of the source.
