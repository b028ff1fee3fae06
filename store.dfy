/**
 * The `arc` IndexedDB database as one object: its tables, its two auto-increment key
 * generators and the module's `upgraded` flag. Each Dexie transaction of the source is one
 * method call that changes the tables atomically.
 */
module Store {
  import opened Wrappers
  import opened Text
  import opened Tables
  import opened Har
  import opened Migration
  import opened StoreTables

  /** A header definition as `definitions.json` lists it. */
  datatype HeaderDef = HeaderDef(key: string, desc: string, example: string)

  /** `definitions.json`: status codes and request and response header definitions. */
  datatype Definitions = Definitions(codes: seq<StatusDef>, requests: seq<HeaderDef>, responses: seq<HeaderDef>)

  /** A `headers` table row, keyed by `[key+type]`. */
  type HeaderRow = Row<(string, string), HeaderDef>

  /** The header rows that `populate` adds: request definitions tagged `request`, then responses. */
  function TaggedHeaders(defs: Definitions): (rows: seq<HeaderRow>)
    ensures |rows| == |defs.requests| + |defs.responses|
    ensures forall i :: 0 <= i < |defs.requests| ==> rows[i] == Row((defs.requests[i].key, "request"), defs.requests[i])
    ensures forall i :: 0 <= i < |defs.responses| ==>
      rows[|defs.requests| + i] == Row((defs.responses[i].key, "response"), defs.responses[i])
  {
    var reqs := seq(|defs.requests|, i requires 0 <= i < |defs.requests| => Row((defs.requests[i].key, "request"), defs.requests[i]));
    var resps := seq(|defs.responses|, i requires 0 <= i < |defs.responses| => Row((defs.responses[i].key, "response"), defs.responses[i]));
    assert forall i :: 0 <= i < |resps| ==> (reqs + resps)[|reqs| + i] == resps[i];
    reqs + resps
  }

  /** A project handed to `importProjectWithRequests`: a ProjectObject or a plain object. */
  datatype ProjectInput = ProjectInput(
    isProjectObject: bool, id: nat, oldId: int, name: string, time: int, requestIds: seq<nat>)

  /** `project.oldId || project.id || null`, the legacy id the imported project keeps. */
  function ImportedOldId(project: ProjectInput): (r: Option<int>)
    ensures r.Some? <==> project.oldId != 0 || project.id != 0
    ensures project.oldId != 0 ==> r == Some(project.oldId)
    ensures project.oldId == 0 && project.id != 0 ==> r == Some(project.id)
  {
    if project.oldId != 0 then Some(project.oldId)
    else if project.id != 0 then Some(project.id)
    else None
  }

  /** The legacy id an imported request keeps: its `oldId`, or its `id` when it has no `type`. */
  function ImportedRequestOldId(item: SqlRequestRow): (r: Option<int>)
    ensures item.oldId != 0 ==> r == Some(item.oldId)
    ensures item.oldId == 0 && item.kind == "" && item.id != 0 ==> r == Some(item.id)
    ensures r.None? <==> item.oldId == 0 && (item.kind != "" || item.id == 0)
  {
    if item.oldId != 0 then Some(item.oldId)
    else if item.kind == "" && item.id != 0 then Some(item.id)
    else None
  }

  /** The object stores of the `arc` database and its two key generators. */
  datatype Stores = Stores(
    requests: map<nat, RequestObject>,
    projects: map<nat, Project>,
    serverExports: map<(string, nat), ServerExport>,
    historyUrls: HistoryTable,
    historySockets: HistoryTable,
    headers: seq<HeaderRow>,
    statuses: map<int, StatusDef>,
    nextRequestId: nat,
    nextProjectId: nat)

  /**
   * Auto-increment keys lie below their generator's next value, export records name requests
   * that have been inserted, and the natural-keyed stores are in key order.
   */
  ghost predicate ValidStores(t: Stores)
  {
    && 1 <= t.nextRequestId && 1 <= t.nextProjectId
    && (forall id :: id in t.requests ==> 1 <= id < t.nextRequestId)
    && (forall id :: id in t.projects ==> 1 <= id < t.nextProjectId)
    && (forall k :: k in t.serverExports ==> k.1 < t.nextRequestId)
    && Sorted(t.historyUrls, StrKeyLt) && Sorted(t.historySockets, StrKeyLt) && Sorted(t.headers, PairLt)
  }

  /**
   * The tables after the `_storeUpgrade` transaction: the URL and socket history put, the
   * requests added under fresh ids, the deduplicated projects added in `Object.keys` order and
   * the export records added.
   */
  function Loaded(t: Stores, c: Converted): Stores
    requires Sorted(t.historyUrls, StrKeyLt) && Sorted(t.historySockets, StrKeyLt)
    requires HintsInRange(c.requests, c.websql.exported)
  {
    var base := t.nextRequestId;
    ProjectsUpToWellKeyed(c.requests, c.websql.projects, base, |c.requests|);
    var d := ProjectsAfter(c.requests, c.websql.projects, base);
    t.(historyUrls := PutAll(t.historyUrls, c.urlHistory),
       historySockets := PutAll(t.historySockets, c.socketHistory),
       requests := Inserted(t.requests, Stripped(c.requests), base),
       nextRequestId := base + |c.requests|,
       projects := Inserted(t.projects, ProjectValues(d), t.nextProjectId),
       nextProjectId := t.nextProjectId + |d.keys|,
       serverExports := ExportTable(t.serverExports, ExportsAfter(c.requests, c.websql.exported, base)))
  }

  /** The field-by-field description of Loaded. */
  lemma LoadedIs(t: Stores, c: Converted, u: Stores)
    requires Sorted(t.historyUrls, StrKeyLt) && Sorted(t.historySockets, StrKeyLt)
    requires HintsInRange(c.requests, c.websql.exported)
    requires WellKeyed(ProjectsAfter(c.requests, c.websql.projects, t.nextRequestId))
    requires u.historyUrls == PutAll(t.historyUrls, c.urlHistory)
    requires u.historySockets == PutAll(t.historySockets, c.socketHistory)
    requires u.requests == Inserted(t.requests, Stripped(c.requests), t.nextRequestId)
    requires u.nextRequestId == t.nextRequestId + |c.requests|
    requires u.projects == Inserted(t.projects, ProjectValues(ProjectsAfter(c.requests, c.websql.projects, t.nextRequestId)), t.nextProjectId)
    requires u.nextProjectId == t.nextProjectId + |ProjectsAfter(c.requests, c.websql.projects, t.nextRequestId).keys|
    requires u.serverExports == ExportTable(t.serverExports, ExportsAfter(c.requests, c.websql.exported, t.nextRequestId))
    requires u.headers == t.headers && u.statuses == t.statuses
    ensures u == Loaded(t, c)
  {
  }

  /** The migration keeps the tables well formed. */
  lemma LoadedValid(t: Stores, c: Converted)
    requires ValidStores(t) && HintsInRange(c.requests, c.websql.exported)
    ensures ValidStores(Loaded(t, c))
  {
    var base := t.nextRequestId;
    ProjectsUpToWellKeyed(c.requests, c.websql.projects, base, |c.requests|);
    var d := ProjectsAfter(c.requests, c.websql.projects, base);
    InsertedBound(t.requests, Stripped(c.requests), base);
    InsertedBound(t.projects, ProjectValues(d), t.nextProjectId);
    ExportsAfterOrdered(c.requests, c.websql.exported, base);
    ExportTableBound(t.serverExports, ExportsAfter(c.requests, c.websql.exported, base), base + |c.requests|);
  }

  // ------------------------------------------------------------ imports and queries

  /** A request as `importRequests` stores it: normalised, then typed `saved`. */
  function SavedCopy(item: SqlRequestRow, h: HeaderHelpers, appVer: Option<string>): RequestObject
  {
    Normalize(item, h, appVer).(kind := Saved)
  }

  /** A request as `importProjectWithRequests` stores it: a saved copy that keeps its legacy id. */
  function ImportedRequest(item: SqlRequestRow, h: HeaderHelpers, appVer: Option<string>): RequestObject
  {
    SavedCopy(item, h, appVer).(oldId := ImportedRequestOldId(item))
  }

  /** An imported request is a saved record of the item's URL and method that keeps its legacy id. */
  lemma ImportedRequestShape(item: SqlRequestRow, h: HeaderHelpers, appVer: Option<string>)
    ensures ImportedRequest(item, h, appVer).kind == Saved
    ensures SavedCopy(item, h, appVer).kind == Saved && SavedCopy(item, h, appVer).oldId.None?
    ensures ImportedRequest(item, h, appVer).oldId == ImportedRequestOldId(item)
    ensures ImportedRequest(item, h, appVer).url == item.url
    ensures ImportedRequest(item, h, appVer).httpMethod == item.httpMethod
    ensures ImportedRequest(item, h, appVer).har == Normalize(item, h, appVer).har
  {
    NormalizeShape(item, h, appVer);
  }

  /** Every item of `importRequests`, as stored. */
  function SavedCopies(items: seq<SqlRequestRow>, h: HeaderHelpers, appVer: Option<string>): seq<RequestObject>
  {
    seq(|items|, i requires 0 <= i < |items| => SavedCopy(items[i], h, appVer))
  }

  /** Every item of `importProjectWithRequests`, as stored. */
  function ImportedRequests(items: seq<SqlRequestRow>, h: HeaderHelpers, appVer: Option<string>): seq<RequestObject>
  {
    seq(|items|, i requires 0 <= i < |items| => ImportedRequest(items[i], h, appVer))
  }

  /** The project `importProjectWithRequests` puts once its new requests have the ids `ids`. */
  function ImportedProject(project: ProjectInput, ids: seq<nat>): Project
  {
    Project(project.name, project.time, project.requestIds + ids, ImportedOldId(project))
  }

  /**
   * After an import of the requests `rs`, the project lists every new id, and each id it lists
   * is either one it listed before or a fresh id that now holds one of `rs`.
   */
  lemma ImportLinksRequests(t: map<nat, RequestObject>, project: ProjectInput, rs: seq<RequestObject>, base: nat)
    requires forall id :: id in t ==> id < base
    ensures forall k :: 0 <= k < |rs| ==> Range(base, |rs|)[k] in ImportedProject(project, Range(base, |rs|)).requestIds
    ensures forall id :: id in ImportedProject(project, Range(base, |rs|)).requestIds ==>
      || id in project.requestIds
      || (&& base <= id < base + |rs| && id !in t
          && id in Inserted(t, rs, base) && Inserted(t, rs, base)[id] == rs[id - base])
  {
    var ids := Range(base, |rs|);
    InsertedContents(t, rs, base);
    assert ImportedProject(project, ids).requestIds == project.requestIds + ids;
    forall k | 0 <= k < |rs| ensures ids[k] in ImportedProject(project, ids).requestIds {
      assert (project.requestIds + ids)[|project.requestIds| + k] == ids[k];
    }
    forall id | id in ImportedProject(project, ids).requestIds && id !in project.requestIds
      ensures base <= id < base + |rs| && id !in t && id in Inserted(t, rs, base) && Inserted(t, rs, base)[id] == rs[id - base]
    {
      var k :| 0 <= k < |ids| && ids[k] == id;
      assert Inserted(t, rs, base)[base + k] == rs[k];
    }
  }

  /** The project `addProject(name, time, requestId)` puts; a falsy request id gives no reference. */
  function NewProject(name: string, time: int, requestId: nat): Project
  {
    Project(name, time, if requestId != 0 then [requestId] else [], None)
  }

  /** The rows of `m` under the keys `ks`, in the order of `ks`. */
  function Rows<V>(m: map<nat, V>, ks: seq<nat>): (r: seq<(nat, V)>)
    requires forall k :: k in ks ==> k in m
    ensures |r| == |ks| && forall i :: 0 <= i < |ks| ==> r[i] == (ks[i], m[ks[i]])
  {
    seq(|ks|, i requires 0 <= i < |ks| => var k := ks[i]; assert k in ks; (k, m[k]))
  }

  /** `chrome.runtime.getManifest().version`, or `'tests case'` where there is no manifest. */
  function AppVersion(manifestVersion: Option<string>): string
  {
    if manifestVersion.Some? then manifestVersion.value else "tests case"
  }

  /**
   * `_getSQLdata(dontUpgrade)`: null when the upgrade is not wanted; otherwise the six WebSQL
   * reads, where `websql` is the tables they deliver, or None when one of them reports an error
   * and the promise rejects.
   */
  function SqlDataRead(dontUpgrade: bool, websql: Option<SqlData>): (r: Result<Option<SqlData>>)
    ensures r.Err? <==> !dontUpgrade && websql.None?
    ensures r.Err? ==> r.error == SqlError
    ensures r.Ok? ==> (r.value.None? <==> dontUpgrade)
    ensures r.Ok? && r.value.Some? ==> r.value == websql
  {
    if dontUpgrade then Ok(None)
    else if websql.None? then Err(SqlError)
    else Ok(websql)
  }

  class Database {
    var requests: map<nat, RequestObject>
    var projects: map<nat, Project>
    var serverExports: map<(string, nat), ServerExport>
    var historyUrls: HistoryTable
    var historySockets: HistoryTable
    var headers: seq<HeaderRow>
    var statuses: map<int, StatusDef>
    /** The next keys of the `++id` generators of `requestObject` and `projectObjects`. */
    var nextRequestId: nat
    var nextProjectId: nat
    /** `arc.app.db.idb.upgraded` and `arc.app.db.idb.appVer`. */
    var upgraded: bool
    var appVer: Option<string>
    /** Whether `arc.app.db._adapter` has been switched to `'indexeddb'`. */
    var indexedDbAdapter: bool
    /** The header helpers the normaliser calls. */
    const helpers: HeaderHelpers

    /** The tables and key generators as one value. */
    ghost function Snapshot(): Stores
      reads this`requests, this`projects, this`serverExports, this`historyUrls, this`historySockets,
            this`headers, this`statuses, this`nextRequestId, this`nextProjectId
    {
      Stores(requests, projects, serverExports, historyUrls, historySockets, headers, statuses, nextRequestId, nextProjectId)
    }

    ghost predicate Valid()
      reads this`requests, this`projects, this`serverExports, this`historyUrls, this`historySockets,
            this`headers, this`statuses, this`nextRequestId, this`nextProjectId
    {
      ValidStores(Snapshot())
    }

    /** A freshly created, empty database. */
    constructor (helpers: HeaderHelpers)
      ensures Valid() && this.helpers == helpers
      ensures requests == map[] && projects == map[] && serverExports == map[]
      ensures historyUrls == [] && historySockets == [] && headers == [] && statuses == map[]
      ensures nextRequestId == 1 && nextProjectId == 1 && !upgraded && appVer.None? && !indexedDbAdapter
    {
      this.helpers := helpers;
      requests, projects, serverExports := map[], map[], map[];
      historyUrls, historySockets, headers, statuses := [], [], [], map[];
      nextRequestId, nextProjectId := 1, 1;
      upgraded, appVer, indexedDbAdapter := false, None, false;
    }

    // ------------------------------------------------------------ populate

    /**
     * The `populate` handler of a new database: without definitions nothing is written;
     * otherwise every status and every tagged header is added in one transaction, which
     * aborts, writing nothing, if a key repeats.
     */
    method Populate(defs: Option<Definitions>) returns (r: Result<()>)
      requires Valid() && statuses == map[] && headers == []
      modifies this`statuses, this`headers
      ensures Valid()
      ensures r.Err? ==> r.error == ConstraintError
      ensures defs.None? ==> r.Ok? && statuses == old(statuses) && headers == old(headers)
      ensures defs.Some? ==>
        (r.Ok? <==> AddCodes(map[], defs.value.codes).Some? && AddAll([], TaggedHeaders(defs.value)).Some?)
      ensures defs.Some? && r.Ok? ==>
        statuses == AddCodes(map[], defs.value.codes).value && headers == AddAll([], TaggedHeaders(defs.value)).value
      ensures r.Err? ==> statuses == old(statuses) && headers == old(headers)
    {
      if defs.None? {
        return Ok(());
      }
      var st := AddStatuses(defs.value.codes);
      var hd := AddHeaders(TaggedHeaders(defs.value));
      if st.Some? && hd.Some? {
        statuses := st.value;
        headers := hd.value;
        r := Ok(());
      } else {
        r := Err(ConstraintError);
      }
    }

    /** The status part of `populate`: `add` of each code into the empty table. */
    static method AddStatuses(codes: seq<StatusDef>) returns (st: Option<map<int, StatusDef>>)
      ensures st == AddCodes(map[], codes)
    {
      st := Some(map[]);
      for i := 0 to |codes|
        invariant st == AddCodes(map[], codes[..i])
      {
        assert codes[..i + 1][..i] == codes[..i];
        if st.Some? {
          var c := codes[i];
          if c.code in st.value {
            st := None;
          } else {
            st := Some(st.value[c.code := c]);
          }
        }
      }
      assert codes[..|codes|] == codes;
    }

    /** The header part of `populate`: `add` of each tagged row into the empty table. */
    static method AddHeaders(rows: seq<HeaderRow>) returns (hd: Option<seq<HeaderRow>>)
      ensures hd == AddAll([], rows)
    {
      PairOrder();
      hd := Some([]);
      for i := 0 to |rows|
        invariant hd == AddAll([], rows[..i])
      {
        assert rows[..i + 1][..i] == rows[..i];
        if hd.Some? {
          hd := Add(hd.value, rows[i], PairLt);
        }
      }
      assert rows[..|rows|] == rows;
    }

    // ------------------------------------------------------------ migration

    /** The URL history step of `_storeUpgrade`: `put` of every entry. */
    method PutHistoryUrls(es: seq<HistoryEntry>)
      requires Sorted(historyUrls, StrKeyLt)
      modifies this`historyUrls
      ensures historyUrls == PutAll(old(historyUrls), es)
    {
      StrOrder();
      for i := 0 to |es|
        invariant historyUrls == PutAll(old(historyUrls), es[..i])
      {
        assert es[..i + 1][..i] == es[..i];
        historyUrls := Put(historyUrls, Row(es[i].url, es[i].time), StrKeyLt);
      }
      assert es[..|es|] == es;
    }

    /** The socket history step of `_storeUpgrade`: `put` of every entry. */
    method PutHistorySockets(es: seq<HistoryEntry>)
      requires Sorted(historySockets, StrKeyLt)
      modifies this`historySockets
      ensures historySockets == PutAll(old(historySockets), es)
    {
      StrOrder();
      for i := 0 to |es|
        invariant historySockets == PutAll(old(historySockets), es[..i])
      {
        assert es[..i + 1][..i] == es[..i];
        historySockets := Put(historySockets, Row(es[i].url, es[i].time), StrKeyLt);
      }
      assert es[..|es|] == es;
    }

    /**
     * `insertRequest`: the request, without its hints, is added under the next id, and the
     * project dictionary and the export list are updated from its hints.
     */
    method InsertRequest(item: PendingRequest, rows: seq<ProjectRow>, exported: seq<ExportedRow>,
                         pending: InFlight, exports: seq<ServerExport>)
      returns (pending': InFlight, exports': seq<ServerExport>)
      requires item.exported.Some? ==> item.exported.value < |exported|
      modifies this`requests, this`nextRequestId
      ensures requests == old(requests)[old(nextRequestId) := item.request]
      ensures nextRequestId == old(nextRequestId) + 1
      ensures pending' == ProjectStep(pending, item.project, rows, old(nextRequestId))
      ensures exports' == exports + ExportStep(item.exported, exported, old(nextRequestId))
    {
      var requestId := nextRequestId;
      requests := requests[requestId := item.request];
      nextRequestId := nextRequestId + 1;
      pending' := ProjectStep(pending, item.project, rows, requestId);
      exports' := exports + ExportStep(item.exported, exported, requestId);
    }

    /** The request step of `_storeUpgrade`: `insertRequest` for every request, in order. */
    method InsertPending(reqs: seq<PendingRequest>, rows: seq<ProjectRow>, exported: seq<ExportedRow>)
      returns (pending: InFlight, exports: seq<ServerExport>)
      requires HintsInRange(reqs, exported)
      modifies this`requests, this`nextRequestId
      ensures requests == Inserted(old(requests), Stripped(reqs), old(nextRequestId))
      ensures nextRequestId == old(nextRequestId) + |reqs|
      ensures pending == ProjectsAfter(reqs, rows, old(nextRequestId))
      ensures exports == ExportsAfter(reqs, exported, old(nextRequestId))
    {
      var base := nextRequestId;
      ghost var start := requests;
      ghost var objs := Stripped(reqs);
      pending, exports := InFlight([], map[]), [];
      for i := 0 to |reqs|
        invariant nextRequestId == base + i
        invariant requests == InsertedUpTo(start, objs, base, i)
        invariant pending == ProjectsUpTo(reqs, rows, base, i)
        invariant exports == ExportsUpTo(reqs, exported, base, i)
      {
        pending, exports := InsertRequest(reqs[i], rows, exported, pending, exports);
      }
    }

    /** The project step of `_storeUpgrade`: `add` of every project, in `Object.keys` order. */
    method InsertProjects(pending: InFlight)
      requires forall k :: k in pending.keys ==> k in pending.entries
      modifies this`projects, this`nextProjectId
      ensures projects == Inserted(old(projects), ProjectValues(pending), old(nextProjectId))
      ensures nextProjectId == old(nextProjectId) + |pending.keys|
    {
      var base := nextProjectId;
      ghost var values := ProjectValues(pending);
      for i := 0 to |pending.keys|
        invariant nextProjectId == base + i
        invariant projects == InsertedUpTo(old(projects), values, base, i)
      {
        projects := projects[nextProjectId := pending.entries[pending.keys[i]]];
        nextProjectId := nextProjectId + 1;
      }
    }

    /** The export step of `_storeUpgrade`: `add` of every export record. */
    method InsertExports(exports: seq<ServerExport>, ghost firstId: nat)
      requires forall i, j :: 0 <= i < j < |exports| ==> exports[i].requestId < exports[j].requestId
      requires forall k :: k in serverExports ==> k.1 < firstId
      requires forall j :: 0 <= j < |exports| ==> firstId <= exports[j].requestId
      modifies this`serverExports
      ensures serverExports == ExportTable(old(serverExports), exports)
      ensures forall n :: 0 <= n < |exports| ==>
        (exports[n].serverId, exports[n].requestId) !in ExportTableUpTo(old(serverExports), exports, n)
    {
      ExportAddsFresh(serverExports, exports, firstId);
      for i := 0 to |exports|
        invariant serverExports == ExportTableUpTo(old(serverExports), exports, i)
        invariant forall k, j :: k in serverExports && i <= j < |exports| ==> k.1 < exports[j].requestId
      {
        var key := (exports[i].serverId, exports[i].requestId);
        ghost var before := serverExports;
        serverExports := serverExports[key := exports[i]];
        assert forall k, j :: k in serverExports && i + 1 <= j < |exports| ==> k.1 < exports[j].requestId by {
          forall k, j | k in serverExports && i + 1 <= j < |exports| ensures k.1 < exports[j].requestId {
            if k != key {
              assert k in before;
            }
          }
        }
      }
    }

    /** The history part of the `_storeUpgrade` transaction. */
    method LoadHistory(c: Converted)
      requires Sorted(historyUrls, StrKeyLt) && Sorted(historySockets, StrKeyLt)
      modifies this`historyUrls, this`historySockets
      ensures historyUrls == PutAll(old(historyUrls), c.urlHistory)
      ensures historySockets == PutAll(old(historySockets), c.socketHistory)
    {
      PutHistoryUrls(c.urlHistory);
      PutHistorySockets(c.socketHistory);
    }

    /** The request part of the `_storeUpgrade` transaction. */
    method LoadRequests(c: Converted)
      requires HintsInRange(c.requests, c.websql.exported)
      requires forall k :: k in serverExports ==> k.1 < nextRequestId
      modifies this`requests, this`nextRequestId, this`projects, this`nextProjectId, this`serverExports
      ensures requests == Inserted(old(requests), Stripped(c.requests), old(nextRequestId))
      ensures nextRequestId == old(nextRequestId) + |c.requests|
      ensures WellKeyed(ProjectsAfter(c.requests, c.websql.projects, old(nextRequestId)))
      ensures projects == Inserted(old(projects), ProjectValues(ProjectsAfter(c.requests, c.websql.projects, old(nextRequestId))), old(nextProjectId))
      ensures nextProjectId == old(nextProjectId) + |ProjectsAfter(c.requests, c.websql.projects, old(nextRequestId)).keys|
      ensures serverExports == ExportTable(old(serverExports), ExportsAfter(c.requests, c.websql.exported, old(nextRequestId)))
    {
      ghost var base := nextRequestId;
      var pending, exports := InsertPending(c.requests, c.websql.projects, c.websql.exported);
      ProjectsUpToWellKeyed(c.requests, c.websql.projects, base, |c.requests|);
      InsertProjects(pending);
      ExportsAfterOrdered(c.requests, c.websql.exported, base);
      InsertExports(exports, base);
    }

    /**
     * `_storeUpgrade(data)`: null stays null and nothing is written; otherwise the converted
     * data is loaded in one transaction.
     */
    method StoreUpgrade(data: Option<Converted>) returns (stored: bool)
      requires Valid()
      requires data.Some? ==> HintsInRange(data.value.requests, data.value.websql.exported)
      modifies this`historyUrls, this`historySockets, this`requests, this`nextRequestId,
               this`projects, this`nextProjectId, this`serverExports
      ensures Valid()
      ensures stored <==> data.Some?
      ensures data.None? ==> Snapshot() == old(Snapshot())
      ensures data.Some? ==> Snapshot() == Loaded(old(Snapshot()), data.value)
    {
      if data.None? {
        return false;
      }
      var c := data.value;
      LoadHistory(c);
      LoadRequests(c);
      stored := true;
      LoadedIs(old(Snapshot()), c, Snapshot());
      LoadedValid(old(Snapshot()), c);
    }

    // ------------------------------------------------------------ the upgrade gate

    /**
     * `.then(_converSqlIdb).then(_storeUpgrade)`: null passes through and nothing is written;
     * read tables are converted and loaded.
     */
    method ConvertAndStore(data: Option<SqlData>) returns (stored: bool)
      requires Valid()
      modifies this`historyUrls, this`historySockets, this`requests, this`nextRequestId,
               this`projects, this`nextProjectId, this`serverExports
      ensures Valid()
      ensures stored <==> data.Some?
      ensures data.None? ==> Snapshot() == old(Snapshot())
      ensures data.Some? ==> Snapshot() == Loaded(old(Snapshot()), ConvertedData(data.value, helpers, appVer))
    {
      var converted := Convert(data, helpers, appVer);
      if data.Some? {
        ConvertedHintsInRange(data.value, helpers, appVer);
      }
      stored := StoreUpgrade(converted);
    }


    /**
     * The promise of the `ready` handler that reads the persisted flag. Without `chrome.storage`
     * it sets `upgraded` and resolves false. Otherwise a set flag switches the adapter, sets
     * `upgraded` and resolves true, and a clear flag resolves false.
     */
    method ReadUpgradeFlag(storage: Option<bool>) returns (dontUpgrade: bool)
      modifies this`upgraded, this`indexedDbAdapter
      ensures dontUpgrade <==> storage.Some? && storage.value
      ensures upgraded <==> old(upgraded) || storage != Some(false)
      ensures indexedDbAdapter <==> old(indexedDbAdapter) || storage == Some(true)
    {
      dontUpgrade := false;
      if storage.None? {
        upgraded := true;
      } else {
        dontUpgrade := storage.value;
        if dontUpgrade {
          indexedDbAdapter := true;
          upgraded := true;
        }
      }
    }

    /**
     * The `ready` handler. Once `upgraded` is set it does nothing. Otherwise it records the
     * application version and reads the persisted flag: `storage` is None where there is no
     * `chrome.storage` (the flag is then set at once and the upgrade still runs) and
     * `Some(flag)` otherwise. A set flag makes `_getSQLdata` return null, so nothing is written.
     * A clear one reads the legacy tables: `websql` is what the reads deliver, or None when one
     * of them fails, which rejects the chain before anything is stored or flagged. Read tables
     * are converted and stored, `upgraded` is set and, with `chrome.storage`, the flag is
     * written back (`flagWritten`).
     */
    method OnReady(storage: Option<bool>, manifestVersion: Option<string>, websql: Option<SqlData>)
      returns (flagWritten: bool)
      requires Valid()
      modifies this`upgraded, this`appVer, this`indexedDbAdapter,
               this`historyUrls, this`historySockets, this`requests, this`nextRequestId,
               this`projects, this`nextProjectId, this`serverExports
      ensures Valid()
      ensures old(upgraded) ==> !flagWritten && Snapshot() == old(Snapshot())
      ensures old(upgraded) ==> appVer == old(appVer) && indexedDbAdapter == old(indexedDbAdapter)
      ensures !old(upgraded) ==> appVer == Some(AppVersion(manifestVersion))
      ensures !old(upgraded) && storage == Some(true) ==> Snapshot() == old(Snapshot()) && indexedDbAdapter
      ensures !old(upgraded) && storage != Some(true) && websql.None? ==>
        Snapshot() == old(Snapshot()) && indexedDbAdapter == old(indexedDbAdapter)
      ensures !old(upgraded) && storage != Some(true) && websql.Some? ==>
        indexedDbAdapter &&
        Snapshot() == Loaded(old(Snapshot()), ConvertedData(websql.value, helpers, Some(AppVersion(manifestVersion))))
      ensures flagWritten <==> !old(upgraded) && storage == Some(false) && websql.Some?
      ensures upgraded <==> old(upgraded) || storage != Some(false) || websql.Some?
    {
      if upgraded {
        return false;
      }
      appVer := Some(AppVersion(manifestVersion));
      flagWritten := UpgradeChain(storage, websql);
    }

    /**
     * The promise chain of the `ready` handler: read the flag, `_getSQLdata`, `_converSqlIdb`,
     * `_storeUpgrade`, then set `upgraded` and write the flag back. A rejected read ends the
     * chain at once.
     */
    method UpgradeChain(storage: Option<bool>, websql: Option<SqlData>) returns (flagWritten: bool)
      requires Valid() && !upgraded
      modifies this`upgraded, this`indexedDbAdapter,
               this`historyUrls, this`historySockets, this`requests, this`nextRequestId,
               this`projects, this`nextProjectId, this`serverExports
      ensures Valid()
      ensures storage == Some(true) ==> Snapshot() == old(Snapshot()) && indexedDbAdapter
      ensures storage != Some(true) && websql.None? ==>
        Snapshot() == old(Snapshot()) && indexedDbAdapter == old(indexedDbAdapter)
      ensures storage != Some(true) && websql.Some? ==>
        indexedDbAdapter && Snapshot() == Loaded(old(Snapshot()), ConvertedData(websql.value, helpers, appVer))
      ensures flagWritten <==> storage == Some(false) && websql.Some?
      ensures upgraded <==> storage != Some(false) || websql.Some?
    {
      var dontUpgrade := ReadUpgradeFlag(storage);
      var sql := SqlDataRead(dontUpgrade, websql);
      if sql.Err? {
        return false;
      }
      var stored := ConvertAndStore(sql.value);
      flagWritten := false;
      if stored {
        assert storage.Some? ==> !storage.value && storage == Some(storage.value);
        indexedDbAdapter := true;
        upgraded := true;
        flagWritten := storage.Some?;
      }
    }

    // ------------------------------------------------------------ imports

    /** The `forEach` of `importRequests` that normalises every item as a saved request. */
    method NormalizeSaved(items: seq<SqlRequestRow>) returns (rs: seq<RequestObject>)
      ensures rs == SavedCopies(items, helpers, appVer)
    {
      rs := [];
      for n := 0 to |items|
        invariant |rs| == n
        invariant forall i :: 0 <= i < n ==> rs[i] == SavedCopy(items[i], helpers, appVer)
      {
        var r := Normalize(items[n], helpers, appVer);
        rs := rs + [r.(kind := Saved)];
      }
    }

    /** The `forEach` of `importProjectWithRequests` that normalises every item and keeps its legacy id. */
    method NormalizeImported(items: seq<SqlRequestRow>) returns (rs: seq<RequestObject>)
      ensures rs == ImportedRequests(items, helpers, appVer)
    {
      rs := [];
      for n := 0 to |items|
        invariant |rs| == n
        invariant forall i :: 0 <= i < n ==> rs[i] == ImportedRequest(items[i], helpers, appVer)
      {
        var item := items[n];
        var r := Normalize(item, helpers, appVer).(kind := Saved);
        if item.oldId != 0 {
          r := r.(oldId := Some(item.oldId));
        } else if item.kind == "" && item.id != 0 {
          r := r.(oldId := Some(item.id));
        }
        rs := rs + [r];
      }
    }

    /** `add` of every request, in order, under the next auto-increment ids. */
    method AddRequests(rs: seq<RequestObject>) returns (ids: seq<nat>)
      requires Valid()
      modifies this`requests, this`nextRequestId
      ensures Valid()
      ensures requests == Inserted(old(requests), rs, old(nextRequestId))
      ensures nextRequestId == old(nextRequestId) + |rs|
      ensures ids == Range(old(nextRequestId), |rs|)
    {
      var base := nextRequestId;
      ids := [];
      for i := 0 to |rs|
        invariant nextRequestId == base + i
        invariant requests == InsertedUpTo(old(requests), rs, base, i)
        invariant |ids| == i && forall k :: 0 <= k < i ==> ids[k] == base + k
        invariant forall id :: id in requests ==> 1 <= id < nextRequestId
      {
        var id := nextRequestId;
        requests := requests[id := rs[i]];
        nextRequestId := nextRequestId + 1;
        ids := ids + [id];
      }
    }

    /**
     * `importRequests(requests)`: every item, normalised and typed `saved`, is added in one
     * transaction; the result is the list of new ids.
     */
    method ImportRequests(items: seq<SqlRequestRow>) returns (ids: seq<nat>)
      requires Valid()
      modifies this`requests, this`nextRequestId
      ensures Valid()
      ensures requests == Inserted(old(requests), SavedCopies(items, helpers, appVer), old(nextRequestId))
      ensures nextRequestId == old(nextRequestId) + |items|
      ensures ids == Range(old(nextRequestId), |items|)
      ensures forall id :: id in old(requests) ==> id in requests && requests[id] == old(requests)[id]
    {
      var rs := NormalizeSaved(items);
      ids := AddRequests(rs);
      InsertedFresh(old(requests), rs, old(nextRequestId));
    }

    /**
     * `importProjectWithRequests(project, requests)`: the items are added as saved requests that
     * keep their legacy ids, their new ids are appended to the project, and the project, which
     * keeps `oldId || id` as its legacy id, is put: under its own id when it is a stored
     * ProjectObject, under the next auto-increment id otherwise. The result is its key.
     */
    method ImportProjectWithRequests(project: ProjectInput, items: seq<SqlRequestRow>) returns (key: nat)
      requires Valid()
      modifies this`requests, this`nextRequestId, this`projects, this`nextProjectId
      ensures Valid()
      ensures requests == Inserted(old(requests), ImportedRequests(items, helpers, appVer), old(nextRequestId))
      ensures nextRequestId == old(nextRequestId) + |items|
      ensures project.isProjectObject && project.id != 0 ==> key == project.id
      ensures !(project.isProjectObject && project.id != 0) ==> key == old(nextProjectId) && key !in old(projects)
      ensures projects == old(projects)[key := ImportedProject(project, Range(old(nextRequestId), |items|))]
      ensures nextProjectId == if key < old(nextProjectId) then old(nextProjectId) else key + 1
    {
      var rs := NormalizeImported(items);
      var ids := AddRequests(rs);
      assert |rs| == |items|;
      key := PutImportedProject(project, ids);
    }

    /**
     * The final `put` of `importProjectWithRequests`: a stored ProjectObject (one with a truthy
     * `id`) is put under its own id, any other project under the next auto-increment id.
     */
    method PutImportedProject(project: ProjectInput, ids: seq<nat>) returns (key: nat)
      requires Valid()
      modifies this`projects, this`nextProjectId
      ensures Valid()
      ensures project.isProjectObject && project.id != 0 ==> key == project.id
      ensures !(project.isProjectObject && project.id != 0) ==> key == old(nextProjectId) && key !in old(projects)
      ensures projects == old(projects)[key := ImportedProject(project, ids)]
      ensures nextProjectId == if key < old(nextProjectId) then old(nextProjectId) else key + 1
    {
      var p := ImportedProject(project, ids);
      if project.isProjectObject && project.id != 0 {
        key := project.id;
        projects := projects[key := p];
        if nextProjectId <= key {
          nextProjectId := key + 1;
        }
      } else {
        key := nextProjectId;
        projects := projects[key := p];
        nextProjectId := nextProjectId + 1;
      }
    }

    /** `addProject(name, time, requestId)`: the project is put under the next auto-increment id. */
    method AddProject(name: string, time: int, requestId: nat) returns (key: nat)
      requires Valid()
      modifies this`projects, this`nextProjectId
      ensures Valid()
      ensures key == old(nextProjectId) && key !in old(projects)
      ensures projects == old(projects)[key := NewProject(name, time, requestId)]
      ensures nextProjectId == old(nextProjectId) + 1
    {
      key := nextProjectId;
      projects := projects[key := NewProject(name, time, requestId)];
      nextProjectId := nextProjectId + 1;
    }

    // ------------------------------------------------------------ queries

    /** `getStatusCode(code)`: the status definition stored under `code`, or undefined. */
    function GetStatusCode(code: int): (r: Option<StatusDef>)
      reads this`statuses
      ensures r.Some? <==> code in statuses
      ensures r.Some? ==> r.value == statuses[code]
    {
      if code in statuses then Some(statuses[code]) else None
    }

    /** `getRequest(id)`: the request stored under `id`, or undefined. */
    function GetRequest(id: nat): (r: Option<RequestObject>)
      reads this`requests
      ensures r.Some? <==> id in requests
      ensures r.Some? ==> r.value == requests[id]
    {
      if id in requests then Some(requests[id]) else None
    }

    /** `getHeaderByName(name, type)`: the definition under the key `[name+type]`, or null. */
    function GetHeaderByName(name: string, kind: string): (r: Option<HeaderDef>)
      reads this`headers
      ensures r.Some? ==> Row((name, kind), r.value) in headers
      ensures r.None? <==> forall x :: x in headers ==> x.key != (name, kind)
    {
      var r := Find(headers, (name, kind));
      assert forall i :: 0 <= i < |headers| ==> headers[i] in headers;
      r
    }

    /**
     * `getHeadersByName(name, type)`: exactly the header rows whose key starts with `name`,
     * ignoring case, and whose type is `type`, sorted by key.
     */
    function GetHeadersByName(name: string, kind: string): (r: seq<HeaderRow>)
      reads this`headers
      requires Sorted(headers, PairLt)
      ensures forall x :: x in r <==> x in headers && StartsWithIgnoreCase(x.key.0, name) && x.key.1 == kind
      ensures forall i, j :: 0 <= i < j < |r| ==> StrLt(r[i].key.0, r[j].key.0)
    {
      var r := Select(headers, (x: HeaderRow) => StartsWithIgnoreCase(x.key.0, name) && x.key.1 == kind, PairLt);
      StrLtIrreflexive(kind);
      assert forall i :: 0 <= i < |r| ==> r[i] in r;
      r
    }

    /** `getHistoryUrls(query)`: exactly the URL history entries whose url starts with `query`, ignoring case, sorted by url. */
    function GetHistoryUrls(query: string): (r: HistoryTable)
      reads this`historyUrls
      requires Sorted(historyUrls, StrKeyLt)
      ensures forall x :: x in r <==> x in historyUrls && StartsWithIgnoreCase(x.key, query)
      ensures forall i, j :: 0 <= i < j < |r| ==> StrLt(r[i].key, r[j].key)
    {
      Select(historyUrls, (x: Row<string, int>) => StartsWithIgnoreCase(x.key, query), StrKeyLt)
    }

    /**
     * `getProjectLegacy(id)`: the first project, in key order, of those whose legacy id is
     * `legacyId` (the `oldId` index lists equal entries by key), or null.
     */
    function GetProjectLegacy(legacyId: int): (r: Option<(nat, Project)>)
      reads this`projects, this`nextProjectId
      requires forall id :: id in projects ==> id < nextProjectId
      ensures r.None? <==> forall k :: k in projects ==> projects[k].oldId != Some(legacyId)
      ensures r.Some? ==> r.value.0 in projects && r.value.1 == projects[r.value.0] && r.value.1.oldId == Some(legacyId)
      ensures r.Some? ==> forall k :: k in projects && k < r.value.0 ==> projects[k].oldId != Some(legacyId)
    {
      var ks := KeysBelow(projects, (k: nat, p: Project) => p.oldId == Some(legacyId), nextProjectId);
      if ks == [] then None
      else
        assert ks[0] in ks;
        assert forall k :: k in projects && k < ks[0] ==> k !in ks;
        Some((ks[0], projects[ks[0]]))
    }

    /** `listProjects()`: every project with its key, ascending by key. */
    function ListProjects(): (r: seq<(nat, Project)>)
      reads this`projects, this`nextProjectId
      requires forall id :: id in projects ==> id < nextProjectId
      ensures forall i, j :: 0 <= i < j < |r| ==> r[i].0 < r[j].0
      ensures forall i :: 0 <= i < |r| ==> r[i].0 in projects && r[i].1 == projects[r[i].0]
      ensures forall k :: k in projects ==> (k, projects[k]) in r
    {
      var ks := KeysBelow(projects, (k: nat, p: Project) => true, nextProjectId);
      var r := Rows(projects, ks);
      assert forall k :: k in projects ==> k in ks && (k, projects[k]) in r by {
        forall k | k in projects ensures k in ks && (k, projects[k]) in r {
          var i :| 0 <= i < |ks| && ks[i] == k;
          assert r[i] == (k, projects[k]);
        }
      }
      r
    }

    /**
     * `getProjectRequests(projectId)`: nothing when there is no such project or it lists no
     * request; otherwise the stored requests whose ids the project lists, ascending by id,
     * each once.
     */
    function GetProjectRequests(projectId: nat): (r: seq<(nat, RequestObject)>)
      reads this`projects, this`requests, this`nextRequestId
      requires forall id :: id in requests ==> id < nextRequestId
      ensures projectId !in projects || projects[projectId].requestIds == [] ==> r == []
      ensures forall i, j :: 0 <= i < j < |r| ==> r[i].0 < r[j].0
      ensures forall i :: 0 <= i < |r| ==>
        r[i].0 in projects[projectId].requestIds && r[i].0 in requests && r[i].1 == requests[r[i].0]
      ensures projectId in projects ==>
        forall id :: id in projects[projectId].requestIds && id in requests ==> (id, requests[id]) in r
    {
      if projectId !in projects || projects[projectId].requestIds == [] then []
      else
        var ids := projects[projectId].requestIds;
        var ks := KeysBelow(requests, (k: nat, q: RequestObject) => k in ids, nextRequestId);
        var r := Rows(requests, ks);
        assert forall id :: id in ids && id in requests ==> (id, requests[id]) in r by {
          forall id | id in ids && id in requests ensures (id, requests[id]) in r {
            var i :| 0 <= i < |ks| && ks[i] == id;
            assert r[i] == (id, requests[id]);
          }
        }
        r
    }

    /** `getRequestObjectsByLegacyId(legacyId)`: the requests whose legacy id is `legacyId`, ascending by key. */
    function GetRequestObjectsByLegacyId(legacyId: int): (r: seq<(nat, RequestObject)>)
      reads this`requests, this`nextRequestId
      requires forall id :: id in requests ==> id < nextRequestId
      ensures forall i, j :: 0 <= i < j < |r| ==> r[i].0 < r[j].0
      ensures forall i :: 0 <= i < |r| ==>
        r[i].0 in requests && r[i].1 == requests[r[i].0] && r[i].1.oldId == Some(legacyId)
      ensures forall id :: id in requests && requests[id].oldId == Some(legacyId) ==> (id, requests[id]) in r
    {
      var ks := KeysBelow(requests, (k: nat, q: RequestObject) => q.oldId == Some(legacyId), nextRequestId);
      var r := Rows(requests, ks);
      assert forall id :: id in requests && requests[id].oldId == Some(legacyId) ==> (id, requests[id]) in r by {
        forall id | id in requests && requests[id].oldId == Some(legacyId) ensures (id, requests[id]) in r {
          var i :| 0 <= i < |ks| && ks[i] == id;
          assert r[i] == (id, requests[id]);
        }
      }
      r
    }

    // ------------------------------------------------------------ updates and deletes

    /** `putUrlHistory(url, time)`: upsert of the entry; the result is its key. */
    method PutUrlHistory(url: string, time: int) returns (key: string)
      requires Valid()
      modifies this`historyUrls
      ensures Valid() && key == url
      ensures historyUrls == PutAll(old(historyUrls), [HistoryEntry(url, time)])
      ensures Find(historyUrls, url) == Some(time)
      ensures forall u :: u != url ==> Find(historyUrls, u) == Find(old(historyUrls), u)
    {
      StrOrder();
      historyUrls := Put(historyUrls, Row(url, time), StrKeyLt);
      key := url;
      assert [HistoryEntry(url, time)][..0] == [];
      FindPut(old(historyUrls), Row(url, time), StrKeyLt, url);
      forall u | u != url ensures Find(historyUrls, u) == Find(old(historyUrls), u) {
        FindPut(old(historyUrls), Row(url, time), StrKeyLt, u);
      }
    }

    /**
     * `updateProjectLegacy(id, name, time)`: the project found by legacy id gets the new name
     * and the given time, or `now` when the time is falsy, and is put back; with no such
     * project it rejects with 'No project found.'.
     */
    method UpdateProjectLegacy(legacyId: int, name: string, time: int, now: int) returns (r: Result<nat>)
      requires Valid()
      modifies this`projects
      ensures Valid()
      ensures old(GetProjectLegacy(legacyId)).None? ==>
        r == Err(NotFound("No project found.")) && projects == old(projects)
      ensures old(GetProjectLegacy(legacyId)).Some? ==>
        var (key, p) := old(GetProjectLegacy(legacyId)).value;
        r == Ok(key) && projects == old(projects)[key := p.(name := name, time := if time != 0 then time else now)]
      ensures r.Ok? ==> GetProjectLegacy(legacyId) == Some((r.value, projects[r.value]))
    {
      var found := GetProjectLegacy(legacyId);
      if found.None? {
        return Err(NotFound("No project found."));
      }
      var (key, p) := found.value;
      projects := projects[key := p.(name := name, time := if time != 0 then time else now)];
      r := Ok(key);
      KeysBelowSame(old(projects), projects, (k: nat, q: Project) => q.oldId == Some(legacyId), nextProjectId);
    }

    /**
     * `deleteProjectLegacy(legacyId)`: the project found by legacy id is deleted and its
     * requests are kept; with no such project it rejects with 'Project not found in legacy list'.
     */
    method DeleteProjectLegacy(legacyId: int) returns (r: Result<()>)
      requires Valid()
      modifies this`projects
      ensures Valid()
      ensures old(GetProjectLegacy(legacyId)).None? ==>
        r == Err(NotFound("Project not found in legacy list")) && projects == old(projects)
      ensures old(GetProjectLegacy(legacyId)).Some? ==>
        r == Ok(()) && projects == old(projects) - {old(GetProjectLegacy(legacyId)).value.0}
    {
      var found := GetProjectLegacy(legacyId);
      if found.None? {
        return Err(NotFound("Project not found in legacy list"));
      }
      projects := projects - {found.value.0};
      r := Ok(());
    }

    /**
     * The transaction of both recursive deletes: the project under `key` and every request it
     * lists are deleted; every other request stays as it was.
     */
    method DeleteWithRequests(key: nat)
      requires Valid() && key in projects
      modifies this`projects, this`requests
      ensures Valid()
      ensures projects == old(projects) - {key}
      ensures forall id :: id in requests <==> id in old(requests) && id !in old(projects)[key].requestIds
      ensures forall id :: id in requests ==> requests[id] == old(requests)[id]
    {
      var ids := projects[key].requestIds;
      projects := projects - {key};
      for i := 0 to |ids|
        invariant projects == old(projects) - {key}
        invariant forall id :: id in requests <==> id in old(requests) && id !in ids[..i]
        invariant forall id :: id in requests ==> requests[id] == old(requests)[id]
      {
        assert ids[..i + 1] == ids[..i] + [ids[i]];
        requests := requests - {ids[i]};
      }
      assert ids[..|ids|] == ids;
    }

    /**
     * `deleteProjectRecursive(projectId)`: the project and the requests it lists are deleted.
     * There is no guard for a missing project: reading its `requestIds` fails before anything
     * is deleted.
     */
    method DeleteProjectRecursive(projectId: nat) returns (r: Result<()>)
      requires Valid()
      modifies this`projects, this`requests
      ensures Valid()
      ensures projectId !in old(projects) ==>
        r == Err(TypeError) && projects == old(projects) && requests == old(requests)
      ensures projectId in old(projects) ==> r == Ok(()) && projects == old(projects) - {projectId}
      ensures projectId in old(projects) ==>
        forall id :: id in requests <==> id in old(requests) && id !in old(projects)[projectId].requestIds
      ensures forall id :: id in requests ==> requests[id] == old(requests)[id]
    {
      if projectId !in projects {
        return Err(TypeError);
      }
      DeleteWithRequests(projectId);
      r := Ok(());
    }

    /**
     * `deleteProjectRecursiveLegacy(legacyId)`: like deleteProjectRecursive for the project
     * found by legacy id; with no such project it rejects with 'No project found.'.
     */
    method DeleteProjectRecursiveLegacy(legacyId: int) returns (r: Result<()>)
      requires Valid()
      modifies this`projects, this`requests
      ensures Valid()
      ensures old(GetProjectLegacy(legacyId)).None? ==>
        r == Err(NotFound("No project found.")) && projects == old(projects) && requests == old(requests)
      ensures old(GetProjectLegacy(legacyId)).Some? ==>
        var key := old(GetProjectLegacy(legacyId)).value.0;
        && r == Ok(()) && projects == old(projects) - {key}
        && forall id :: id in requests <==> id in old(requests) && id !in old(projects)[key].requestIds
      ensures forall id :: id in requests ==> requests[id] == old(requests)[id]
    {
      var found := GetProjectLegacy(legacyId);
      if found.None? {
        return Err(NotFound("No project found."));
      }
      DeleteWithRequests(found.value.0);
      r := Ok(());
    }
  }
}
