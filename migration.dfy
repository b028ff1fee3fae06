/**
 * The one-time WebSQL to IndexedDB migration, apart from the store itself: the legacy rows,
 * the conversion `_converSqlIdb`, and the bookkeeping of `_storeUpgrade` (one project per
 * legacy project id, export records resolved from positional hints) as functions of the
 * converted requests and the new ids they receive.
 */
module Migration {
  import opened Wrappers
  import opened Har
  import opened Tables

  /** A row of the WebSQL `urls` or `websocket_data` table. */
  datatype UrlRow = UrlRow(url: string, time: int)
  /** A row of the WebSQL `projects` table. */
  datatype ProjectRow = ProjectRow(id: int, name: string, time: int)
  /** A row of the WebSQL `exported` table: a request (`reference_id`) sent to the server. */
  datatype ExportedRow = ExportedRow(id: int, referenceId: int, gaeKey: string)

  /** What `_getSQLdata` reads: every row of the six legacy tables, in table order. */
  datatype SqlData = SqlData(
    urls: seq<UrlRow>, websocketData: seq<UrlRow>, history: seq<SqlRequestRow>,
    projects: seq<ProjectRow>, requestData: seq<SqlRequestRow>, exported: seq<ExportedRow>)

  /** A HistoryUrlObject or HistorySocketObject. */
  datatype HistoryEntry = HistoryEntry(url: string, time: int)

  /**
   * A converted request with the two transient fields `_converSqlIdb` attaches for the load:
   * the legacy project id and the position of its row in `exported`.
   */
  datatype PendingRequest = PendingRequest(request: RequestObject, project: Option<int>, exported: Option<nat>)

  /** What `_converSqlIdb` returns: the `indexeddb` part and the legacy data (`websql`). */
  datatype Converted = Converted(
    requests: seq<PendingRequest>, urlHistory: seq<HistoryEntry>, socketHistory: seq<HistoryEntry>,
    websql: SqlData)

  /** A ProjectObject; its id is the key of the `projectObjects` table. */
  datatype Project = Project(name: string, time: int, requestIds: seq<nat>, oldId: Option<int>)

  /** A ServerExportedObject, keyed by `[serverId+requestId]`. */
  datatype ServerExport = ServerExport(serverId: string, requestId: nat, oldId: int)

  // ---------------------------------------------------------------- conversion

  /** The position of the first `exported` row that references request `id`. */
  function FirstExport(exported: seq<ExportedRow>, id: int): (r: Option<nat>)
    ensures r.None? <==> forall j :: 0 <= j < |exported| ==> exported[j].referenceId != id
    ensures r.Some? ==> r.value < |exported| && exported[r.value].referenceId == id
    ensures r.Some? ==> forall j :: 0 <= j < r.value ==> exported[j].referenceId != id
  {
    if exported == [] then None
    else if exported[0].referenceId == id then Some(0)
    else
      match FirstExport(exported[1..], id)
      case None => None
      case Some(i) => Some(i + 1)
  }

  /** A `request_data` row converted: a saved request with its legacy id and both hints. */
  function SavedRequest(row: SqlRequestRow, exported: seq<ExportedRow>, h: HeaderHelpers, appVer: Option<string>): PendingRequest
  {
    PendingRequest(
      Normalize(row, h, appVer).(kind := Saved, oldId := Some(row.id)),
      if row.project != 0 then Some(row.project) else None,
      FirstExport(exported, row.id))
  }

  /** A `history` row converted: a history request with its legacy id and no hints. */
  function HistoryRequest(row: SqlRequestRow, h: HeaderHelpers, appVer: Option<string>): PendingRequest
  {
    PendingRequest(Normalize(row, h, appVer).(oldId := Some(row.id)), None, None)
  }

  /** Every export hint points into the `exported` rows. */
  predicate HintsInRange(reqs: seq<PendingRequest>, exported: seq<ExportedRow>)
  {
    forall k :: 0 <= k < |reqs| && reqs[k].exported.Some? ==> reqs[k].exported.value < |exported|
  }

  /** The `for` loop with `break` of `_converSqlIdb` that finds a saved row's export hint. */
  method ExportHint(exported: seq<ExportedRow>, id: int) returns (hint: Option<nat>)
    ensures hint == FirstExport(exported, id)
  {
    hint := None;
    var i := 0;
    while i < |exported|
      invariant 0 <= i <= |exported|
      invariant hint.None?
      invariant forall j :: 0 <= j < i ==> exported[j].referenceId != id
    {
      if exported[i].referenceId == id {
        hint := Some(i);
        break;
      }
      i := i + 1;
    }
  }

  /** Every `request_data` row converted, in order. */
  function SavedRequests(rows: seq<SqlRequestRow>, exported: seq<ExportedRow>, h: HeaderHelpers, appVer: Option<string>): seq<PendingRequest>
  {
    seq(|rows|, i requires 0 <= i < |rows| => SavedRequest(rows[i], exported, h, appVer))
  }

  /** Every `history` row converted, in order. */
  function HistoryRequests(rows: seq<SqlRequestRow>, h: HeaderHelpers, appVer: Option<string>): seq<PendingRequest>
  {
    seq(|rows|, i requires 0 <= i < |rows| => HistoryRequest(rows[i], h, appVer))
  }

  /** One history object per `urls` or `websocket_data` row, in order. */
  function HistoryEntries(rows: seq<UrlRow>): seq<HistoryEntry>
  {
    seq(|rows|, i requires 0 <= i < |rows| => HistoryEntry(rows[i].url, rows[i].time))
  }

  /** The `requestData.forEach` of `_converSqlIdb`. */
  method ConvertSaved(rows: seq<SqlRequestRow>, exported: seq<ExportedRow>, h: HeaderHelpers, appVer: Option<string>)
    returns (requests: seq<PendingRequest>)
    ensures requests == SavedRequests(rows, exported, h, appVer)
  {
    requests := [];
    for n := 0 to |rows|
      invariant |requests| == n
      invariant forall i :: 0 <= i < n ==> requests[i] == SavedRequest(rows[i], exported, h, appVer)
    {
      var item := rows[n];
      var obj := Normalize(item, h, appVer).(kind := Saved, oldId := Some(item.id));
      var project := if item.project != 0 then Some(item.project) else None;
      var hint := ExportHint(exported, item.id);
      assert PendingRequest(obj, project, hint) == SavedRequest(rows[n], exported, h, appVer);
      requests := requests + [PendingRequest(obj, project, hint)];
    }
  }

  /** The `history.forEach` of `_converSqlIdb`. */
  method ConvertHistory(rows: seq<SqlRequestRow>, h: HeaderHelpers, appVer: Option<string>)
    returns (requests: seq<PendingRequest>)
    ensures requests == HistoryRequests(rows, h, appVer)
  {
    requests := [];
    for n := 0 to |rows|
      invariant |requests| == n
      invariant forall i :: 0 <= i < n ==> requests[i] == HistoryRequest(rows[i], h, appVer)
    {
      var item := rows[n];
      requests := requests + [PendingRequest(Normalize(item, h, appVer).(oldId := Some(item.id)), None, None)];
    }
  }

  /** The `urls.forEach` and `websocketData.forEach` of `_converSqlIdb`. */
  method ConvertUrls(rows: seq<UrlRow>) returns (entries: seq<HistoryEntry>)
    ensures entries == HistoryEntries(rows)
  {
    entries := [];
    for n := 0 to |rows|
      invariant |entries| == n
      invariant forall i :: 0 <= i < n ==> entries[i] == HistoryEntry(rows[i].url, rows[i].time)
    {
      entries := entries + [HistoryEntry(rows[n].url, rows[n].time)];
    }
  }

  /** The `requests` list of `_converSqlIdb`: the saved rows, then the history rows. */
  function ConvertedRequests(d: SqlData, h: HeaderHelpers, appVer: Option<string>): seq<PendingRequest>
  {
    SavedRequests(d.requestData, d.exported, h, appVer) + HistoryRequests(d.history, h, appVer)
  }

  /** What `_converSqlIdb` returns for the legacy data `d`. */
  function ConvertedData(d: SqlData, h: HeaderHelpers, appVer: Option<string>): Converted
  {
    Converted(ConvertedRequests(d, h, appVer), HistoryEntries(d.urls), HistoryEntries(d.websocketData), d)
  }

  /**
   * The converted requests are the saved rows, in order, each a saved request with its legacy
   * id, then the history rows, in order.
   */
  lemma ConvertedRequestsOrder(d: SqlData, h: HeaderHelpers, appVer: Option<string>)
    ensures |ConvertedRequests(d, h, appVer)| == |d.requestData| + |d.history|
    ensures forall i :: 0 <= i < |d.requestData| ==>
      ConvertedRequests(d, h, appVer)[i] == SavedRequest(d.requestData[i], d.exported, h, appVer)
    ensures forall i :: 0 <= i < |d.history| ==>
      ConvertedRequests(d, h, appVer)[|d.requestData| + i] == HistoryRequest(d.history[i], h, appVer)
  {
    var saved := SavedRequests(d.requestData, d.exported, h, appVer);
    var history := HistoryRequests(d.history, h, appVer);
    assert forall i :: 0 <= i < |d.history| ==> (saved + history)[|saved| + i] == history[i];
  }

  /** Converted requests always carry export hints inside the `exported` rows. */
  lemma ConvertedHintsInRange(d: SqlData, h: HeaderHelpers, appVer: Option<string>)
    ensures HintsInRange(ConvertedRequests(d, h, appVer), d.exported)
  {
    var saved := SavedRequests(d.requestData, d.exported, h, appVer);
    var history := HistoryRequests(d.history, h, appVer);
    var r := saved + history;
    forall k | 0 <= k < |r| ensures r[k].exported.Some? ==> r[k].exported.value < |d.exported| {
      if k >= |saved| {
        assert r[k] == history[k - |saved|];
      }
    }
  }

  /**
   * `_converSqlIdb(data)`: null stays null; otherwise every saved row, in order, then every
   * history row, then one history object per `urls` and per `websocket_data` row.
   */
  method Convert(data: Option<SqlData>, h: HeaderHelpers, appVer: Option<string>) returns (r: Option<Converted>)
    ensures r.None? <==> data.None?
    ensures r.Some? ==> r.value == ConvertedData(data.value, h, appVer)
  {
    if data.None? {
      return None;
    }
    var d := data.value;
    var saved := ConvertSaved(d.requestData, d.exported, h, appVer);
    var history := ConvertHistory(d.history, h, appVer);
    var urlHistory := ConvertUrls(d.urls);
    var socketHistory := ConvertUrls(d.websocketData);
    r := Some(Converted(saved + history, urlHistory, socketHistory, d));
  }

  // ---------------------------------------------------------------- load bookkeeping

  /**
   * The in-flight `projects` dictionary of `_storeUpgrade`, keyed by legacy project id, with
   * its `Object.keys` order: integer keys, which an object lists ascending.
   */
  datatype InFlight = InFlight(keys: seq<int>, entries: map<int, Project>)

  /** The keys are listed ascending, each once, and they are exactly the dictionary's keys. */
  ghost predicate WellKeyed(d: InFlight)
  {
    && (forall i, j :: 0 <= i < j < |d.keys| ==> d.keys[i] < d.keys[j])
    && (forall k :: k in d.keys <==> k in d.entries)
  }

  /** `ks` with `k` inserted at its place in ascending order. */
  function InsertKey(ks: seq<int>, k: int): seq<int>
  {
    if ks == [] then [k]
    else if k < ks[0] then [k] + ks
    else [ks[0]] + InsertKey(ks[1..], k)
  }

  lemma {:induction false} InsertKeyAscending(ks: seq<int>, k: int)
    requires forall i, j :: 0 <= i < j < |ks| ==> ks[i] < ks[j]
    requires k !in ks
    ensures var r := InsertKey(ks, k);
      && (forall i, j :: 0 <= i < j < |r| ==> r[i] < r[j])
      && (forall x :: x in r <==> x == k || x in ks)
  {
    if ks != [] && k > ks[0] {
      InsertKeyAscending(ks[1..], k);
      var rest := InsertKey(ks[1..], k);
      assert forall i :: 0 <= i < |rest| ==> rest[i] in rest;
      forall x ensures x in ks <==> x == ks[0] || x in ks[1..] {
        assert x in ks <==> x == ks[0] || x in ks[1..];
      }
    }
  }

  /** `data.websql.projects.filter((project) => project.id === id)`. */
  function ProjectsWithId(rows: seq<ProjectRow>, id: int): (m: seq<ProjectRow>)
    ensures forall x :: x in m <==> x in rows && x.id == id
    ensures |m| <= |rows|
  {
    if rows == [] then []
    else if rows[0].id == id then [rows[0]] + ProjectsWithId(rows[1..], id)
    else ProjectsWithId(rows[1..], id)
  }

  /**
   * What `insertRequest` does to the dictionary for a request with project hint `hint` that
   * received id `newId`: a truthy hint already in the dictionary gets the id appended; a new
   * one starts a project when exactly one legacy project row has that id.
   */
  function ProjectStep(d: InFlight, hint: Option<int>, rows: seq<ProjectRow>, newId: nat): InFlight
  {
    if hint.None? || hint.value == 0 then d
    else
      var p := hint.value;
      if p in d.entries then d.(entries := d.entries[p := d.entries[p].(requestIds := d.entries[p].requestIds + [newId])])
      else
        var matches := ProjectsWithId(rows, p);
        if |matches| == 1 then
          InFlight(InsertKey(d.keys, p), d.entries[p := Project(matches[0].name, matches[0].time, [newId], Some(matches[0].id))])
        else d
  }

  /** A step keeps the key list in step with the dictionary. */
  lemma ProjectStepWellKeyed(d: InFlight, hint: Option<int>, rows: seq<ProjectRow>, newId: nat)
    requires WellKeyed(d)
    ensures WellKeyed(ProjectStep(d, hint, rows, newId))
  {
    if hint.Some? && hint.value != 0 && hint.value !in d.entries {
      InsertKeyAscending(d.keys, hint.value);
    }
  }

  /** The dictionary after the first `n` requests of `reqs` received the ids `base`, `base + 1`, ... */
  function ProjectsUpTo(reqs: seq<PendingRequest>, rows: seq<ProjectRow>, base: nat, n: nat): InFlight
    requires n <= |reqs|
  {
    if n == 0 then InFlight([], map[])
    else ProjectStep(ProjectsUpTo(reqs, rows, base, n - 1), reqs[n - 1].project, rows, base + n - 1)
  }

  lemma {:induction false} ProjectsUpToWellKeyed(reqs: seq<PendingRequest>, rows: seq<ProjectRow>, base: nat, n: nat)
    requires n <= |reqs|
    ensures WellKeyed(ProjectsUpTo(reqs, rows, base, n))
  {
    if n != 0 {
      ProjectsUpToWellKeyed(reqs, rows, base, n - 1);
      ProjectStepWellKeyed(ProjectsUpTo(reqs, rows, base, n - 1), reqs[n - 1].project, rows, base + n - 1);
    }
  }

  /** The dictionary after all of `reqs` were inserted. */
  function ProjectsAfter(reqs: seq<PendingRequest>, rows: seq<ProjectRow>, base: nat): InFlight
  {
    ProjectsUpTo(reqs, rows, base, |reqs|)
  }

  /** The new ids of the first `n` requests whose project hint is `p`, ascending. */
  function IdsReferencing(reqs: seq<PendingRequest>, p: int, base: nat, n: nat): (ids: seq<nat>)
    requires n <= |reqs|
    ensures forall i, j :: 0 <= i < j < |ids| ==> ids[i] < ids[j]
    ensures forall x :: x in ids <==> base <= x < base + n && reqs[x - base].project == Some(p)
  {
    if n == 0 then []
    else
      var ids := IdsReferencing(reqs, p, base, n - 1);
      assert forall i :: 0 <= i < |ids| ==> ids[i] in ids;
      if reqs[n - 1].project == Some(p) then ids + [base + n - 1] else ids
  }

  /** The entry ProjectsAfterContents promises for legacy id `p` after the first `n` requests. */
  function ExpectedProject(reqs: seq<PendingRequest>, rows: seq<ProjectRow>, base: nat, n: nat, p: int): Option<Project>
    requires n <= |reqs|
  {
    var m := ProjectsWithId(rows, p);
    var ids := IdsReferencing(reqs, p, base, n);
    if p != 0 && |m| == 1 && ids != [] then Some(Project(m[0].name, m[0].time, ids, Some(m[0].id))) else None
  }

  /** The entry of `p` in the dictionary, if any. */
  function Entry(d: InFlight, p: int): Option<Project>
  {
    if p in d.entries then Some(d.entries[p]) else None
  }

  /** ProjectsAfterContents for every prefix of the requests. */
  lemma {:induction false} ProjectsUpToContents(reqs: seq<PendingRequest>, rows: seq<ProjectRow>, base: nat, n: nat, p: int)
    requires n <= |reqs|
    ensures Entry(ProjectsUpTo(reqs, rows, base, n), p) == ExpectedProject(reqs, rows, base, n, p)
  {
    if n != 0 {
      ProjectsUpToContents(reqs, rows, base, n - 1, p);
      ContentsStep(reqs, rows, base, n - 1, p);
    }
  }

  /** One request carries ProjectsUpToContents from `i` requests to `i + 1`. */
  lemma ContentsStep(reqs: seq<PendingRequest>, rows: seq<ProjectRow>, base: nat, i: nat, p: int)
    requires i < |reqs|
    requires Entry(ProjectsUpTo(reqs, rows, base, i), p) == ExpectedProject(reqs, rows, base, i, p)
    ensures Entry(ProjectsUpTo(reqs, rows, base, i + 1), p) == ExpectedProject(reqs, rows, base, i + 1, p)
  {
    var prev := ProjectsUpTo(reqs, rows, base, i);
    var hint := reqs[i].project;
    var ids := IdsReferencing(reqs, p, base, i);
    assert ProjectsUpTo(reqs, rows, base, i + 1) == ProjectStep(prev, hint, rows, base + i);
    if hint == Some(p) {
      assert IdsReferencing(reqs, p, base, i + 1) == ids + [base + i];
      if p != 0 && ids == [] {
        assert ids + [base + i] == [base + i];
      }
    } else {
      assert IdsReferencing(reqs, p, base, i + 1) == ids;
    }
  }

  /**
   * Project deduplication: a truthy legacy project id has an entry in the dictionary exactly
   * when one legacy project row has that id and some request references it; the entry carries
   * that row's name, time and id, and the new ids of all referencing requests in order.
   */
  lemma ProjectsAfterContents(reqs: seq<PendingRequest>, rows: seq<ProjectRow>, base: nat, p: int)
    ensures Entry(ProjectsAfter(reqs, rows, base), p) == ExpectedProject(reqs, rows, base, |reqs|, p)
  {
    ProjectsUpToContents(reqs, rows, base, |reqs|, p);
  }

  /**
   * Two requests that reference the same legacy project, which one legacy row describes, end up
   * in one and the same project.
   */
  lemma SharedProjectMerged(reqs: seq<PendingRequest>, rows: seq<ProjectRow>, base: nat, k1: nat, k2: nat, p: int)
    requires k1 < k2 < |reqs| && p != 0
    requires reqs[k1].project == Some(p) && reqs[k2].project == Some(p)
    requires |ProjectsWithId(rows, p)| == 1
    ensures var d := ProjectsAfter(reqs, rows, base);
      && p in d.entries
      && base + k1 in d.entries[p].requestIds
      && base + k2 in d.entries[p].requestIds
  {
    ProjectsAfterContents(reqs, rows, base, p);
    assert base + k1 in IdsReferencing(reqs, p, base, |reqs|);
    assert base + k2 in IdsReferencing(reqs, p, base, |reqs|);
  }

  /**
   * `if (referencedExported)`: the export record for a request whose hint is a truthy position.
   * Position 0 is falsy, so the first `exported` row is never materialised.
   */
  function ExportStep(hint: Option<nat>, exported: seq<ExportedRow>, newId: nat): (e: seq<ServerExport>)
    requires hint.Some? ==> hint.value < |exported|
    ensures |e| <= 1
    ensures |e| == 1 <==> hint.Some? && hint.value != 0
  {
    if hint.Some? && hint.value != 0 then
      var row := exported[hint.value];
      [ServerExport(row.gaeKey, newId, row.id)]
    else []
  }

  /** The `exported` array after the first `n` requests of `reqs` received the ids `base`, `base + 1`, ... */
  function ExportsUpTo(reqs: seq<PendingRequest>, exported: seq<ExportedRow>, base: nat, n: nat): seq<ServerExport>
    requires n <= |reqs| && HintsInRange(reqs, exported)
  {
    if n == 0 then []
    else ExportsUpTo(reqs, exported, base, n - 1) + ExportStep(reqs[n - 1].exported, exported, base + n - 1)
  }

  /** The `exported` array after all of `reqs` were inserted. */
  function ExportsAfter(reqs: seq<PendingRequest>, exported: seq<ExportedRow>, base: nat): seq<ServerExport>
    requires HintsInRange(reqs, exported)
  {
    ExportsUpTo(reqs, exported, base, |reqs|)
  }

  /** Export records name new ids of the batch, strictly increasing. */
  lemma {:induction false} ExportsUpToOrdered(reqs: seq<PendingRequest>, exported: seq<ExportedRow>, base: nat, n: nat)
    requires n <= |reqs| && HintsInRange(reqs, exported)
    ensures forall j :: 0 <= j < |ExportsUpTo(reqs, exported, base, n)| ==>
      base <= ExportsUpTo(reqs, exported, base, n)[j].requestId < base + n
    ensures forall i, j :: 0 <= i < j < |ExportsUpTo(reqs, exported, base, n)| ==>
      ExportsUpTo(reqs, exported, base, n)[i].requestId < ExportsUpTo(reqs, exported, base, n)[j].requestId
  {
    if n != 0 {
      ExportsUpToOrdered(reqs, exported, base, n - 1);
      var front := ExportsUpTo(reqs, exported, base, n - 1);
      var step := ExportStep(reqs[n - 1].exported, exported, base + n - 1);
      var e := front + step;
      assert forall j :: 0 <= j < |step| ==> step[j].requestId == base + n - 1;
      assert forall j :: 0 <= j < |front| ==> e[j] == front[j];
      assert forall j :: |front| <= j < |e| ==> e[j] == step[j - |front|];
      assert ExportsUpTo(reqs, exported, base, n) == e;
    }
  }

  /** The same for the whole batch. */
  lemma ExportsAfterOrdered(reqs: seq<PendingRequest>, exported: seq<ExportedRow>, base: nat)
    requires HintsInRange(reqs, exported)
    ensures forall j :: 0 <= j < |ExportsAfter(reqs, exported, base)| ==>
      base <= ExportsAfter(reqs, exported, base)[j].requestId < base + |reqs|
    ensures forall i, j :: 0 <= i < j < |ExportsAfter(reqs, exported, base)| ==>
      ExportsAfter(reqs, exported, base)[i].requestId < ExportsAfter(reqs, exported, base)[j].requestId
  {
    ExportsUpToOrdered(reqs, exported, base, |reqs|);
  }

  /** The record the request at position `k` contributes, when its hint is truthy. */
  predicate ExportedBy(reqs: seq<PendingRequest>, exported: seq<ExportedRow>, base: nat, k: nat, e: ServerExport)
    requires k < |reqs| && HintsInRange(reqs, exported)
  {
    && reqs[k].exported.Some? && reqs[k].exported.value != 0
    && e == ServerExport(exported[reqs[k].exported.value].gaeKey, base + k, exported[reqs[k].exported.value].id)
  }

  lemma {:induction false} ExportsUpToContents(reqs: seq<PendingRequest>, exported: seq<ExportedRow>, base: nat, n: nat, e: ServerExport)
    requires n <= |reqs| && HintsInRange(reqs, exported)
    ensures e in ExportsUpTo(reqs, exported, base, n) <==> exists k :: 0 <= k < n && ExportedBy(reqs, exported, base, k, e)
  {
    if n != 0 {
      ExportsUpToContents(reqs, exported, base, n - 1, e);
      var step := ExportStep(reqs[n - 1].exported, exported, base + n - 1);
      assert e in ExportsUpTo(reqs, exported, base, n) <==> e in ExportsUpTo(reqs, exported, base, n - 1) || e in step;
      assert e in step <==> ExportedBy(reqs, exported, base, n - 1, e);
    }
  }

  /**
   * Exports are resolved against the new ids: an export record is in the batch exactly when
   * some request has a truthy hint `i` and the record names `exported[i]`'s server key and
   * legacy id and that request's new id.
   */
  lemma ExportsAfterContents(reqs: seq<PendingRequest>, exported: seq<ExportedRow>, base: nat, e: ServerExport)
    requires HintsInRange(reqs, exported)
    ensures e in ExportsAfter(reqs, exported, base) <==> exists k :: 0 <= k < |reqs| && ExportedBy(reqs, exported, base, k, e)
  {
    ExportsUpToContents(reqs, exported, base, |reqs|, e);
  }

  /** A saved request that matches the first `exported` row loses its export record. */
  lemma FirstExportedRowDropped(reqs: seq<PendingRequest>, exported: seq<ExportedRow>, base: nat, k: nat)
    requires HintsInRange(reqs, exported)
    requires k < |reqs| && reqs[k].exported == Some(0)
    ensures forall e :: e in ExportsAfter(reqs, exported, base) ==> e.requestId != base + k
  {
    forall e | e in ExportsAfter(reqs, exported, base) ensures e.requestId != base + k {
      ExportsAfterContents(reqs, exported, base, e);
    }
  }
}
