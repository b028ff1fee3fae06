/**
 * The HAR-shaped request records of the current schema and the normaliser that builds one
 * from a flat WebSQL row (`createRequestKey` and `_createHARfromSql`).
 */
module Har {
  import opened Wrappers

  datatype Header = Header(name: string, value: string)

  /**
   * The header helpers of the application (`arc.app.headers.toJSON`, `_oldCombine` and
   * `getContentType`), which live outside this file: the model takes them as given functions.
   * `oldCombine` returns the headers that `_oldCombine` leaves behind in its first argument.
   */
  datatype HeaderHelpers = HeaderHelpers(
    toJson: string -> seq<Header>,
    oldCombine: (seq<Header>, string) -> seq<Header>,
    contentType: seq<Header> -> Option<string>)

  /**
   * One flat request row: a WebSQL `history` or `request_data` row, or an imported request.
   * JavaScript's falsy values stand as 0 and "" (`project` 0 = no project; `oldId` 0 and
   * `kind` "" = the field is absent, which only imported items can differ in).
   */
  datatype SqlRequestRow = SqlRequestRow(
    id: int, url: string, httpMethod: string, headers: string, payload: string, encoding: string,
    name: string, time: int, project: int, oldId: int, kind: string)

  datatype PostData = PostData(mimeType: string, text: string)
  datatype HarRequest = HarRequest(
    url: string, httpVersion: string, httpMethod: string, headers: seq<Header>, postData: Option<PostData>)
  datatype HarResponse = HarResponse(status: string, statusText: string)
  datatype Page = Page(id: string, title: string, startedDateTime: int)
  datatype Entry = Entry(startedDateTime: int, request: HarRequest, response: HarResponse, pageref: string)
  datatype Creator = Creator(name: string, version: Option<string>, comment: string)
  datatype Browser = Browser(name: string, version: string)
  datatype HarLog = HarLog(
    comment: string, version: string, creator: Creator, browser: Browser,
    pages: seq<Page>, entries: seq<Entry>)

  /** `type` of a RequestObject. */
  datatype RequestType = History | Saved

  /** A RequestObject as stored in the `requestObject` table (its id is the table key). */
  datatype RequestObject = RequestObject(
    har: HarLog, url: string, httpMethod: string, kind: RequestType, oldId: Option<int>)

  const DefaultMimeType: string := "application/x-www-form-urlencoded"

  /**
   * `createRequestKey(httpMethod, url)`: the HAR page key `method:url`. The JavaScript function
   * inspects `arguments`, so the model takes the argument list and fails unless it has two.
   */
  function CreateRequestKey(args: seq<string>): (r: Result<string>)
    ensures r.Ok? <==> |args| == 2
    ensures r.Err? ==> r.error == ArgumentCount(|args|)
    ensures r.Ok? ==> |r.value| == |args[0]| + 1 + |args[1]| && r.value[|args[0]|] == ':'
    ensures r.Ok? ==> r.value[..|args[0]|] == args[0] && r.value[|args[0]| + 1..] == args[1]
  {
    if |args| != 2 then Err(ArgumentCount(|args|)) else Ok(args[0] + ":" + args[1])
  }

  /** Position of the first ':' in `s`, or |s| when there is none. */
  function ColonIndex(s: string): (i: nat)
    ensures i <= |s|
    ensures forall j :: 0 <= j < i ==> s[j] != ':'
    ensures i < |s| ==> s[i] == ':'
  {
    if s == [] then 0 else if s[0] == ':' then 0 else 1 + ColonIndex(s[1..])
  }

  /** Reads a page key back into method and url: the inverse of CreateRequestKey. */
  function SplitRequestKey(key: string): (string, string)
  {
    var i := ColonIndex(key);
    if i < |key| then (key[..i], key[i + 1..]) else (key, "")
  }

  /** A key made of a method without ':' splits back into that method and url. */
  lemma RequestKeyRoundTrip(httpMethod: string, url: string)
    requires forall j :: 0 <= j < |httpMethod| ==> httpMethod[j] != ':'
    ensures CreateRequestKey([httpMethod, url]).Ok?
    ensures SplitRequestKey(CreateRequestKey([httpMethod, url]).value) == (httpMethod, url)
  {
    var key := CreateRequestKey([httpMethod, url]).value;
    var i := ColonIndex(key);
    assert key[|httpMethod|] == ':';
    assert forall j :: 0 <= j < |httpMethod| ==> key[j] == httpMethod[j];
    assert i == |httpMethod|;
  }

  /** GET and HEAD requests carry no body; the check is exact and case-sensitive. */
  predicate IsPayloadless(httpMethod: string)
  {
    httpMethod == "GET" || httpMethod == "HEAD"
  }

  /** `getContentType(headers) || DefaultMimeType`: a missing or empty content type is falsy. */
  function MimeTypeOr(found: Option<string>): (m: string)
    ensures found.Some? && found.value != "" ==> m == found.value
    ensures found.None? || found.value == "" ==> m == DefaultMimeType
  {
    if found.Some? && found.value != "" then found.value else DefaultMimeType
  }

  /** The headers that `_createHARfromSql` attaches: combined with the encoding unless GET/HEAD. */
  function RequestHeaders(row: SqlRequestRow, h: HeaderHelpers): seq<Header>
  {
    var parsed := h.toJson(row.headers);
    if IsPayloadless(row.httpMethod) then parsed else h.oldCombine(parsed, row.encoding)
  }

  /**
   * `_createHARfromSql(row)`: a history RequestObject around a HAR log with one page, keyed
   * `method:url`, and one entry on it whose response is the placeholder `0 No response`.
   * `appVer` is the application version recorded as the HAR creator's version (unset until
   * the store's ready handler has run).
   */
  function Normalize(row: SqlRequestRow, h: HeaderHelpers, appVer: Option<string>): RequestObject
  {
    var headers := RequestHeaders(row, h);
    var post := if IsPayloadless(row.httpMethod) then None
                else Some(PostData(MimeTypeOr(h.contentType(headers)), row.payload));
    var request := HarRequest(row.url, "HTTP/1.1", row.httpMethod, headers, post);
    var key := CreateRequestKey([row.httpMethod, row.url]).value;
    var page := Page(key, row.name, row.time);
    var entry := Entry(row.time, request, HarResponse("0", "No response"), page.id);
    var log := HarLog(
      "Imported from WebSQL implementation", "1.2",
      Creator("Advanced REST client", appVer, "Created during WebSQL update to IndexedDB"),
      Browser("Chrome", "unknown"), [page], [entry]);
    RequestObject(log, row.url, row.httpMethod, History, None)
  }

  /** The shape of a normalised record: one page keyed `method:url`, one entry on it, the placeholder response. */
  lemma NormalizeShape(row: SqlRequestRow, h: HeaderHelpers, appVer: Option<string>)
    ensures var r := Normalize(row, h, appVer);
      && r.kind == History && r.url == row.url && r.httpMethod == row.httpMethod && r.oldId.None?
      && |r.har.pages| == 1 && |r.har.entries| == 1
      && r.har.pages[0].id == CreateRequestKey([row.httpMethod, row.url]).value
      && r.har.pages[0].title == row.name && r.har.pages[0].startedDateTime == row.time
      && r.har.entries[0].pageref == r.har.pages[0].id
      && r.har.entries[0].response == HarResponse("0", "No response")
      && r.har.entries[0].request.url == row.url && r.har.entries[0].request.httpMethod == row.httpMethod
      && r.har.entries[0].request.headers == RequestHeaders(row, h)
      && (r.har.entries[0].request.postData.None? <==> IsPayloadless(row.httpMethod))
      && (!IsPayloadless(row.httpMethod) ==>
        r.har.entries[0].request.postData.value ==
          PostData(MimeTypeOr(h.contentType(RequestHeaders(row, h))), row.payload))
  {
  }

  /**
   * The same row under GET and under POST: the GET record drops the payload, the POST record
   * carries it with the merged content type or the form-urlencoded default.
   */
  lemma {:induction false} BodyOnlyForPayloadMethods(row: SqlRequestRow, h: HeaderHelpers, appVer: Option<string>)
    ensures Normalize(row.(httpMethod := "GET"), h, appVer).har.entries[0].request.postData.None?
    ensures Normalize(row.(httpMethod := "HEAD"), h, appVer).har.entries[0].request.postData.None?
    ensures var post := Normalize(row.(httpMethod := "POST"), h, appVer).har.entries[0].request.postData;
      && post.Some? && post.value.text == row.payload
      && (h.contentType(h.oldCombine(h.toJson(row.headers), row.encoding)).None? ==> post.value.mimeType == DefaultMimeType)
  {
  }
}
