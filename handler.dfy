/**
 * The request handler `main_handler`: three fixed paths, the parameter
 * checks, the listing prefixes, the page URLs and the JSON envelope. The
 * provider is an oracle `listPrefix` from the options of a call to its
 * reply; the handler reports, beside its response, the calls it made, so
 * that "no listing call" can be stated.
 */
module Handler {
  import opened Outcomes
  import opened Sorting
  import opened Listing

  /** The key prefix under which the bucket keeps its years. */
  const Root := "dazhongruanjian/"

  /** The public site the page URLs point at (it has no bucket-root segment). */
  const SiteBase := "https://www.chinesegamearchive.com/"

  const MissingYear := "缺少年份参数"
  const MissingYearOrIssue := "缺少 year 或 issue 参数"
  const RouteNotFound := "未找到接口路径"

  const JsonHeaders: map<string, string> := map["Content-Type" := "application/json"]

  /** The parts of the function event the handler reads: `path` and `queryString`. */
  datatype Event = Event(path: Option<string>, queryString: Option<map<string, string>>)

  /** What the handler serialises into the body: a list of names or an error record. */
  datatype Data = Names(names: seq<string>) | ErrorBody(error: string)

  datatype Response = Response(isBase64Encoded: bool, statusCode: int, headers: map<string, string>, body: Data)

  /** The response and the `listPrefix` calls made to produce it, in order. */
  datatype Handled = Handled(response: Response, calls: seq<ListCall>)

  /** `json(status, data)`: the envelope every response is built with. */
  function Json(status: int, data: Data): (r: Response)
    ensures !r.isBase64Encoded && r.headers == JsonHeaders
    ensures r.statusCode == status && r.body == data
  {
    Response(false, status, JsonHeaders, data)
  }

  /** `event.path || '/'`: the path when it is truthy, and `/` otherwise; never empty. */
  function RequestPath(event: Event): (r: string)
    ensures r != ""
    ensures Truthy(event.path) ==> r == event.path.value
    ensures !Truthy(event.path) ==> r == "/"
  {
    if event.path.Some? && event.path.value != "" then event.path.value else "/"
  }

  /**
   * `query[key]` where `query` is `event.queryString || {}`: present exactly
   * when the event has a query string holding `key`, and then its value.
   */
  function Param(event: Event, key: string): (r: Option<string>)
    ensures r.Some? <==> event.queryString.Some? && key in event.queryString.value
    ensures r.Some? ==> r.value == event.queryString.value[key]
  {
    var query := event.queryString.GetOr(map[]);
    if key in query then Some(query[key]) else None
  }

  /**
   * JavaScript truthiness of a string-or-undefined value: the falsy values
   * are exactly `undefined` and the empty string.
   */
  predicate Truthy(v: Option<string>): (b: bool)
    ensures !b <==> v == None || v == Some("")
  {
    v.Some? && v.value != ""
  }

  /** What the `try`/`catch` makes of a listing: 200 with its value, or 500 with its message. */
  function Settle(r: Result<seq<string>>): (resp: Response)
    ensures r.Ok? ==> resp == Json(200, Names(r.value))
    ensures r.Failure? ==> resp == Json(500, ErrorBody(r.message))
  {
    match r
    case Ok(names) => Json(200, Names(names))
    case Failure(message) => Json(500, ErrorBody(message))
  }

  /**
   * `baseUrl + name`: the public URL of page `name` of issue `issue` of year
   * `year` starts with the issue's directory on the site and ends with the name.
   */
  function PageUrl(year: string, issue: string, name: string): (r: string)
    ensures SiteBase + year + "/" + issue + "/" <= r
    ensures |r| == |SiteBase + year + "/" + issue + "/"| + |name| && r[|r| - |name|..] == name
  {
    SiteBase + year + "/" + issue + "/" + name
  }

  /** `pages.map(name => baseUrl + name)`: one URL per page, in order. */
  function PageUrls(year: string, issue: string, names: seq<string>): (r: seq<string>)
    ensures |r| == |names|
    ensures forall i :: 0 <= i < |names| ==> r[i] == PageUrl(year, issue, names[i])
  {
    if names == [] then [] else [PageUrl(year, issue, names[0])] + PageUrls(year, issue, names[1..])
  }

  /** The call behind `/api/years`: the folders directly under the root. */
  function YearsCall(): (c: ListCall)
    ensures c.bucket == Bucket && c.prefix == Root && c.delimiter == Some("/")
  {
    FolderCall(Root)
  }

  /** The call behind `/api/issues?year=year`: the folders in the year's folder under the root. */
  function IssuesCall(year: string): (c: ListCall)
    ensures c.bucket == Bucket && c.delimiter == Some("/")
    ensures YearsCall().prefix <= c.prefix && c.prefix[|YearsCall().prefix|..] == year + "/"
  {
    FolderCall(Root + year + "/")
  }

  /** The call behind `/api/pages?year=year&issue=issue`: every key in the issue's folder of that year. */
  function PagesCall(year: string, issue: string): (c: ListCall)
    ensures c.bucket == Bucket && c.delimiter.None?
    ensures IssuesCall(year).prefix <= c.prefix && c.prefix[|IssuesCall(year).prefix|..] == issue + "/"
  {
    ImageCall(Root + year + "/" + issue + "/")
  }

  /**
   * `main_handler(event)`. Every response carries the JSON envelope; at most
   * one listing call is made, and none when the answer is 400 or 404; a 500
   * is exactly a rejected listing and carries its message.
   */
  function Handle(event: Event, listPrefix: ListCall -> Reply, le: (string, string) -> bool): (h: Handled)
    requires TotalPreorder(le)
    ensures !h.response.isBase64Encoded && h.response.headers == JsonHeaders
    ensures h.response.statusCode in {200, 400, 404, 500}
    ensures |h.calls| <= 1
    ensures h.calls == [] <==> h.response.statusCode in {400, 404}
    ensures h.response.statusCode == 500 <==> h.calls != [] && Rejection(listPrefix(h.calls[0])).Some?
    ensures h.response.statusCode == 500 ==>
              h.response.body == ErrorBody(Rejection(listPrefix(h.calls[0])).value)
  {
    var path := RequestPath(event);
    if path == "/api/years" then
      var call := YearsCall();
      Handled(Settle(ListFolders(call.prefix, listPrefix(call))), [call])
    else if path == "/api/issues" then
      var year := Param(event, "year");
      if !Truthy(year) then
        Handled(Json(400, ErrorBody(MissingYear)), [])
      else
        var call := IssuesCall(year.value);
        Handled(Settle(ListFolders(call.prefix, listPrefix(call))), [call])
    else if path == "/api/pages" then
      var year := Param(event, "year");
      var issue := Param(event, "issue");
      if !Truthy(year) || !Truthy(issue) then
        Handled(Json(400, ErrorBody(MissingYearOrIssue)), [])
      else
        var call := PagesCall(year.value, issue.value);
        var pages := ListImages(call.prefix, listPrefix(call), le);
        var urls := if pages.Ok? then Ok(PageUrls(year.value, issue.value, pages.value)) else pages;
        Handled(Settle(urls), [call])
    else
      Handled(Json(404, ErrorBody(RouteNotFound)), [])
  }

  /** `/api/years` lists the folders under `dazhongruanjian/`, once. */
  lemma YearsRoute(event: Event, listPrefix: ListCall -> Reply, le: (string, string) -> bool)
    requires TotalPreorder(le)
    requires RequestPath(event) == "/api/years"
    ensures var h := Handle(event, listPrefix, le);
            && h.calls == [ListCall("dazhongruanjian", "dazhongruanjian/", Some("/"))]
            && h.response == Settle(ListFolders("dazhongruanjian/", listPrefix(h.calls[0])))
  {
  }

  /** `/api/issues` without a truthy year answers 400 and lists nothing. */
  lemma IssuesWithoutYear(event: Event, listPrefix: ListCall -> Reply, le: (string, string) -> bool)
    requires TotalPreorder(le)
    requires RequestPath(event) == "/api/issues" && !Truthy(Param(event, "year"))
    ensures Handle(event, listPrefix, le) == Handled(Json(400, ErrorBody("缺少年份参数")), [])
  {
  }

  /** `/api/issues?year=y` lists the folders under `dazhongruanjian/y/`, once. */
  lemma IssuesRoute(event: Event, listPrefix: ListCall -> Reply, le: (string, string) -> bool)
    requires TotalPreorder(le)
    requires RequestPath(event) == "/api/issues" && Truthy(Param(event, "year"))
    ensures var h := Handle(event, listPrefix, le);
            var prefix := "dazhongruanjian/" + Param(event, "year").value + "/";
            && h.calls == [ListCall("dazhongruanjian", prefix, Some("/"))]
            && h.response == Settle(ListFolders(prefix, listPrefix(h.calls[0])))
  {
  }

  /** `/api/pages` without a truthy year and a truthy issue answers 400 and lists nothing. */
  lemma PagesWithoutParams(event: Event, listPrefix: ListCall -> Reply, le: (string, string) -> bool)
    requires TotalPreorder(le)
    requires RequestPath(event) == "/api/pages"
    requires !Truthy(Param(event, "year")) || !Truthy(Param(event, "issue"))
    ensures Handle(event, listPrefix, le) == Handled(Json(400, ErrorBody("缺少 year 或 issue 参数")), [])
  {
  }

  /**
   * `/api/pages?year=y&issue=i` lists the images under `dazhongruanjian/y/i/`
   * once and answers with one URL per listed image, in the listing's order.
   */
  lemma PagesRoute(event: Event, listPrefix: ListCall -> Reply, le: (string, string) -> bool)
    requires TotalPreorder(le)
    requires RequestPath(event) == "/api/pages"
    requires Truthy(Param(event, "year")) && Truthy(Param(event, "issue"))
    ensures var h := Handle(event, listPrefix, le);
            var year, issue := Param(event, "year").value, Param(event, "issue").value;
            var prefix := "dazhongruanjian/" + year + "/" + issue + "/";
            var pages := ListImages(prefix, listPrefix(ListCall("dazhongruanjian", prefix, None)), le);
            && h.calls == [ListCall("dazhongruanjian", prefix, None)]
            && (pages.Failure? ==> h.response == Json(500, ErrorBody(pages.message)))
            && (pages.Ok? ==>
                  && h.response.statusCode == 200
                  && h.response.body.Names?
                  && |h.response.body.names| == |pages.value|
                  && forall k :: 0 <= k < |pages.value| ==>
                       h.response.body.names[k]
                       == "https://www.chinesegamearchive.com/" + year + "/" + issue + "/" + pages.value[k])
  {
  }

  /** Any other path answers 404 and lists nothing. */
  lemma UnknownRoute(event: Event, listPrefix: ListCall -> Reply, le: (string, string) -> bool)
    requires TotalPreorder(le)
    requires RequestPath(event) !in {"/api/years", "/api/issues", "/api/pages"}
    ensures Handle(event, listPrefix, le) == Handled(Json(404, ErrorBody("未找到接口路径")), [])
  {
  }

  /**
   * A request answered without a listing call is answered the same whatever
   * the provider would have replied.
   */
  lemma NoCallNoDependence(event: Event, p: ListCall -> Reply, q: ListCall -> Reply, le: (string, string) -> bool)
    requires TotalPreorder(le)
    requires Handle(event, p, le).calls == []
    ensures Handle(event, q, le) == Handle(event, p, le)
  {
  }

  /**
   * The response depends on the provider only through its reply to the one
   * call made: two providers that agree on that call give the same answer.
   */
  lemma OnlyTheCallMatters(event: Event, p: ListCall -> Reply, q: ListCall -> Reply, le: (string, string) -> bool)
    requires TotalPreorder(le)
    requires forall c :: c in Handle(event, p, le).calls ==> p(c) == q(c)
    ensures Handle(event, q, le) == Handle(event, p, le)
  {
  }

  /**
   * `GET /api/pages?year=2023&issue=01` on an issue whose keys are
   * `dazhongruanjian/2023/01/` followed by `3.jpg`, `1.jpg`, `2.jpg` answers
   * 200 with NO URLs: the as-written filter rejects every plain `.jpg` name.
   */
  lemma PlainJpgIssueListsNoPages(listPrefix: ListCall -> Reply, le: (string, string) -> bool)
    requires TotalPreorder(le)
    requires var reply := listPrefix(ListCall("dazhongruanjian", "dazhongruanjian/2023/01/", None));
             && reply.err.None? && reply.statusCode == 200
             && KeysUnder("dazhongruanjian/2023/01/", PlainPages, reply.body.itemKeys)
    ensures Handle(Event(Some("/api/pages"), Some(map["year" := "2023", "issue" := "01"])), listPrefix, le).response
            == Json(200, Names([]))
  {
    var event := Event(Some("/api/pages"), Some(map["year" := "2023", "issue" := "01"]));
    var prefix := "dazhongruanjian/2023/01/";
    assert Param(event, "year") == Some("2023") && Param(event, "issue") == Some("01");
    assert "dazhongruanjian/" + "2023" + "/" + "01" + "/" == prefix;
    PagesRoute(event, listPrefix, le);
    AsWrittenListsNoPlainPages(prefix, listPrefix(ListCall("dazhongruanjian", prefix, None)), le);
  }
}
