/** The browser's API service: how each call becomes a request (base URL,
    method, path, headers, JSON body, the attendance query string) and how
    the reply or a transport failure becomes the value or the error the
    pages see. `fetch`, `response.json()` and `JSON.stringify` are foreign:
    their outcomes are inputs here. */
module ApiClient {
  import opened Common
  import opened Http
  import opened FormEncoding
  import opened Routing
  import opened EmployeeModel
  import opened AttendanceModel

  const DEFAULT_API_BASE_URL: string := "http://localhost:8000/api"

  /** `VITE_API_URL || default`: an unset or empty variable falls back. */
  function ApiBaseUrl(env: Option<string>): (r: string)
    ensures r != ""
    ensures r == DEFAULT_API_BASE_URL || (env.Some? && r == env.value)
    ensures env.Some? && env.value != "" ==> r == env.value
  {
    if env.Some? && env.value != "" then env.value else DEFAULT_API_BASE_URL
  }

  /** What `JSON.stringify` is given: nothing, an employee form or an attendance form. */
  datatype Body = NoBody | EmployeeJson(employee: EmployeeBase) | AttendanceJson(attendance: AttendancePayload)

  /** The options a wrapper passes: no verb means GET, no headers means none added. */
  datatype Options = Options(verb: Option<HttpMethod>, headers: Option<map<string, string>>, body: Body)

  const NO_OPTIONS: Options := Options(None, None, NoBody)

  /** A call of the generic wrapper: an endpoint below the base URL and its options. */
  datatype Call = Call(endpoint: string, options: Options)

  datatype Request = Request(url: string, verb: HttpMethod, headers: map<string, string>, body: Body)

  const JSON_HEADERS: map<string, string> := map["Content-Type" := "application/json"]

  /** The request `fetch` is given. The JSON content type is merged under the
      caller's headers, but the later spread of the options puts the caller's
      headers object back in place of the merged one. */
  function Issue(env: Option<string>, c: Call): (r: Request)
    ensures r.url == ApiBaseUrl(env) + c.endpoint
    ensures r.body == c.options.body
    ensures c.options.verb.None? ==> r.verb == GET
    ensures c.options.headers.None? ==> r.headers == JSON_HEADERS
    ensures c.options.headers.Some? ==> r.headers == c.options.headers.value
  {
    var merged := JSON_HEADERS + (if c.options.headers.Some? then c.options.headers.value else map[]);
    Request(
      ApiBaseUrl(env) + c.endpoint,
      if c.options.verb.Some? then c.options.verb.value else GET,
      if c.options.headers.Some? then c.options.headers.value else merged,
      c.options.body)
  }

  // ---------------------------------------------------------------------
  // Endpoint wrappers
  // ---------------------------------------------------------------------

  function GetEmployees(): Call { Call(JoinPath(["employees"]), NO_OPTIONS) }

  function GetEmployee(employeeId: string): Call { Call(JoinPath(["employees", employeeId]), NO_OPTIONS) }

  function CreateEmployee(employee: EmployeeBase): Call
  {
    Call(JoinPath(["employees"]), Options(Some(POST), None, EmployeeJson(employee)))
  }

  function DeleteEmployee(employeeId: string): Call
  {
    Call(JoinPath(["employees", employeeId]), Options(Some(DELETE), None, NoBody))
  }

  function UpdateEmployee(employeeId: string, employee: EmployeeBase): Call
  {
    Call(JoinPath(["employees", employeeId]), Options(Some(PUT), None, EmployeeJson(employee)))
  }

  function GetEmployeeAttendance(employeeId: string): Call
  {
    Call(JoinPath(["attendance", "employee", employeeId]), NO_OPTIONS)
  }

  function GetAttendanceSummary(employeeId: string): Call
  {
    Call(JoinPath(["attendance", "summary", employeeId]), NO_OPTIONS)
  }

  function MarkAttendance(attendance: AttendancePayload): Call
  {
    Call(JoinPath(["attendance"]), Options(Some(POST), None, AttendanceJson(attendance)))
  }

  function DeleteAttendance(attendanceId: string): Call
  {
    Call(JoinPath(["attendance", attendanceId]), Options(Some(DELETE), None, NoBody))
  }

  function GetStats(): Call { Call(JoinPath(["stats"]), NO_OPTIONS) }

  /** An id that is interpolated into a path and comes out as one segment.
      Fragments and percent-escapes are not followed by the routing model, so
      '#' and '%' are excluded along with the separators. */
  predicate PlainSegment(id: string)
  {
    id != "" && PathSafe(id) && '#' !in id && '%' !in id
  }

  /** The employee wrappers reach the employee routes, with the id they were
      given when it is one path segment. */
  lemma EmployeeWrapperRoutes(id: string, e: EmployeeBase)
    requires PlainSegment(id)
    ensures Resolve(GET, GetEmployees().endpoint) == Some(ListEmployeesRoute)
    ensures Resolve(POST, CreateEmployee(e).endpoint) == Some(CreateEmployeeRoute)
    ensures Resolve(GET, GetEmployee(id).endpoint) == Some(GetEmployeeRoute(id))
    ensures Resolve(DELETE, DeleteEmployee(id).endpoint) == Some(DeleteEmployeeRoute(id))
    ensures Resolve(PUT, UpdateEmployee(id, e).endpoint) == Some(UpdateEmployeeRoute(id))
  {
    ResolvePath(GET, ["employees"]);
    ResolvePath(POST, ["employees"]);
    ResolvePath(GET, ["employees", id]);
    ResolvePath(DELETE, ["employees", id]);
    ResolvePath(PUT, ["employees", id]);
  }

  /** The per-employee attendance wrappers reach their routes likewise. */
  lemma AttendanceWrapperRoutes(id: string)
    requires PlainSegment(id)
    ensures Resolve(GET, GetEmployeeAttendance(id).endpoint) == Some(EmployeeAttendanceRoute(id))
    ensures Resolve(GET, GetAttendanceSummary(id).endpoint) == Some(SummaryRoute(id))
    ensures Resolve(DELETE, DeleteAttendance(id).endpoint) == Some(DeleteAttendanceRoute(id))
  {
    EmployeeAttendanceWrapperRoute(id);
    SummaryWrapperRoute(id);
    DeleteAttendanceWrapperRoute(id);
  }

  lemma EmployeeAttendanceWrapperRoute(id: string)
    requires PlainSegment(id)
    ensures Resolve(GET, GetEmployeeAttendance(id).endpoint) == Some(EmployeeAttendanceRoute(id))
  {
    ResolvePath(GET, ["attendance", "employee", id]);
  }

  lemma SummaryWrapperRoute(id: string)
    requires PlainSegment(id)
    ensures Resolve(GET, GetAttendanceSummary(id).endpoint) == Some(SummaryRoute(id))
  {
    ResolvePath(GET, ["attendance", "summary", id]);
  }

  lemma DeleteAttendanceWrapperRoute(id: string)
    requires PlainSegment(id)
    ensures Resolve(DELETE, DeleteAttendance(id).endpoint) == Some(DeleteAttendanceRoute(id))
  {
    ResolvePath(DELETE, ["attendance", id]);
  }

  /** Marking attendance and reading the statistics reach their routes. */
  lemma CollectionWrapperRoutes(a: AttendancePayload)
    ensures Resolve(POST, MarkAttendance(a).endpoint) == Some(MarkAttendanceRoute)
    ensures Resolve(GET, GetStats().endpoint) == Some(StatsRoute)
  {
    ResolvePath(POST, ["attendance"]);
    ResolvePath(GET, ["stats"]);
  }

  /** Each wrapper issues its fixed method, the body it was given, and the
      JSON content type. */
  lemma WrapperRequests(env: Option<string>, id: string, e: EmployeeBase, a: AttendancePayload)
    ensures Issue(env, CreateEmployee(e)).verb == POST && Issue(env, CreateEmployee(e)).body == EmployeeJson(e)
    ensures Issue(env, UpdateEmployee(id, e)).verb == PUT && Issue(env, UpdateEmployee(id, e)).body == EmployeeJson(e)
    ensures Issue(env, DeleteEmployee(id)).verb == DELETE && Issue(env, DeleteEmployee(id)).body == NoBody
    ensures Issue(env, MarkAttendance(a)).verb == POST && Issue(env, MarkAttendance(a)).body == AttendanceJson(a)
    ensures Issue(env, DeleteAttendance(id)).verb == DELETE
    ensures Issue(env, GetEmployees()).verb == GET && Issue(env, GetEmployee(id)).verb == GET
    ensures Issue(env, GetEmployeeAttendance(id)).verb == GET && Issue(env, GetAttendanceSummary(id)).verb == GET
    ensures Issue(env, GetStats()).verb == GET
    ensures Issue(env, CreateEmployee(e)).headers == JSON_HEADERS && Issue(env, GetEmployee(id)).headers == JSON_HEADERS
  {
  }

  // ---------------------------------------------------------------------
  // The attendance query
  // ---------------------------------------------------------------------

  /** The filters object the attendance page passes. */
  datatype AttendanceFilters = AttendanceFilters(date: Option<string>, employeeId: Option<string>)

  /** JavaScript truthiness of an optional string. */
  predicate Truthy(s: Option<string>)
  {
    s.Some? && s.value != ""
  }

  /** The parameters, in the order they are appended. */
  function FilterParams(f: AttendanceFilters): seq<(string, string)>
  {
    (if Truthy(f.date) then [("date_filter", f.date.value)] else [])
      + (if Truthy(f.employeeId) then [("employee_id", f.employeeId.value)] else [])
  }

  function AttendanceEndpoint(f: AttendanceFilters): string
  {
    ListEndpoint(FilterParams(f))
  }

  lemma SerializeEmpty(ps: seq<(string, string)>)
    ensures Serialize(ps) == "" <==> ps == []
  {
    if ps != [] {
      assert Serialize(ps)[|FormEncode(ps[0].0)|] == '=';
    }
  }

  /** `getAttendance`: the parameters are appended one by one and the query
      is attached only when its text is non-empty. */
  method GetAttendance(filters: AttendanceFilters) returns (c: Call)
    ensures c == Call(AttendanceEndpoint(filters), NO_OPTIONS)
  {
    var params: seq<(string, string)> := [];
    if Truthy(filters.date) {
      params := params + [("date_filter", filters.date.value)];
    }
    if Truthy(filters.employeeId) {
      params := params + [("employee_id", filters.employeeId.value)];
    }
    var queryString := Serialize(params);
    SerializeEmpty(params);
    var path := JoinPath(["attendance"]);
    c := Call(if queryString != "" then path + "?" + queryString else path, NO_OPTIONS);
  }

  /** `date_filter` is sent iff the date is truthy and `employee_id` iff the
      employee id is, the date first. */
  lemma FilterParamsSpec(f: AttendanceFilters)
    ensures (exists i :: 0 <= i < |FilterParams(f)| && FilterParams(f)[i].0 == "date_filter") <==> Truthy(f.date)
    ensures (exists i :: 0 <= i < |FilterParams(f)| && FilterParams(f)[i].0 == "employee_id") <==> Truthy(f.employeeId)
    ensures Truthy(f.date) ==> FilterParams(f)[0] == ("date_filter", f.date.value)
    ensures Truthy(f.employeeId) ==> FilterParams(f)[|FilterParams(f)| - 1] == ("employee_id", f.employeeId.value)
  {
    var ps := FilterParams(f);
    assert forall i :: 0 <= i < |ps| ==> ps[i].0 in {"date_filter", "employee_id"};
    if Truthy(f.date) {
      assert ps[0].0 == "date_filter";
    } else {
      assert forall i :: 0 <= i < |ps| ==> ps[i].0 == "employee_id";
    }
    if Truthy(f.employeeId) {
      assert ps[|ps| - 1].0 == "employee_id";
    } else {
      assert forall i :: 0 <= i < |ps| ==> ps[i].0 == "date_filter";
    }
  }

  /** What the server reads from the parameters is what the page put there. */
  lemma FilterParamsRead(f: AttendanceFilters)
    ensures LastValue(FilterParams(f), "date_filter") == (if Truthy(f.date) then f.date else None)
    ensures LastValue(FilterParams(f), "employee_id") == (if Truthy(f.employeeId) then f.employeeId else None)
    ensures forall i :: 0 <= i < |FilterParams(f)| ==> FilterParams(f)[i].0 != []
  {
    var d, e := ("date_filter", if f.date.Some? then f.date.value else ""), ("employee_id", if f.employeeId.Some? then f.employeeId.value else "");
    var ps := FilterParams(f);
    if Truthy(f.date) && Truthy(f.employeeId) {
      assert ps == [d, e];
      assert ps[..1] == [d];
    } else if Truthy(f.date) {
      assert ps == [d];
      assert ps[..0] == [];
    } else if Truthy(f.employeeId) {
      assert ps == [e];
      assert ps[..0] == [];
    } else {
      assert ps == [];
    }
  }

  /** The list endpoint with some parameters attached. */
  function ListEndpoint(ps: seq<(string, string)>): string
  {
    if ps == [] then JoinPath(["attendance"]) else JoinPath(["attendance"]) + "?" + Serialize(ps)
  }

  /** The endpoint carries a '?' exactly when it carries parameters. */
  lemma ListEndpointMark(ps: seq<(string, string)>)
    ensures '?' in ListEndpoint(ps) <==> ps != []
  {
    JoinPathShape(["attendance"]);
    if ps != [] {
      QueryHasNoQuestionMark(ps);
      assert ListEndpoint(ps)[|JoinPath(["attendance"])|] == '?';
    }
  }

  /** The endpoint carries a '?' exactly when some filter is sent. */
  lemma QueryMarkSpec(f: AttendanceFilters)
    ensures '?' in AttendanceEndpoint(f) <==> Truthy(f.date) || Truthy(f.employeeId)
  {
    ListEndpointMark(FilterParams(f));
  }

  lemma {:induction false} QueryHasNoQuestionMark(ps: seq<(string, string)>)
    ensures '?' !in Serialize(ps)
  {
    if ps != [] {
      FormEncodeNoSeparators(ps[0].0);
      FormEncodeNoSeparators(ps[0].1);
      QueryHasNoQuestionMark(ps[1..]);
    }
  }

  /** The list route reads its two parameters from the serialised pairs. */
  lemma ListEndpointRoute(ps: seq<(string, string)>)
    requires forall i :: 0 <= i < |ps| ==> ps[i].0 != []
    ensures Resolve(GET, ListEndpoint(ps))
         == Some(ListAttendanceRoute(LastValue(ps, "date_filter"), LastValue(ps, "employee_id")))
  {
    if ps == [] {
      BareListRoute();
    } else {
      var q := Serialize(ps);
      assert ListEndpoint(ps) == JoinPath(["attendance"]) + "?" + q;
      QueryRoundTrip(ps);
      ListTargetRoute(ps, q);
    }
  }

  /** Without parameters the endpoint is the bare collection path, which
      reaches the list route with neither filter. */
  lemma BareListRoute()
    ensures Resolve(GET, ListEndpoint([])) == Some(ListAttendanceRoute(None, None))
  {
    ResolvePath(GET, ["attendance"]);
    ListDispatch("", []);
  }

  lemma ListTargetRoute(ps: seq<(string, string)>, q: string)
    requires ParseQuery(q) == Some(ps)
    ensures Resolve(GET, JoinPath(["attendance"]) + "?" + q)
         == Some(ListAttendanceRoute(LastValue(ps, "date_filter"), LastValue(ps, "employee_id")))
  {
    ListDispatch(q, ps);
    ResolvePathQuery(GET, ["attendance"], q);
  }

  lemma ListDispatch(q: string, ps: seq<(string, string)>)
    requires ParseQuery(q) == Some(ps)
    ensures Dispatch(GET, ["attendance"], q)
         == Some(ListAttendanceRoute(LastValue(ps, "date_filter"), LastValue(ps, "employee_id")))
  {
  }

  /** The server reads the filters the page gave: `date_filter` is the date
      text when it is truthy, `employee_id` the employee id when it is truthy,
      and each is absent otherwise. */
  lemma FiltersReachServer(f: AttendanceFilters)
    ensures Resolve(GET, AttendanceEndpoint(f))
         == Some(ListAttendanceRoute(
                   if Truthy(f.date) then f.date else None,
                   if Truthy(f.employeeId) then f.employeeId else None))
  {
    FilterParamsRead(f);
    ListEndpointRoute(FilterParams(f));
  }

  // ---------------------------------------------------------------------
  // fetchAPI
  // ---------------------------------------------------------------------

  /** An error object as JavaScript throws it. */
  datatype JsError = JsError(name: string, message: string)

  const UNABLE_TO_CONNECT: string := "Unable to connect to the server. Please check if the backend is running."
  const HTTP_ERROR_PREFIX: string := "HTTP error! status: "

  /** What came back: the status, what `response.json()` yields (it throws
      when the body is not JSON), and `String(data.detail)` when the parsed
      body's `detail` is truthy. Every route's HTTPException puts a string
      there; a non-string detail is not modelled. */
  datatype Reply<T> = Reply(status: nat, json: Result<T, JsError>, detail: Option<string>)

  /** A reply, or the error `fetch` itself rejected with. */
  datatype Exchange<T> = Replied(reply: Reply<T>) | Failed(error: JsError)

  /** The catch clause: a fetch that could not reach the server becomes the
      fixed message; every other error passes on unchanged. */
  function Rethrow(e: JsError): (r: JsError)
    ensures !(r.name == "TypeError" && r.message == "Failed to fetch")
    ensures !(e.name == "TypeError" && e.message == "Failed to fetch") ==> r == e
  {
    if e.name == "TypeError" && e.message == "Failed to fetch" then JsError("Error", UNABLE_TO_CONNECT) else e
  }

  /** The message of the error thrown for a non-OK status. */
  function HttpErrorMessage(status: nat, detail: Option<string>): string
  {
    if detail.Some? && detail.value != "" then detail.value else HTTP_ERROR_PREFIX + NatToString(status)
  }

  /** `fetchAPI`: what a page awaiting the call receives, `Ok(None)` standing
      for `null`. */
  function FetchApi<T>(x: Exchange<T>): (r: Result<Option<T>, JsError>)
    ensures r.Ok? <==> x.Replied? && (x.reply.status == NO_CONTENT || (IsOk(x.reply.status) && x.reply.json.Ok?))
    ensures (r.Ok? && r.value.None?) <==> x.Replied? && x.reply.status == NO_CONTENT
    ensures r.Err? ==> !(r.error.name == "TypeError" && r.error.message == "Failed to fetch")
  {
    match x
    case Failed(e) => Err(Rethrow(e))
    case Replied(Reply(status, json, detail)) =>
      if status == NO_CONTENT then Ok(None)
      else
        match json
        case Err(e) => Err(Rethrow(e))
        case Ok(data) =>
          if !IsOk(status) then Err(Rethrow(JsError("Error", HttpErrorMessage(status, detail))))
          else Ok(Some(data))
  }

  /** A 204 yields null whatever the body; an OK reply yields its parsed body unchanged. */
  lemma FetchReplies<T>(status: nat, json: Result<T, JsError>, detail: Option<string>)
    ensures status == NO_CONTENT ==> FetchApi(Replied(Reply(status, json, detail))) == Ok(None)
    ensures status != NO_CONTENT && IsOk(status) && json.Ok?
        ==> FetchApi(Replied(Reply(status, json, detail))) == Ok(Some(json.value))
  {
  }

  /** A non-OK reply with a JSON body is an error carrying the `detail`, or
      failing that a message that names the status, which can be read back
      from it. */
  lemma FetchHttpError<T>(status: nat, data: T, detail: Option<string>)
    requires status != NO_CONTENT && !IsOk(status)
    ensures FetchApi(Replied(Reply(status, Ok(data), detail))) == Err(JsError("Error", HttpErrorMessage(status, detail)))
    ensures detail.Some? && detail.value != "" ==> HttpErrorMessage(status, detail) == detail.value
    ensures !(detail.Some? && detail.value != "") ==>
      var m := HttpErrorMessage(status, detail);
      |m| > |HTTP_ERROR_PREFIX| && m[..|HTTP_ERROR_PREFIX|] == HTTP_ERROR_PREFIX
        && ParseDigits(m[|HTTP_ERROR_PREFIX|..], 10) == Some(status)
  {
    assert Rethrow(JsError("Error", HttpErrorMessage(status, detail))) == JsError("Error", HttpErrorMessage(status, detail));
    if !(detail.Some? && detail.value != "") {
      StatusMessageReadsBack(status);
    }
  }

  /** The fallback message starts with the fixed prefix, and the status can
      be read back from the digits after it. */
  lemma StatusMessageReadsBack(status: nat)
    ensures var m := HTTP_ERROR_PREFIX + NatToString(status);
      |m| > |HTTP_ERROR_PREFIX| && m[..|HTTP_ERROR_PREFIX|] == HTTP_ERROR_PREFIX
        && ParseDigits(m[|HTTP_ERROR_PREFIX|..], 10) == Some(status)
  {
    var m := HTTP_ERROR_PREFIX + NatToString(status);
    assert m[|HTTP_ERROR_PREFIX|..] == NatToString(status);
    NatToStringRoundTrip(status);
  }

  /** An error the backend raises reaches the page with its detail as the
      message. */
  lemma BackendErrorReachesPage<T>(e: HttpError, data: T)
    requires 400 <= e.status <= 599 && e.detail != ""
    ensures FetchApi(Replied(Reply(e.status, Ok(data), Some(e.detail)))) == Err(JsError("Error", e.detail))
  {
  }

  /** A fetch that could not reach the server yields the fixed message; any
      other rejection is passed on as it was. */
  lemma FetchFailures<T>(e: JsError)
    ensures e == JsError("TypeError", "Failed to fetch") ==> FetchApi<T>(Failed(e)) == Err(JsError("Error", UNABLE_TO_CONNECT))
    ensures !(e.name == "TypeError" && e.message == "Failed to fetch") ==> FetchApi<T>(Failed(e)) == Err(e)
  {
  }
}
