/** Which backend route a request reaches: the routers mounted under
    `/api/employees` and `/api/attendance` and the `/api/stats` endpoint,
    with the path patterns of their decorators. Targets are written relative
    to the `/api` mount point, as the client's endpoints are. */
module Routing {
  import opened Common
  import opened Http
  import opened FormEncoding

  datatype Route =
    | CreateEmployeeRoute
    | ListEmployeesRoute
    | GetEmployeeRoute(employee_id: string)
    | DeleteEmployeeRoute(employee_id: string)
    | UpdateEmployeeRoute(employee_id: string)
    | MarkAttendanceRoute
    | ListAttendanceRoute(date_param: Option<string>, employee_param: Option<string>)
    | EmployeeAttendanceRoute(employee_id: string)
    | SummaryRoute(employee_id: string)
    | DeleteAttendanceRoute(attendance_id: string)
    | StatsRoute

  /** The path split at every '/'. */
  function Segments(path: string): (r: seq<string>)
    ensures |r| >= 1
    decreases |path|
  {
    var (first, rest) := SplitAt(path, '/');
    if rest.None? then [path] else [first] + Segments(rest.value)
  }

  lemma SegmentsJoin(a: string, b: string)
    requires '/' !in a
    ensures Segments(a + "/" + b) == [a] + Segments(b)
  {
    SplitAtJoin(a, '/', b);
  }

  lemma SegmentsSingle(a: string)
    requires '/' !in a
    ensures Segments(a) == [a]
  {
  }

  /** A path written out from its segments: `JoinPath(["a", "b"]) == "/a/b"`. */
  function JoinPath(segs: seq<string>): string
  {
    if segs == [] then "" else "/" + segs[0] + JoinPath(segs[1..])
  }

  /** A segment that neither splits the path nor starts a query. */
  predicate PathSafe(seg: string)
  {
    '/' !in seg && '?' !in seg
  }

  lemma {:induction false} JoinPathShape(segs: seq<string>)
    requires forall i :: 0 <= i < |segs| ==> PathSafe(segs[i])
    ensures '?' !in JoinPath(segs)
    ensures segs != [] ==> JoinPath(segs)[0] == '/'
  {
    if segs != [] {
      JoinPathShape(segs[1..]);
      assert PathSafe(segs[0]);
    }
  }

  /** The server splits a written-out path back into the segments it was
      written from. */
  lemma {:induction false} JoinPathSegments(segs: seq<string>)
    requires |segs| >= 1
    requires forall i :: 0 <= i < |segs| ==> PathSafe(segs[i])
    ensures Segments(JoinPath(segs)[1..]) == segs
  {
    var head, rest := segs[0], segs[1..];
    assert '/' !in head by { assert PathSafe(segs[0]); }
    assert JoinPath(segs)[1..] == head + JoinPath(rest) by {
      assert JoinPath(segs) == "/" + head + JoinPath(rest);
    }
    if rest == [] {
      assert Segments(head + JoinPath(rest)) == [head] by {
        assert head + JoinPath(rest) == head;
        SegmentsSingle(head);
      }
    } else {
      assert Segments(head + JoinPath(rest)) == [head] + rest by {
        JoinPathSegments(rest);
        JoinPathShape(rest);
        ConsSegments(head, rest);
      }
    }
    assert [head] + rest == segs;
  }

  /** One more segment in front of a path that splits back correctly. */
  lemma ConsSegments(head: string, rest: seq<string>)
    requires '/' !in head && rest != []
    requires JoinPath(rest)[0] == '/' && Segments(JoinPath(rest)[1..]) == rest
    ensures Segments(head + JoinPath(rest)) == [head] + rest
  {
    TailSplit(head, JoinPath(rest));
  }

  lemma TailSplit(head: string, tail: string)
    requires '/' !in head && tail != [] && tail[0] == '/'
    ensures Segments(head + tail) == [head] + Segments(tail[1..])
  {
    assert head + tail == head + "/" + tail[1..];
    SegmentsJoin(head, tail[1..]);
  }

  /** A written-out path reaches the route its segments name. */
  lemma ResolvePath(m: HttpMethod, segs: seq<string>)
    requires |segs| >= 1
    requires forall i :: 0 <= i < |segs| ==> PathSafe(segs[i])
    ensures Resolve(m, JoinPath(segs)) == Dispatch(m, segs, "")
  {
    JoinPathShape(segs);
    JoinPathSegments(segs);
  }

  /** With a query attached, the route also sees the query. */
  lemma ResolvePathQuery(m: HttpMethod, segs: seq<string>, query: string)
    requires |segs| >= 1
    requires forall i :: 0 <= i < |segs| ==> PathSafe(segs[i])
    ensures Resolve(m, JoinPath(segs) + "?" + query) == Dispatch(m, segs, query)
  {
    JoinPathShape(segs);
    JoinPathSegments(segs);
    SplitAtJoin(JoinPath(segs), '?', query);
  }

  /** The pair (name, value) occurs, and no later pair has that name. */
  predicate LastOccurrence(ps: seq<(string, string)>, name: string, value: string)
  {
    exists i :: 0 <= i < |ps| && ps[i] == (name, value) && forall k :: i < k < |ps| ==> ps[k].0 != name
  }

  /** The value of the last pair with that name, as a query parameter of a
      scalar type is read. */
  function LastValue(ps: seq<(string, string)>, name: string): (r: Option<string>)
    ensures r.Some? <==> exists i :: 0 <= i < |ps| && ps[i].0 == name
    ensures r.Some? ==> (name, r.value) in ps
    ensures r.Some? ==> LastOccurrence(ps, name, r.value)
  {
    if ps == [] then None
    else if ps[|ps| - 1].0 == name then
      assert ps[|ps| - 1] == (name, ps[|ps| - 1].1);
      Some(ps[|ps| - 1].1)
    else
      var front := ps[..|ps| - 1];
      var r := LastValue(front, name);
      assert forall i :: 0 <= i < |ps| - 1 ==> front[i] == ps[i];
      if r.Some? then
        var i :| 0 <= i < |front| && front[i] == (name, r.value)
                 && forall k :: i < k < |front| ==> front[k].0 != name;
        assert forall k :: i < k < |ps| ==> ps[k].0 != name;
        r
      else r
  }

  /** The route a method and target reach; None where the server answers
      with a 404 or 405 (or rejects a query string that is not UTF-8). */
  function Resolve(m: HttpMethod, target: string): Option<Route>
  {
    var (path, query) := SplitAt(target, '?');
    if |path| == 0 || path[0] != '/' then None
    else Dispatch(m, Segments(path[1..]), if query.Some? then query.value else "")
  }

  function Dispatch(m: HttpMethod, segs: seq<string>, query: string): Option<Route>
  {
    if |segs| == 1 then DispatchOne(m, segs[0], query)
    else if |segs| == 2 then DispatchTwo(m, segs[0], segs[1])
    else if |segs| == 3 then DispatchThree(m, segs[0], segs[1], segs[2])
    else None
  }

  /** `/employees`, `/attendance` and `/stats`. */
  function DispatchOne(m: HttpMethod, a: string, query: string): Option<Route>
  {
    if a == "employees" then
      if m == GET then Some(ListEmployeesRoute)
      else if m == POST then Some(CreateEmployeeRoute)
      else None
    else if a == "attendance" then
      if m == POST then Some(MarkAttendanceRoute)
      else if m == GET then
        match ParseQuery(query)
        case None => None
        case Some(ps) => Some(ListAttendanceRoute(LastValue(ps, "date_filter"), LastValue(ps, "employee_id")))
      else None
    else if a == "stats" && m == GET then Some(StatsRoute)
    else None
  }

  /** `/employees/{employee_id}` and `/attendance/{attendance_id}`. */
  function DispatchTwo(m: HttpMethod, a: string, id: string): Option<Route>
  {
    if id == "" then None
    else if a == "employees" then
      if m == GET then Some(GetEmployeeRoute(id))
      else if m == DELETE then Some(DeleteEmployeeRoute(id))
      else if m == PUT then Some(UpdateEmployeeRoute(id))
      else None
    else if a == "attendance" && m == DELETE then Some(DeleteAttendanceRoute(id))
    else None
  }

  /** `/attendance/employee/{employee_id}` and `/attendance/summary/{employee_id}`. */
  function DispatchThree(m: HttpMethod, a: string, b: string, id: string): Option<Route>
  {
    if id == "" || a != "attendance" || m != GET then None
    else if b == "employee" then Some(EmployeeAttendanceRoute(id))
    else if b == "summary" then Some(SummaryRoute(id))
    else None
  }
}
