/** The attendance routes under `/api/attendance`: mark, list with filters,
    list one employee's records, summarise one employee, delete one record. */
module AttendanceRoutes {
  import opened Common
  import opened IsoDate
  import opened ObjectIds
  import opened Http
  import opened AttendanceModel
  import opened Database
  import opened Ordering

  /** `attendance_helper`: a stored record as a response, with the name the
      route looked up. */
  function AttendanceHelper(doc: AttendanceDoc, employee_name: Option<string>): AttendanceResponse
  {
    AttendanceResponse(OidText(doc.oid), doc.employee_id, doc.date, doc.status, doc.marked_at, employee_name)
  }

  /** The sort key of `.sort("date", -1)`: for valid dates the ISO texts sort
      as DateKey does (IsoDate.IsoOrderIsDateOrder). */
  function Day(a: AttendanceDoc): int { DateKey(a.date) }

  function EmployeeNotFound(id: string): string { "Employee with ID '" + id + "' not found" }
  function AlreadyMarked(id: string, d: Date): string
  {
    "Attendance already marked for employee '" + id + "' on " + IsoFormat(d)
  }
  const INVALID_ID: string := "Invalid attendance ID format"
  const RECORD_NOT_FOUND: string := "Attendance record not found"

  // ---------------------------------------------------------------------
  // POST /api/attendance
  // ---------------------------------------------------------------------

  /** 404 for an unknown employee, 409 when that employee already has a
      record on that day; otherwise the record is stored, marked at `now`
      with the new document id `newOid`, and returned with the employee's name. */
  method MarkAttendance(db: Db, attendance: AttendanceCreate, newOid: ObjectId, now: int)
    returns (r: Result<AttendanceResponse, HttpError>)
    requires db.Valid()
    requires forall k :: 0 <= k < |db.attendance| ==> db.attendance[k].oid != newOid
    modifies db
    ensures db.Valid() && db.employees == old(db.employees)
    ensures !HasEmployee(old(db.employees), attendance.employee_id)
      ==> r == Err(HttpError(NOT_FOUND, EmployeeNotFound(attendance.employee_id)))
    ensures HasEmployee(old(db.employees), attendance.employee_id)
            && FindRecord(old(db.attendance), OnDay(attendance.employee_id, attendance.date)).Some?
      ==> r == Err(HttpError(CONFLICT, AlreadyMarked(attendance.employee_id, attendance.date)))
    ensures r.Ok? <==> (HasEmployee(old(db.employees), attendance.employee_id)
                        && FindRecord(old(db.attendance), OnDay(attendance.employee_id, attendance.date)).None?)
    ensures r.Err? ==> db.attendance == old(db.attendance)
    ensures r.Ok? ==> (db.attendance == old(db.attendance)
      + [AttendanceDoc(newOid, attendance.employee_id, attendance.date, attendance.status, now)])
    ensures r.Ok? ==> FindEmployee(db.employees, ById(attendance.employee_id)).Some?
    ensures r.Ok? ==> r.value == AttendanceHelper(db.attendance[|db.attendance| - 1],
      Some(db.employees[FindEmployee(db.employees, ById(attendance.employee_id)).value].full_name))
  {
    var employee := FindEmployee(db.employees, ById(attendance.employee_id));
    FindByIdIff(db.employees, attendance.employee_id);
    if employee.None? {
      return Err(HttpError(NOT_FOUND, EmployeeNotFound(attendance.employee_id)));
    }
    var existing := FindRecord(db.attendance, OnDay(attendance.employee_id, attendance.date));
    if existing.Some? {
      return Err(HttpError(CONFLICT, AlreadyMarked(attendance.employee_id, attendance.date)));
    }
    var doc := AttendanceDoc(newOid, attendance.employee_id, attendance.date, attendance.status, now);
    assert forall k :: 0 <= k < |db.attendance| ==> !Matches(OnDay(attendance.employee_id, attendance.date), db.attendance[k]);
    InsertRecordKeeps(db.employees, db.attendance, doc);
    db.attendance := db.attendance + [doc];
    RecordByOid(db.attendance, |db.attendance| - 1);
    var created := FindRecord(db.attendance, ByOid(newOid));
    r := Ok(AttendanceHelper(db.attendance[created.value], Some(db.employees[employee.value].full_name)));
  }

  /** With distinct document ids, `find_one` by a record's id finds that record. */
  lemma RecordByOid(rs: seq<AttendanceDoc>, k: nat)
    requires RecordsApart(rs) && k < |rs|
    ensures FindRecord(rs, ByOid(rs[k].oid)) == Some(k)
  {
  }

  // ---------------------------------------------------------------------
  // GET /api/attendance
  // ---------------------------------------------------------------------

  /** The query the list route builds: a date filter when one is given, an
      employee filter only when the id is given and non-empty (an empty
      query parameter is falsy). */
  function ListQuery(date_filter: Option<Date>, employee_id: Option<string>): Query
  {
    Query(None, if employee_id.Some? && employee_id.value != "" then employee_id else None, date_filter, None)
  }

  /** The two filters combine: a record is listed when it is on the date (if
      one is given) and of the employee (if a non-empty id is given). */
  lemma ListQueryMatches(date_filter: Option<Date>, employee_id: Option<string>, a: AttendanceDoc)
    ensures Matches(ListQuery(date_filter, employee_id), a)
        <==> ((date_filter.Some? ==> a.date == date_filter.value)
              && (employee_id.Some? && employee_id.value != "" ==> a.employee_id == employee_id.value))
  {
  }

  /** `employees_map.get(id, "Unknown")`. */
  function NameOrUnknown(names: map<string, string>, id: string): string
  {
    if id in names then names[id] else "Unknown"
  }

  /** The list route's answer: the matching records, latest date first, each
      with the name the dictionary gives its employee. */
  function Report(es: seq<EmployeeDoc>, rs: seq<AttendanceDoc>, q: Query): seq<AttendanceResponse>
  {
    Annotated(SortDesc(Select(rs, q), Day), NameMap(es))
  }

  /** Each record of the cursor with the name the dictionary gives it. */
  function Annotated(cursor: seq<AttendanceDoc>, names: map<string, string>): seq<AttendanceResponse>
  {
    seq(|cursor|, i requires 0 <= i < |cursor| =>
      AttendanceHelper(cursor[i], Some(NameOrUnknown(names, cursor[i].employee_id))))
  }

  /** The report has one entry per matching record, latest date first. */
  lemma ReportSorted(es: seq<EmployeeDoc>, rs: seq<AttendanceDoc>, q: Query)
    ensures |Report(es, rs, q)| == CountDocuments(rs, q)
    ensures forall i, j :: 0 <= i < j < |Report(es, rs, q)| ==>
      DateKey(Report(es, rs, q)[i].date) >= DateKey(Report(es, rs, q)[j].date)
  {
    var cursor := SortDesc(Select(rs, q), Day);
    var l := Report(es, rs, q);
    SortDescElements(Select(rs, q), Day);
    forall i, j | 0 <= i < j < |l| ensures DateKey(l[i].date) >= DateKey(l[j].date) {
      assert Day(cursor[i]) >= Day(cursor[j]);
    }
  }

  /** Every entry comes from a stored record that matches the query, and
      while ids are unique and every record has its employee, it carries
      that employee's current name. */
  lemma ReportSound(es: seq<EmployeeDoc>, rs: seq<AttendanceDoc>, q: Query)
    requires UniqueEmployeeIds(es) && RecordsHaveEmployees(es, rs)
    ensures forall x :: x in Report(es, rs, q) ==>
      exists a, k :: (a in rs && Matches(q, a) && 0 <= k < |es| && es[k].employee_id == a.employee_id
                      && x == AttendanceHelper(a, Some(es[k].full_name)))
  {
    var l := Report(es, rs, q);
    forall x | x in l
      ensures exists a, k :: (a in rs && Matches(q, a) && 0 <= k < |es| && es[k].employee_id == a.employee_id
                              && x == AttendanceHelper(a, Some(es[k].full_name)))
    {
      var i :| 0 <= i < |l| && l[i] == x;
      var a, k := ReportEntry(es, rs, q, i);
    }
  }

  /** The record and the employee behind the report's entry `i`. */
  lemma ReportEntry(es: seq<EmployeeDoc>, rs: seq<AttendanceDoc>, q: Query, i: nat) returns (a: AttendanceDoc, k: nat)
    requires UniqueEmployeeIds(es) && RecordsHaveEmployees(es, rs)
    requires i < |Report(es, rs, q)|
    ensures a in rs && Matches(q, a) && k < |es| && es[k].employee_id == a.employee_id
    ensures Report(es, rs, q)[i] == AttendanceHelper(a, Some(es[k].full_name))
  {
    var names := NameMap(es);
    var cursor := SortDesc(Select(rs, q), Day);
    assert Report(es, rs, q) == Annotated(cursor, names);
    SortDescElements(Select(rs, q), Day);
    a := cursor[i];
    assert a in Select(rs, q);
    assert HasEmployee(es, a.employee_id);
    k :| 0 <= k < |es| && es[k].employee_id == a.employee_id;
    NameMapLookup(es);
    assert names[a.employee_id] == es[k].full_name;
  }

  /** Every stored record that matches the query is in the report. */
  lemma ReportComplete(es: seq<EmployeeDoc>, rs: seq<AttendanceDoc>, q: Query)
    ensures forall a :: a in rs && Matches(q, a) ==>
      AttendanceHelper(a, Some(NameOrUnknown(NameMap(es), a.employee_id))) in Report(es, rs, q)
  {
    var names := NameMap(es);
    var cursor := SortDesc(Select(rs, q), Day);
    var l := Annotated(cursor, names);
    assert Report(es, rs, q) == l;
    SortDescElements(Select(rs, q), Day);
    forall a | a in rs && Matches(q, a)
      ensures AttendanceHelper(a, Some(NameOrUnknown(NameMap(es), a.employee_id))) in l
    {
      assert a in Select(rs, q);
      var i :| 0 <= i < |cursor| && cursor[i] == a;
      assert l[i] == AttendanceHelper(a, Some(NameOrUnknown(NameMap(es), a.employee_id)));
    }
  }

  /** GET /api/attendance?date_filter=&employee_id=: the dictionary of names
      is built from every employee, then the matching records are listed
      latest date first (ReportSorted, ReportSound, ReportComplete). */
  method GetAllAttendance(db: Db, date_filter: Option<Date>, employee_id: Option<string>)
    returns (r: AttendanceListResponse)
    ensures r.records == Report(db.employees, db.attendance, ListQuery(date_filter, employee_id))
    ensures r.total == |r.records|
  {
    var query := AllRecords;
    if date_filter.Some? {
      query := query.(date := date_filter);
    }
    if employee_id.Some? && employee_id.value != "" {
      query := query.(employee_id := employee_id);
    }

    var employeesMap := NamesOf(db.employees);
    var cursor := SortDesc(Select(db.attendance, query), Day);
    var records := Annotate(cursor, employeesMap);
    assert query == ListQuery(date_filter, employee_id);
    r := AttendanceListResponse(records, |records|);
  }

  /** The loop that builds `employees_map` from every employee. */
  method NamesOf(es: seq<EmployeeDoc>) returns (names: map<string, string>)
    ensures names == NameMap(es)
  {
    names := map[];
    var i := 0;
    while i < |es|
      invariant 0 <= i <= |es|
      invariant names == NameMap(es[..i])
    {
      assert es[..i + 1][..i] == es[..i];
      names := names[es[i].employee_id := es[i].full_name];
      i := i + 1;
    }
    assert es[..i] == es;
  }

  /** The loop over the cursor that attaches each record's employee name. */
  method Annotate(cursor: seq<AttendanceDoc>, names: map<string, string>) returns (records: seq<AttendanceResponse>)
    ensures records == Annotated(cursor, names)
  {
    records := [];
    var j := 0;
    while j < |cursor|
      invariant 0 <= j <= |cursor| && |records| == j
      invariant forall k :: 0 <= k < j ==> records[k] == Annotated(cursor, names)[k]
    {
      var name := if cursor[j].employee_id in names then names[cursor[j].employee_id] else "Unknown";
      records := records + [AttendanceHelper(cursor[j], Some(name))];
      j := j + 1;
    }
  }

  // ---------------------------------------------------------------------
  // GET /api/attendance/employee/{employee_id}
  // ---------------------------------------------------------------------

  /** One employee's records, latest date first, each with the given name. */
  function EmployeeReport(rs: seq<AttendanceDoc>, id: string, name: string): seq<AttendanceResponse>
  {
    var cursor := SortDesc(Select(rs, OfEmployee(id)), Day);
    seq(|cursor|, i requires 0 <= i < |cursor| => AttendanceHelper(cursor[i], Some(name)))
  }

  /** For an existing employee, the per-employee route lists exactly what
      the list route lists when filtered by that employee. */
  lemma EmployeeReportAgrees(es: seq<EmployeeDoc>, rs: seq<AttendanceDoc>, k: nat)
    requires StoreInvariant(es, rs) && k < |es|
    ensures EmployeeReport(rs, es[k].employee_id, es[k].full_name)
         == Report(es, rs, ListQuery(None, Some(es[k].employee_id)))
  {
    var id := es[k].employee_id;
    var names := NameMap(es);
    assert ListQuery(None, Some(id)) == OfEmployee(id);
    var cursor := SortDesc(Select(rs, OfEmployee(id)), Day);
    var l := Annotated(cursor, names);
    var e := EmployeeReport(rs, id, es[k].full_name);
    assert Report(es, rs, OfEmployee(id)) == l;
    SortDescElements(Select(rs, OfEmployee(id)), Day);
    NameMapLookup(es);
    assert NameOrUnknown(names, id) == es[k].full_name;
    assert |l| == |cursor| == |e|;
    forall i | 0 <= i < |cursor| ensures l[i] == e[i] {
      assert cursor[i] in Select(rs, OfEmployee(id));
      assert cursor[i].employee_id == id;
    }
    assert l == e;
  }

  /** 404 for an unknown employee; otherwise that employee's records, latest
      date first, each with the employee's name. */
  method GetEmployeeAttendance(db: Db, employee_id: string) returns (r: Result<AttendanceListResponse, HttpError>)
    ensures r.Ok? <==> HasEmployee(db.employees, employee_id)
    ensures r.Err? ==> r.error == HttpError(NOT_FOUND, EmployeeNotFound(employee_id))
    ensures r.Ok? ==> FindEmployee(db.employees, ById(employee_id)).Some?
    ensures r.Ok? ==> r.value.records == EmployeeReport(db.attendance, employee_id,
      db.employees[FindEmployee(db.employees, ById(employee_id)).value].full_name)
    ensures r.Ok? ==> r.value.total == |r.value.records|
  {
    var employee := FindEmployee(db.employees, ById(employee_id));
    FindByIdIff(db.employees, employee_id);
    if employee.None? {
      return Err(HttpError(NOT_FOUND, EmployeeNotFound(employee_id)));
    }
    var name := db.employees[employee.value].full_name;
    var cursor := SortDesc(Select(db.attendance, OfEmployee(employee_id)), Day);
    var records: seq<AttendanceResponse> := [];
    var j := 0;
    while j < |cursor|
      invariant 0 <= j <= |cursor|
      invariant records == EmployeeReport(db.attendance, employee_id, name)[..j]
    {
      records := records + [AttendanceHelper(cursor[j], Some(name))];
      j := j + 1;
    }
    r := Ok(AttendanceListResponse(records, |records|));
  }

  // ---------------------------------------------------------------------
  // GET /api/attendance/summary/{employee_id}
  // ---------------------------------------------------------------------

  /** 404 for an unknown employee; otherwise the employee's name, the
      number of records, of Present records, of the rest (which are exactly
      the Absent records), and the Present share in percent (0 when there
      are no records). */
  method GetAttendanceSummary(db: Db, employee_id: string) returns (r: Result<AttendanceSummary, HttpError>)
    ensures r.Ok? <==> HasEmployee(db.employees, employee_id)
    ensures r.Err? ==> r.error == HttpError(NOT_FOUND, EmployeeNotFound(employee_id))
    ensures r.Ok? ==> r.value.employee_id == employee_id
    ensures r.Ok? ==> r.value.employee_name == db.employees[FindEmployee(db.employees, ById(employee_id)).value].full_name
    ensures r.Ok? ==> r.value.total_days == CountDocuments(db.attendance, OfEmployee(employee_id))
    ensures r.Ok? ==> r.value.present_days == CountDocuments(db.attendance, OfEmployee(employee_id).(status := Some(Present)))
    ensures r.Ok? ==> r.value.absent_days == r.value.total_days - r.value.present_days
    ensures r.Ok? ==> r.value.absent_days == CountDocuments(db.attendance, OfEmployee(employee_id).(status := Some(Absent)))
    ensures r.Ok? && r.value.total_days > 0 ==>
      r.value.attendance_percentage == r.value.present_days as real / r.value.total_days as real * 100.0
    ensures r.Ok? ==> 0 <= r.value.present_days <= r.value.total_days
    ensures r.Ok? ==> 0.0 <= r.value.attendance_percentage <= 100.0
    ensures r.Ok? ==> (r.value.attendance_percentage == 100.0 <==> r.value.total_days > 0 && r.value.absent_days == 0)
    ensures r.Ok? ==> (r.value.total_days == 0 ==> r.value.attendance_percentage == 0.0)
  {
    var employee := FindEmployee(db.employees, ById(employee_id));
    FindByIdIff(db.employees, employee_id);
    if employee.None? {
      return Err(HttpError(NOT_FOUND, EmployeeNotFound(employee_id)));
    }
    var total := CountDocuments(db.attendance, OfEmployee(employee_id));
    var present := CountDocuments(db.attendance, OfEmployee(employee_id).(status := Some(Present)));
    CountByStatus(db.attendance, OfEmployee(employee_id));
    var absent := total - present;
    var percentage: real := if total > 0 then present as real / total as real * 100.0 else 0.0;
    if total > 0 {
      PercentageBounds(present, total);
    }
    r := Ok(AttendanceSummary(employee_id, db.employees[employee.value].full_name, total, present, absent, percentage));
  }

  /** The share p/t in percent lies in [0, 100] and is 100 exactly when p = t. */
  lemma PercentageBounds(p: nat, t: nat)
    requires 0 < t && p <= t
    ensures 0.0 <= p as real / t as real * 100.0 <= 100.0
    ensures p as real / t as real * 100.0 == 100.0 <==> p == t
  {
    var pr, tr := p as real, t as real;
    var q := pr / tr;
    assert q * tr == pr;
    assert 0.0 <= q <= 1.0;
    assert q == 1.0 <==> p == t by {
      if p == t { assert (q - 1.0) * tr == 0.0; }
    }
  }

  // ---------------------------------------------------------------------
  // DELETE /api/attendance/{attendance_id}
  // ---------------------------------------------------------------------

  /** 400 for a text that is not an ObjectId, 404 when no record has that id;
      otherwise that record, and only it, is removed. */
  method DeleteAttendance(db: Db, attendance_id: string) returns (r: Result<(), HttpError>)
    requires db.Valid()
    modifies db
    ensures db.Valid() && db.employees == old(db.employees)
    ensures ParseObjectId(attendance_id).None? ==> r == Err(HttpError(BAD_REQUEST, INVALID_ID))
    ensures ParseObjectId(attendance_id).Some? && FindRecord(old(db.attendance), ByOid(ParseObjectId(attendance_id).value)).None?
      ==> r == Err(HttpError(NOT_FOUND, RECORD_NOT_FOUND))
    ensures r.Err? ==> db.attendance == old(db.attendance)
    ensures r.Ok? <==> (ParseObjectId(attendance_id).Some?
      && FindRecord(old(db.attendance), ByOid(ParseObjectId(attendance_id).value)).Some?)
    ensures r.Ok? ==> (db.attendance
      == RemoveAt(old(db.attendance), FindRecord(old(db.attendance), ByOid(ParseObjectId(attendance_id).value)).value))
    ensures forall a :: a in old(db.attendance) && attendance_id == OidText(a.oid) ==> r.Ok? && a !in db.attendance
  {
    var objId := ParseObjectId(attendance_id);
    if objId.None? {
      NoRecordHasText(db.attendance, attendance_id);
      return Err(HttpError(BAD_REQUEST, INVALID_ID));
    }
    var found := FindRecord(db.attendance, ByOid(objId.value));
    if found.None? {
      NoRecordHasText(db.attendance, attendance_id);
      return Err(HttpError(NOT_FOUND, RECORD_NOT_FOUND));
    }
    var k := found.value;
    DeleteRecordKeeps(db.employees, db.attendance, k);
    ghost var before := db.attendance;
    db.attendance := RemoveAt(db.attendance, k);
    DeletedRecordGone(before, k, attendance_id);
    r := Ok(());
  }

  /** When the text does not lead to a record, it is not the id text of any record. */
  lemma NoRecordHasText(rs: seq<AttendanceDoc>, text: string)
    requires ParseObjectId(text).None? || FindRecord(rs, ByOid(ParseObjectId(text).value)).None?
    ensures forall a :: a in rs ==> text != OidText(a.oid)
  {
    forall a | a in rs ensures text != OidText(a.oid) {
      ObjectIdRoundTrip(a.oid);
    }
  }

  /** Removing the record found by a record's id text removes that record. */
  lemma DeletedRecordGone(rs: seq<AttendanceDoc>, k: nat, text: string)
    requires RecordsApart(rs) && k < |rs|
    requires ParseObjectId(text).Some? && FindRecord(rs, ByOid(ParseObjectId(text).value)) == Some(k)
    ensures forall a :: a in rs && text == OidText(a.oid) ==> a !in RemoveAt(rs, k)
  {
    forall a | a in rs && text == OidText(a.oid) ensures a !in RemoveAt(rs, k) {
      ObjectIdRoundTrip(a.oid);
      assert rs[k].oid == a.oid;
      var rest := RemoveAt(rs, k);
      forall i | 0 <= i < |rest| ensures rest[i] != a {
        var j := if i < k then i else i + 1;
        assert Apart(rs[if j < k then j else k], rs[if j < k then k else j]);
      }
    }
  }
}
