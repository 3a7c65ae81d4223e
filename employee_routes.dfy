/** The employee routes under `/api/employees`: create, list, fetch one,
    delete (with its attendance), and update (renaming its attendance). */
module EmployeeRoutes {
  import opened Common
  import opened ObjectIds
  import opened Http
  import opened EmployeeModel
  import opened Database
  import opened Ordering

  /** `employee_helper`: a stored document as a response, its four client
      fields and creation time carried over and its id given as text that
      reads back to the document id. */
  function EmployeeHelper(doc: EmployeeDoc): (r: EmployeeResponse)
    ensures EmployeeBase(r.employee_id, r.full_name, r.email, r.department) == doc.Base()
    ensures r.created_at == doc.created_at
    ensures ParseObjectId(r.id) == Some(doc.oid)
  {
    ObjectIdRoundTrip(doc.oid);
    EmployeeResponse(OidText(doc.oid), doc.employee_id, doc.full_name, doc.email, doc.department, doc.created_at)
  }

  function CreatedAt(e: EmployeeDoc): int { e.created_at }

  function IdExistsDetail(id: string): string { "Employee with ID '" + id + "' already exists" }
  function EmailExistsDetail(email: string): string { "Employee with email '" + email + "' already exists" }
  function NotFoundDetail(id: string): string { "Employee with ID '" + id + "' not found" }
  function IdTakenDetail(id: string): string { "Employee ID '" + id + "' is already taken" }
  function EmailTakenDetail(email: string): string { "Email '" + email + "' is already taken by another employee" }

  /** POST /api/employees: a duplicate id is refused first, then a duplicate
      email; otherwise the employee is stored with the creation time `now`
      and the new document id `newOid`. */
  method CreateEmployee(db: Db, employee: EmployeeCreate, newOid: ObjectId, now: int)
    returns (r: Result<EmployeeResponse, HttpError>)
    requires db.Valid()
    requires forall k :: 0 <= k < |db.employees| ==> db.employees[k].oid != newOid
    modifies db
    ensures db.Valid() && db.attendance == old(db.attendance)
    ensures HasEmployee(old(db.employees), employee.employee_id)
      ==> r == Err(HttpError(CONFLICT, IdExistsDetail(employee.employee_id)))
    ensures !HasEmployee(old(db.employees), employee.employee_id) && EmailTaken(old(db.employees), employee.email)
      ==> r == Err(HttpError(CONFLICT, EmailExistsDetail(employee.email)))
    ensures r.Ok? <==> !HasEmployee(old(db.employees), employee.employee_id) && !EmailTaken(old(db.employees), employee.email)
    ensures r.Err? ==> db.employees == old(db.employees)
    ensures r.Ok? ==> (db.employees == old(db.employees)
      + [EmployeeDoc(newOid, employee.employee_id, employee.full_name, employee.email, employee.department, now)])
    ensures r.Ok? ==> r.value == EmployeeHelper(EmployeeDoc(newOid, employee.employee_id, employee.full_name,
                                                          employee.email, employee.department, now))
  {
    var existingById := FindEmployee(db.employees, ById(employee.employee_id));
    FindByIdIff(db.employees, employee.employee_id);
    if existingById.Some? {
      return Err(HttpError(CONFLICT, IdExistsDetail(employee.employee_id)));
    }
    var existingByEmail := FindEmployee(db.employees, ByEmail(employee.email));
    if existingByEmail.Some? {
      return Err(HttpError(CONFLICT, EmailExistsDetail(employee.email)));
    }
    var doc := EmployeeDoc(newOid, employee.employee_id, employee.full_name, employee.email, employee.department, now);
    InsertEmployeeKeeps(db.employees, db.attendance, doc);
    db.employees := db.employees + [doc];
    FindByDocId(db.employees, |db.employees| - 1);
    var created := FindEmployee(db.employees, ByDocId(newOid));
    r := Ok(EmployeeHelper(db.employees[created.value]));
  }

  /** The response list the list route builds: the cursor sorted on
      `created_at`, newest first, each document through the helper. */
  function Listing(es: seq<EmployeeDoc>): seq<EmployeeResponse>
  {
    var cursor := SortDesc(es, CreatedAt);
    seq(|cursor|, i requires 0 <= i < |cursor| => EmployeeHelper(cursor[i]))
  }

  /** The listing has one entry per employee, newest first. */
  lemma ListingSorted(es: seq<EmployeeDoc>)
    ensures |Listing(es)| == |es|
    ensures forall i, j :: 0 <= i < j < |Listing(es)| ==> Listing(es)[i].created_at >= Listing(es)[j].created_at
  {
    var cursor := SortDesc(es, CreatedAt);
    var l := Listing(es);
    SortDescElements(es, CreatedAt);
    forall i, j | 0 <= i < j < |l| ensures l[i].created_at >= l[j].created_at {
      assert CreatedAt(cursor[i]) >= CreatedAt(cursor[j]);
    }
  }

  /** Every employee appears in the listing, and every entry is an employee. */
  lemma ListingComplete(es: seq<EmployeeDoc>)
    ensures forall e :: e in es ==> EmployeeHelper(e) in Listing(es)
    ensures forall x :: x in Listing(es) ==> exists e :: e in es && x == EmployeeHelper(e)
  {
    var cursor := SortDesc(es, CreatedAt);
    var l := Listing(es);
    SortDescElements(es, CreatedAt);
    forall e | e in es ensures EmployeeHelper(e) in l {
      var k :| 0 <= k < |cursor| && cursor[k] == e;
      assert l[k] == EmployeeHelper(e);
    }
    forall x | x in l ensures exists e :: e in es && x == EmployeeHelper(e) {
      var i :| 0 <= i < |l| && l[i] == x;
      assert cursor[i] in cursor;
    }
  }

  /** GET /api/employees: every employee, newest first (ListingSorted),
      and their number. */
  method GetAllEmployees(db: Db) returns (r: EmployeeListResponse)
    ensures r.employees == Listing(db.employees)
    ensures r.total == |r.employees|
  {
    var cursor := SortDesc(db.employees, CreatedAt);
    var employees: seq<EmployeeResponse> := [];
    var i := 0;
    while i < |cursor|
      invariant 0 <= i <= |cursor|
      invariant employees == Listing(db.employees)[..i]
    {
      employees := employees + [EmployeeHelper(cursor[i])];
      i := i + 1;
    }
    r := EmployeeListResponse(employees, |employees|);
  }

  /** GET /api/employees/{employee_id}: the employee with that id, or 404. */
  method GetEmployee(db: Db, employee_id: string) returns (r: Result<EmployeeResponse, HttpError>)
    ensures r.Ok? <==> HasEmployee(db.employees, employee_id)
    ensures r.Ok? ==> exists k :: 0 <= k < |db.employees| && db.employees[k].employee_id == employee_id
                                  && r.value == EmployeeHelper(db.employees[k])
    ensures r.Err? ==> r.error == HttpError(NOT_FOUND, NotFoundDetail(employee_id))
  {
    var employee := FindEmployee(db.employees, ById(employee_id));
    FindByIdIff(db.employees, employee_id);
    if employee.None? {
      return Err(HttpError(NOT_FOUND, NotFoundDetail(employee_id)));
    }
    r := Ok(EmployeeHelper(db.employees[employee.value]));
  }

  /** DELETE /api/employees/{employee_id}: 404 for an unknown id; otherwise
      the employee and every attendance record of theirs are removed. */
  method DeleteEmployee(db: Db, employee_id: string) returns (r: Result<(), HttpError>)
    requires db.Valid()
    modifies db
    ensures db.Valid()
    ensures r.Ok? <==> HasEmployee(old(db.employees), employee_id)
    ensures r.Err? ==> r.error == HttpError(NOT_FOUND, NotFoundDetail(employee_id))
    ensures r.Err? ==> db.employees == old(db.employees) && db.attendance == old(db.attendance)
    ensures r.Ok? ==> FindEmployee(old(db.employees), ById(employee_id)).Some?
    ensures r.Ok? ==> db.employees == RemoveAt(old(db.employees), FindEmployee(old(db.employees), ById(employee_id)).value)
    ensures r.Ok? ==> db.attendance == Reject(old(db.attendance), OfEmployee(employee_id))
    ensures !HasEmployee(db.employees, employee_id)
    ensures forall a :: a in db.attendance ==> a.employee_id != employee_id
  {
    var employee := FindEmployee(db.employees, ById(employee_id));
    FindByIdIff(db.employees, employee_id);
    if employee.None? {
      return Err(HttpError(NOT_FOUND, NotFoundDetail(employee_id)));
    }
    var k := employee.value;
    DeleteEmployeeKeeps(db.employees, db.attendance, k);
    db.employees := RemoveAt(db.employees, k);
    db.attendance := Reject(db.attendance, OfEmployee(employee_id));
    r := Ok(());
  }

  /** When no employee other than the one with that id uses the email
      (the `$ne` query), no other position of the collection holds it. */
  lemma EmailFreeForOthers(es: seq<EmployeeDoc>, k: nat, email: string)
    requires UniqueEmployeeIds(es) && k < |es|
    requires FindEmployee(es, ByEmailOtherThan(email, es[k].employee_id)).None?
    ensures forall m :: 0 <= m < |es| && m != k ==> es[m].email != email
  {
    forall m | 0 <= m < |es| && m != k ensures es[m].email != email {
      assert !MatchesEmployee(ByEmailOtherThan(email, es[k].employee_id), es[m]);
    }
  }

  /** Another employee than the one with id `id` holds `email` (the `$ne` query). */
  predicate EmailTakenByOther(es: seq<EmployeeDoc>, email: string, id: string)
  {
    exists m :: 0 <= m < |es| && es[m].employee_id != id && es[m].email == email
  }

  /** PUT /api/employees/{employee_id}: 404 for an unknown id; 409 when the
      id changes to one another employee has, then 409 when another employee
      has the email; otherwise the four fields are replaced in place and, if
      the id changed, every attendance record moves to the new id. */
  method UpdateEmployee(db: Db, employee_id: string, update: EmployeeCreate)
    returns (r: Result<EmployeeResponse, HttpError>)
    requires db.Valid()
    modifies db
    ensures db.Valid()
    ensures !HasEmployee(old(db.employees), employee_id) ==> r == Err(HttpError(NOT_FOUND, NotFoundDetail(employee_id)))
    ensures HasEmployee(old(db.employees), employee_id) && update.employee_id != employee_id
            && HasEmployee(old(db.employees), update.employee_id)
      ==> r == Err(HttpError(CONFLICT, IdTakenDetail(update.employee_id)))
    ensures HasEmployee(old(db.employees), employee_id)
            && !(update.employee_id != employee_id && HasEmployee(old(db.employees), update.employee_id))
            && EmailTakenByOther(old(db.employees), update.email, employee_id)
      ==> r == Err(HttpError(CONFLICT, EmailTakenDetail(update.email)))
    ensures r.Ok? <==> (HasEmployee(old(db.employees), employee_id)
                        && !(update.employee_id != employee_id && HasEmployee(old(db.employees), update.employee_id))
                        && !EmailTakenByOther(old(db.employees), update.email, employee_id))
    ensures r.Err? ==> db.employees == old(db.employees) && db.attendance == old(db.attendance)
    ensures r.Ok? ==> FindEmployee(old(db.employees), ById(employee_id)).Some?
    ensures r.Ok? ==> var k := FindEmployee(old(db.employees), ById(employee_id)).value;
      && (forall m :: 0 <= m < |old(db.employees)| && m != k ==> old(db.employees)[m].email != update.email)
      && db.employees == old(db.employees)[k := SetFields(old(db.employees)[k], update)]
      && r.value == EmployeeHelper(db.employees[k])
    ensures r.Ok? ==> (r.value.employee_id == update.employee_id && r.value.full_name == update.full_name
                       && r.value.email == update.email && r.value.department == update.department)
    ensures r.Ok? ==> db.attendance == if update.employee_id != employee_id
                                       then Rekey(old(db.attendance), employee_id, update.employee_id)
                                       else old(db.attendance)
  {
    var existing := FindEmployee(db.employees, ById(employee_id));
    FindByIdIff(db.employees, employee_id);
    if existing.None? {
      return Err(HttpError(NOT_FOUND, NotFoundDetail(employee_id)));
    }
    var k := existing.value;
    if update.employee_id != employee_id {
      var conflictId := FindEmployee(db.employees, ById(update.employee_id));
      FindByIdIff(db.employees, update.employee_id);
      if conflictId.Some? {
        return Err(HttpError(CONFLICT, IdTakenDetail(update.employee_id)));
      }
    }
    var conflictEmail := FindEmployee(db.employees, ByEmailOtherThan(update.email, employee_id));
    if conflictEmail.Some? {
      assert EmailTakenByOther(db.employees, update.email, employee_id) by {
        var m := conflictEmail.value;
        assert db.employees[m].employee_id != employee_id && db.employees[m].email == update.email;
      }
      return Err(HttpError(CONFLICT, EmailTakenDetail(update.email)));
    }
    EmailFreeForOthers(db.employees, k, update.email);
    assert !EmailTakenByOther(db.employees, update.email, employee_id) by {
      forall m | 0 <= m < |db.employees| && db.employees[m].employee_id != employee_id
        ensures db.employees[m].email != update.email
      {
        assert !MatchesEmployee(ByEmailOtherThan(update.email, employee_id), db.employees[m]);
      }
    }
    UpdateEmployeeKeeps(db.employees, db.attendance, k, update);
    db.employees := db.employees[k := SetFields(db.employees[k], update)];
    if update.employee_id != employee_id {
      db.attendance := Rekey(db.attendance, employee_id, update.employee_id);
    }
    FindByIdUnique(db.employees, update.employee_id, k);
    var updated := FindEmployee(db.employees, ById(update.employee_id));
    r := Ok(EmployeeHelper(db.employees[updated.value]));
  }
}
