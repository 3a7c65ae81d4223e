/** The two MongoDB collections, `employees` and `attendance`, the queries
    the routes send them, and the invariant the store keeps: the unique
    indexes created at start-up, valid stored fields, and every attendance
    record belonging to an existing employee. */
module Database {
  import opened Common
  import opened IsoDate
  import opened ObjectIds
  import opened EmployeeModel
  import opened AttendanceModel

  /** A document of `employees`. */
  datatype EmployeeDoc = EmployeeDoc(
    oid: ObjectId, employee_id: string, full_name: string, email: string, department: string, created_at: int)
  {
    /** The four fields a client supplies. */
    function Base(): (b: EmployeeBase)
      ensures b.employee_id == employee_id && b.full_name == full_name
      ensures b.email == email && b.department == department
    {
      EmployeeBase(employee_id, full_name, email, department)
    }
  }

  /** A document of `attendance`; the date is stored as its ISO text, which
      determines the date (IsoDate.IsoFormatInjective), so it is kept as a Date. */
  datatype AttendanceDoc = AttendanceDoc(
    oid: ObjectId, employee_id: string, date: Date, status: AttendanceStatus, marked_at: int)

  // ---------------------------------------------------------------------
  // Queries on `employees`
  // ---------------------------------------------------------------------

  /** A filter document on `employees`: an exact document id, an exact
      employee id, an employee id it must differ from (`$ne`), an exact email;
      absent fields do not constrain. */
  datatype EmployeeFilter = EmployeeFilter(
    oid: Option<ObjectId>, employee_id: Option<string>, employee_id_ne: Option<string>, email: Option<string>)

  function ByDocId(o: ObjectId): EmployeeFilter { EmployeeFilter(Some(o), None, None, None) }
  function ById(id: string): EmployeeFilter { EmployeeFilter(None, Some(id), None, None) }
  function ByEmail(email: string): EmployeeFilter { EmployeeFilter(None, None, None, Some(email)) }
  function ByEmailOtherThan(email: string, id: string): EmployeeFilter { EmployeeFilter(None, None, Some(id), Some(email)) }

  predicate MatchesEmployee(f: EmployeeFilter, e: EmployeeDoc)
  {
    && (f.oid.Some? ==> e.oid == f.oid.value)
    && (f.employee_id.Some? ==> e.employee_id == f.employee_id.value)
    && (f.employee_id_ne.Some? ==> e.employee_id != f.employee_id_ne.value)
    && (f.email.Some? ==> e.email == f.email.value)
  }

  /** `find_one(filter)`: the position of the first matching document in
      natural order, or None when no document matches. */
  function FindEmployee(es: seq<EmployeeDoc>, f: EmployeeFilter): (r: Option<nat>)
    ensures r.Some? ==> r.value < |es| && MatchesEmployee(f, es[r.value])
    ensures r.Some? ==> forall k :: 0 <= k < r.value ==> !MatchesEmployee(f, es[k])
    ensures r.None? ==> forall k :: 0 <= k < |es| ==> !MatchesEmployee(f, es[k])
  {
    if es == [] then None
    else if MatchesEmployee(f, es[0]) then Some(0)
    else match FindEmployee(es[1..], f)
      case None => None
      case Some(k) => Some(k + 1)
  }

  /** With unique ids, the employee found by id is the only one with that id. */
  lemma FindByIdUnique(es: seq<EmployeeDoc>, id: string, k: nat)
    requires UniqueEmployeeIds(es)
    requires k < |es| && es[k].employee_id == id
    ensures FindEmployee(es, ById(id)) == Some(k)
  {
  }

  /** With unique document ids, `find_one` by the id of a document finds that document. */
  lemma FindByDocId(es: seq<EmployeeDoc>, k: nat)
    requires UniqueEmployeeOids(es)
    requires k < |es|
    ensures FindEmployee(es, ByDocId(es[k].oid)) == Some(k)
  {
  }

  predicate HasEmployee(es: seq<EmployeeDoc>, id: string)
  {
    exists k :: 0 <= k < |es| && es[k].employee_id == id
  }

  predicate EmailTaken(es: seq<EmployeeDoc>, email: string)
  {
    exists k :: 0 <= k < |es| && es[k].email == email
  }

  /** `find_one({"employee_id": id})` finds something exactly when an employee has that id. */
  lemma FindByIdIff(es: seq<EmployeeDoc>, id: string)
    ensures FindEmployee(es, ById(id)).Some? <==> HasEmployee(es, id)
  {
    var r := FindEmployee(es, ById(id));
    if r.None? {
      assert forall k :: 0 <= k < |es| ==> !MatchesEmployee(ById(id), es[k]);
    } else {
      assert MatchesEmployee(ById(id), es[r.value]);
    }
  }

  /** `delete_one` at a found position. */
  function RemoveAt<T>(s: seq<T>, k: nat): (r: seq<T>)
    requires k < |s|
    ensures |r| == |s| - 1
    ensures forall i :: 0 <= i < |r| ==> r[i] == s[if i < k then i else i + 1]
  {
    s[..k] + s[k + 1..]
  }

  /** `update_one(filter, {"$set": fields})` at a found position: the four
      client fields are replaced, the document id and creation time kept. */
  function SetFields(e: EmployeeDoc, b: EmployeeBase): (r: EmployeeDoc)
    ensures r.Base() == b && r.oid == e.oid && r.created_at == e.created_at
  {
    e.(employee_id := b.employee_id, full_name := b.full_name, email := b.email, department := b.department)
  }

  // ---------------------------------------------------------------------
  // Queries on `attendance`
  // ---------------------------------------------------------------------

  /** A filter document on `attendance`; absent fields do not constrain. */
  datatype Query = Query(oid: Option<ObjectId>, employee_id: Option<string>, date: Option<Date>, status: Option<AttendanceStatus>)

  const AllRecords: Query := Query(None, None, None, None)

  function ByOid(o: ObjectId): Query { Query(Some(o), None, None, None) }
  function OfEmployee(id: string): Query { Query(None, Some(id), None, None) }
  function OnDay(id: string, d: Date): Query { Query(None, Some(id), Some(d), None) }

  predicate Matches(q: Query, a: AttendanceDoc)
  {
    && (q.oid.Some? ==> a.oid == q.oid.value)
    && (q.employee_id.Some? ==> a.employee_id == q.employee_id.value)
    && (q.date.Some? ==> a.date == q.date.value)
    && (q.status.Some? ==> a.status == q.status.value)
  }

  /** `find(query)` before sorting: the matching records in natural order. */
  function Select(rs: seq<AttendanceDoc>, q: Query): (r: seq<AttendanceDoc>)
    ensures |r| <= |rs|
    ensures forall a :: a in r <==> a in rs && Matches(q, a)
  {
    if rs == [] then []
    else (if Matches(q, rs[0]) then [rs[0]] else []) + Select(rs[1..], q)
  }

  /** `delete_many(query)`: the records that do not match, in natural order. */
  function Reject(rs: seq<AttendanceDoc>, q: Query): (r: seq<AttendanceDoc>)
    ensures |r| <= |rs|
    ensures forall a :: a in r <==> a in rs && !Matches(q, a)
  {
    if rs == [] then []
    else (if Matches(q, rs[0]) then [] else [rs[0]]) + Reject(rs[1..], q)
  }

  /** `count_documents(query)`. */
  function CountDocuments(rs: seq<AttendanceDoc>, q: Query): nat
  {
    |Select(rs, q)|
  }

  /** The empty query matches every record: `count_documents({})` is the size of the collection. */
  lemma {:induction false} SelectAll(rs: seq<AttendanceDoc>)
    ensures Select(rs, AllRecords) == rs
  {
    if rs != [] {
      SelectAll(rs[1..]);
      assert rs == [rs[0]] + rs[1..];
    }
  }

  /** A query that leaves the status open counts the Present records and
      the Absent records, nothing else. */
  lemma {:induction false} CountByStatus(rs: seq<AttendanceDoc>, q: Query)
    requires q.status.None?
    ensures CountDocuments(rs, q)
         == CountDocuments(rs, q.(status := Some(Present))) + CountDocuments(rs, q.(status := Some(Absent)))
  {
    if rs != [] {
      CountByStatus(rs[1..], q);
    }
  }

  /** `find_one` on `attendance`: the position of the first matching record. */
  function FindRecord(rs: seq<AttendanceDoc>, q: Query): (r: Option<nat>)
    ensures r.Some? ==> r.value < |rs| && Matches(q, rs[r.value])
    ensures r.Some? ==> forall k :: 0 <= k < r.value ==> !Matches(q, rs[k])
    ensures r.None? ==> forall k :: 0 <= k < |rs| ==> !Matches(q, rs[k])
  {
    if rs == [] then None
    else if Matches(q, rs[0]) then Some(0)
    else match FindRecord(rs[1..], q)
      case None => None
      case Some(k) => Some(k + 1)
  }

  /** `update_many({"employee_id": from}, {"$set": {"employee_id": to}})`. */
  function Rekey(rs: seq<AttendanceDoc>, from: string, to: string): (r: seq<AttendanceDoc>)
    ensures |r| == |rs|
    ensures forall i :: 0 <= i < |r| ==> r[i] == if rs[i].employee_id == from then rs[i].(employee_id := to) else rs[i]
  {
    seq(|rs|, i requires 0 <= i < |rs| => if rs[i].employee_id == from then rs[i].(employee_id := to) else rs[i])
  }

  // ---------------------------------------------------------------------
  // Employee names by id
  // ---------------------------------------------------------------------

  /** The dictionary built by walking `employees` in natural order and
      assigning id -> full name; a later document overwrites an earlier one. */
  function NameMap(es: seq<EmployeeDoc>): map<string, string>
  {
    if es == [] then map[]
    else NameMap(es[..|es| - 1])[es[|es| - 1].employee_id := es[|es| - 1].full_name]
  }

  /** With unique ids the dictionary maps every employee's id to that
      employee's name and knows no other id. */
  lemma {:induction false} NameMapLookup(es: seq<EmployeeDoc>)
    requires UniqueEmployeeIds(es)
    ensures forall id :: id in NameMap(es) <==> HasEmployee(es, id)
    ensures forall k :: 0 <= k < |es| ==> es[k].employee_id in NameMap(es) && NameMap(es)[es[k].employee_id] == es[k].full_name
  {
    if es != [] {
      var pre := es[..|es| - 1];
      NameMapLookup(pre);
      forall id ensures id in NameMap(es) <==> HasEmployee(es, id) {
        if HasEmployee(es, id) && id != es[|es| - 1].employee_id {
          var k :| 0 <= k < |es| && es[k].employee_id == id;
          assert pre[k] == es[k];
        }
      }
      forall k | 0 <= k < |es| - 1 ensures es[k].employee_id in NameMap(es) && NameMap(es)[es[k].employee_id] == es[k].full_name {
        assert pre[k] == es[k];
      }
    }
  }

  // ---------------------------------------------------------------------
  // The store invariant
  // ---------------------------------------------------------------------

  /** The unique index on `employee_id`. */
  predicate UniqueEmployeeIds(es: seq<EmployeeDoc>)
  {
    forall i, j :: 0 <= i < j < |es| ==> es[i].employee_id != es[j].employee_id
  }

  /** The unique index on `email`. */
  predicate UniqueEmails(es: seq<EmployeeDoc>)
  {
    forall i, j :: 0 <= i < j < |es| ==> es[i].email != es[j].email
  }

  predicate UniqueEmployeeOids(es: seq<EmployeeDoc>)
  {
    forall i, j :: 0 <= i < j < |es| ==> es[i].oid != es[j].oid
  }

  /** Two records differ in their document id and are not for the same
      employee on the same day. */
  predicate Apart(a: AttendanceDoc, b: AttendanceDoc)
  {
    a.oid != b.oid && (a.employee_id != b.employee_id || a.date != b.date)
  }

  /** The unique compound index on (`employee_id`, `date`), and distinct
      document ids. */
  predicate RecordsApart(rs: seq<AttendanceDoc>)
  {
    forall i, j :: 0 <= i < j < |rs| ==> Apart(rs[i], rs[j])
  }

  /** Every stored employee passed the schema's validation. */
  predicate EmployeesValid(es: seq<EmployeeDoc>)
  {
    forall i :: 0 <= i < |es| ==> ValidEmployee(es[i].Base())
  }

  /** Every stored record passed the schema's validation. */
  predicate RecordsValid(rs: seq<AttendanceDoc>)
  {
    forall a :: a in rs ==> |a.employee_id| >= 1 && ValidDate(a.date)
  }

  /** No record outlives its employee. */
  predicate RecordsHaveEmployees(es: seq<EmployeeDoc>, rs: seq<AttendanceDoc>)
  {
    forall a :: a in rs ==> HasEmployee(es, a.employee_id)
  }

  predicate StoreInvariant(es: seq<EmployeeDoc>, rs: seq<AttendanceDoc>)
  {
    && UniqueEmployeeIds(es) && UniqueEmails(es) && UniqueEmployeeOids(es) && EmployeesValid(es)
    && RecordsApart(rs) && RecordsValid(rs)
    && RecordsHaveEmployees(es, rs)
  }

  /** The database the routes share. */
  class Db {
    var employees: seq<EmployeeDoc>
    var attendance: seq<AttendanceDoc>

    ghost predicate Valid()
      reads this
    {
      StoreInvariant(employees, attendance)
    }

    /** A fresh database: both collections empty. */
    constructor ()
      ensures employees == [] && attendance == []
      ensures Valid()
    {
      employees := [];
      attendance := [];
    }
  }

  // ---------------------------------------------------------------------
  // Each write the routes make keeps the invariant
  // ---------------------------------------------------------------------

  /** Inserting an employee whose id and email no document has (the two
      409 checks of the create route) never trips a unique index. */
  lemma InsertEmployeeKeeps(es: seq<EmployeeDoc>, rs: seq<AttendanceDoc>, doc: EmployeeDoc)
    requires StoreInvariant(es, rs)
    requires ValidEmployee(doc.Base())
    requires forall k :: 0 <= k < |es| ==> es[k].employee_id != doc.employee_id
    requires forall k :: 0 <= k < |es| ==> es[k].email != doc.email
    requires forall k :: 0 <= k < |es| ==> es[k].oid != doc.oid
    ensures StoreInvariant(es + [doc], rs)
  {
    var es' := es + [doc];
    forall a | a in rs ensures HasEmployee(es', a.employee_id) {
      var k :| 0 <= k < |es| && es[k].employee_id == a.employee_id;
      assert es'[k] == es[k];
    }
  }

  /** Inserting a record for an existing employee on a day that employee has
      no record for (the 404 and 409 checks of the mark route). */
  lemma InsertRecordKeeps(es: seq<EmployeeDoc>, rs: seq<AttendanceDoc>, doc: AttendanceDoc)
    requires StoreInvariant(es, rs)
    requires |doc.employee_id| >= 1 && ValidDate(doc.date)
    requires HasEmployee(es, doc.employee_id)
    requires forall k :: 0 <= k < |rs| ==> !(rs[k].employee_id == doc.employee_id && rs[k].date == doc.date)
    requires forall k :: 0 <= k < |rs| ==> rs[k].oid != doc.oid
    ensures StoreInvariant(es, rs + [doc])
  {
    var rs' := rs + [doc];
    forall i, j | 0 <= i < j < |rs'| ensures Apart(rs'[i], rs'[j]) {
      assert rs'[i] == rs[i];
    }
  }

  /** `delete_many` leaves records that are still pairwise apart. */
  lemma {:induction false} RejectKeepsApart(rs: seq<AttendanceDoc>, q: Query)
    requires RecordsApart(rs)
    ensures RecordsApart(Reject(rs, q))
  {
    if rs != [] {
      var tail := rs[1..];
      RejectKeepsApart(tail, q);
      var rest := Reject(tail, q);
      if !Matches(q, rs[0]) {
        var r := [rs[0]] + rest;
        forall i, j | 0 <= i < j < |r| ensures Apart(r[i], r[j]) {
          if i == 0 {
            assert rest[j - 1] in tail;
            var m :| 0 <= m < |tail| && tail[m] == rest[j - 1];
            assert rs[m + 1] == r[j];
          } else {
            assert r[i] == rest[i - 1] && r[j] == rest[j - 1];
          }
        }
      }
    }
  }

  /** Deleting an employee together with all of their records (the delete
      route's cascade) leaves no record without an employee. */
  lemma DeleteEmployeeKeeps(es: seq<EmployeeDoc>, rs: seq<AttendanceDoc>, k: nat)
    requires StoreInvariant(es, rs)
    requires k < |es|
    ensures StoreInvariant(RemoveAt(es, k), Reject(rs, OfEmployee(es[k].employee_id)))
  {
    RejectKeepsApart(rs, OfEmployee(es[k].employee_id));
    RemoveEmployeeKeeps(es, k);
    CascadeKeepsOwners(es, rs, k);
  }

  /** Once an employee's records are gone, the other records still have their employees. */
  lemma CascadeKeepsOwners(es: seq<EmployeeDoc>, rs: seq<AttendanceDoc>, k: nat)
    requires RecordsHaveEmployees(es, rs) && RecordsValid(rs)
    requires k < |es|
    ensures RecordsHaveEmployees(RemoveAt(es, k), Reject(rs, OfEmployee(es[k].employee_id)))
    ensures RecordsValid(Reject(rs, OfEmployee(es[k].employee_id)))
  {
    var es' := RemoveAt(es, k);
    var rs' := Reject(rs, OfEmployee(es[k].employee_id));
    forall a | a in rs' ensures HasEmployee(es', a.employee_id) {
      var m :| 0 <= m < |es| && es[m].employee_id == a.employee_id;
      assert m != k;
      assert es'[if m < k then m else m - 1] == es[m];
    }
  }

  /** The employee side of a delete: removing a document keeps the rest unique and valid. */
  lemma RemoveEmployeeKeeps(es: seq<EmployeeDoc>, k: nat)
    requires UniqueEmployeeIds(es) && UniqueEmails(es) && UniqueEmployeeOids(es) && EmployeesValid(es)
    requires k < |es|
    ensures var es' := RemoveAt(es, k);
      UniqueEmployeeIds(es') && UniqueEmails(es') && UniqueEmployeeOids(es') && EmployeesValid(es')
  {
  }

  /** Deleting one record by its id. */
  lemma DeleteRecordKeeps(es: seq<EmployeeDoc>, rs: seq<AttendanceDoc>, k: nat)
    requires StoreInvariant(es, rs)
    requires k < |rs|
    ensures StoreInvariant(es, RemoveAt(rs, k))
  {
    var rs' := RemoveAt(rs, k);
    forall a | a in rs' ensures a in rs {
      var i :| 0 <= i < |rs'| && rs'[i] == a;
    }
  }

  /** The employee side of an update: the new id is free unless unchanged,
      and the new email belongs to no other employee (the two 409 checks of
      the update route). */
  lemma SetFieldsKeeps(es: seq<EmployeeDoc>, k: nat, b: EmployeeBase)
    requires UniqueEmployeeIds(es) && UniqueEmails(es) && UniqueEmployeeOids(es) && EmployeesValid(es)
    requires k < |es| && ValidEmployee(b)
    requires b.employee_id != es[k].employee_id ==> !HasEmployee(es, b.employee_id)
    requires forall m :: 0 <= m < |es| && m != k ==> es[m].email != b.email
    ensures var es' := es[k := SetFields(es[k], b)];
      UniqueEmployeeIds(es') && UniqueEmails(es') && UniqueEmployeeOids(es') && EmployeesValid(es')
  {
  }

  /** The record side of an update that changes the id: every record of the
      old id moves to the new one, which had none. */
  lemma RekeyKeeps(es: seq<EmployeeDoc>, rs: seq<AttendanceDoc>, k: nat, b: EmployeeBase)
    requires StoreInvariant(es, rs)
    requires k < |es| && ValidEmployee(b)
    requires b.employee_id != es[k].employee_id && !HasEmployee(es, b.employee_id)
    ensures var rs' := Rekey(rs, es[k].employee_id, b.employee_id);
      RecordsApart(rs') && RecordsValid(rs') && RecordsHaveEmployees(es[k := SetFields(es[k], b)], rs')
  {
    var from := es[k].employee_id;
    var es' := es[k := SetFields(es[k], b)];
    var rs' := Rekey(rs, from, b.employee_id);
    forall i | 0 <= i < |rs'| ensures HasEmployee(es', rs'[i].employee_id) && ValidDate(rs'[i].date) && |rs'[i].employee_id| >= 1 {
      assert rs[i] in rs;
      if rs[i].employee_id == from {
        assert es'[k].employee_id == rs'[i].employee_id;
      } else {
        var m :| 0 <= m < |es| && es[m].employee_id == rs[i].employee_id;
        assert es'[m] == es[m];
      }
    }
    forall i, j | 0 <= i < j < |rs'| ensures Apart(rs'[i], rs'[j]) {
      assert rs[i] in rs && rs[j] in rs;
      assert Apart(rs[i], rs[j]);
    }
  }

  /** The update route's writes: fields replaced in place, records renamed
      only when the id changes. */
  lemma UpdateEmployeeKeeps(es: seq<EmployeeDoc>, rs: seq<AttendanceDoc>, k: nat, b: EmployeeBase)
    requires StoreInvariant(es, rs)
    requires k < |es| && ValidEmployee(b)
    requires b.employee_id != es[k].employee_id ==> !HasEmployee(es, b.employee_id)
    requires forall m :: 0 <= m < |es| && m != k ==> es[m].email != b.email
    ensures StoreInvariant(es[k := SetFields(es[k], b)],
                           if b.employee_id != es[k].employee_id then Rekey(rs, es[k].employee_id, b.employee_id) else rs)
  {
    var es' := es[k := SetFields(es[k], b)];
    SetFieldsKeeps(es, k, b);
    if b.employee_id != es[k].employee_id {
      RekeyKeeps(es, rs, k, b);
    } else {
      forall a | a in rs ensures HasEmployee(es', a.employee_id) {
        var m :| 0 <= m < |es| && es[m].employee_id == a.employee_id;
        assert es'[m].employee_id == es[m].employee_id;
      }
    }
  }
}
