/** The employees page: the add/edit form and its validation, the
    confirm-then-delete flow, and the search over the loaded list. API
    outcomes are inputs to the handlers; the calls a handler makes and the
    notices it shows are its outputs. */
module EmployeesPage {
  import opened Common
  import opened EmployeeModel
  import opened Http
  import opened Routing
  import opened ApiClient
  import opened App

  // ---------------------------------------------------------------------
  // The email pattern `^[^\s@]+@[^\s@]+\.[^\s@]+$`
  // ---------------------------------------------------------------------

  /** `[^\s@]`: what the three parts of an address may consist of. */
  predicate PartChar(c: char)
  {
    !IsJsSpace(c) && c != '@'
  }

  predicate AllPart(s: string)
  {
    forall k :: 0 <= k < |s| ==> PartChar(s[k])
  }

  /** The pattern read as a regular expression: a non-empty part, '@', a
      non-empty part, '.', a non-empty part, nothing else. */
  predicate EmailPattern(s: string)
  {
    exists i, j :: 0 < i && i + 1 < j && j + 1 < |s| && s[i] == '@' && s[j] == '.'
      && AllPart(s[0..i]) && AllPart(s[i + 1..j]) && AllPart(s[j + 1..|s|])
  }

  /** The pattern's `test`, computed: no white space, one '@' with something
      before it, and a '.' after the first character behind the '@' that is
      not the last character. */
  function EmailTest(s: string): bool
  {
    match IndexOf(s, '@')
    case None => false
    case Some(i) => 0 < i && i + 3 <= |s| && NoSpace(s) && '@' !in s[i + 1..] && '.' in s[i + 2..|s| - 1]
  }

  lemma AllPartRange(s: string, lo: nat, hi: nat)
    requires lo <= hi <= |s|
    ensures AllPart(s[lo..hi]) <==> forall m :: lo <= m < hi ==> PartChar(s[m])
  {
    if AllPart(s[lo..hi]) {
      forall m | lo <= m < hi ensures PartChar(s[m]) {
        assert s[m] == s[lo..hi][m - lo];
      }
    }
  }

  lemma NotInRange(s: string, c: char, lo: nat, hi: nat)
    requires lo <= hi <= |s|
    ensures c !in s[lo..hi] <==> forall m :: lo <= m < hi ==> s[m] != c
  {
    if c !in s[lo..hi] {
      forall m | lo <= m < hi ensures s[m] != c {
        assert s[m] == s[lo..hi][m - lo];
      }
    }
  }

  /** The first occurrence is the one with none before it. */
  lemma IndexOfIs(s: string, c: char, i: nat)
    requires i < |s| && s[i] == c && c !in s[..i]
    ensures IndexOf(s, c) == Some(i)
  {
  }

  lemma EmailTestSound(s: string)
    requires EmailTest(s)
    ensures EmailPattern(s)
  {
    var i := IndexOf(s, '@').value;
    var t := s[i + 2..|s| - 1];
    var k :| 0 <= k < |t| && t[k] == '.';
    var j := i + 2 + k;
    assert s[j] == '.';
    assert s[..i] == s[0..i] && s[i + 1..] == s[i + 1..|s|];
    NotInRange(s, '@', 0, i);
    NotInRange(s, '@', i + 1, |s|);
    AllPartRange(s, 0, i);
    AllPartRange(s, i + 1, j);
    AllPartRange(s, j + 1, |s|);
  }

  lemma EmailTestComplete(s: string)
    requires EmailPattern(s)
    ensures EmailTest(s)
  {
    var i, j :| 0 < i && i + 1 < j && j + 1 < |s| && s[i] == '@' && s[j] == '.'
      && AllPart(s[0..i]) && AllPart(s[i + 1..j]) && AllPart(s[j + 1..|s|]);
    AllPartRange(s, 0, i);
    AllPartRange(s, i + 1, j);
    AllPartRange(s, j + 1, |s|);
    PartsPassTest(s, i, j);
  }

  /** An address whose only characters outside `[^\s@]` are the '@' at `i`
      and the '.' at `j` passes the test. */
  lemma PartsPassTest(s: string, i: nat, j: nat)
    requires 0 < i && i + 1 < j && j + 1 < |s| && s[i] == '@' && s[j] == '.'
    requires forall m :: 0 <= m < |s| && m != i && m != j ==> PartChar(s[m])
    ensures EmailTest(s)
  {
    assert NoSpace(s) by {
      forall m | 0 <= m < |s| ensures !IsJsSpace(s[m]) {
        if m != i && m != j {
          assert PartChar(s[m]);
        }
      }
    }
    assert forall m :: i + 1 <= m < |s| ==> s[m] != '@' by {
      forall m | i + 1 <= m < |s| ensures s[m] != '@' {
        if m != j {
          assert PartChar(s[m]);
        }
      }
    }
    assert s[..i] == s[0..i] && s[i + 1..] == s[i + 1..|s|];
    NotInRange(s, '@', 0, i);
    NotInRange(s, '@', i + 1, |s|);
    IndexOfIs(s, '@', i);
    assert s[i + 2..|s| - 1][j - i - 2] == '.';
  }

  /** The computed test accepts exactly what the pattern matches. */
  lemma EmailTestIff(s: string)
    ensures EmailTest(s) <==> EmailPattern(s)
  {
    if EmailTest(s) {
      EmailTestSound(s);
    }
    if EmailPattern(s) {
      EmailTestComplete(s);
    }
  }

  /** Every address the page accepts also has the structure the server's
      email field requires. */
  lemma EmailTestShape(s: string)
    requires EmailTest(s)
    ensures EmailShape(s)
  {
  }

  // ---------------------------------------------------------------------
  // Form validation
  // ---------------------------------------------------------------------

  const EMPTY_FORM: EmployeeBase := EmployeeBase("", "", "", "")

  const ID_REQUIRED: string := "Employee ID is required"
  const NAME_REQUIRED: string := "Full name is required"
  const NAME_TOO_SHORT: string := "Name must be at least 2 characters"
  const EMAIL_REQUIRED: string := "Email is required"
  const EMAIL_INVALID: string := "Please enter a valid email address"
  const DEPARTMENT_REQUIRED: string := "Department is required"

  /** The form's inputs, by their `name` attribute (`employee_id`,
      `full_name`, `email`, `department`), which also keys the errors. */
  datatype Field = EmployeeIdField | FullNameField | EmailField | DepartmentField

  /** The errors `validateForm` collects, keyed by field. A field fails
      `!value.trim()` exactly when it is all white space (the contract of
      `Common.Trim`), which is how the blank tests are written here. */
  function FormErrorsOf(f: EmployeeBase): map<Field, string>
  {
    DepartmentCheck(f, EmailCheck(f, NameCheck(f, IdCheck(f))))
  }

  /** `employee_id`: required. */
  function IdCheck(f: EmployeeBase): map<Field, string>
  {
    if AllSpace(f.employee_id) then map[EmployeeIdField := ID_REQUIRED] else map[]
  }

  /** `full_name`: required, then at least two characters. */
  function NameCheck(f: EmployeeBase, errors: map<Field, string>): map<Field, string>
  {
    if AllSpace(f.full_name) then errors[FullNameField := NAME_REQUIRED]
    else if |f.full_name| < 2 then errors[FullNameField := NAME_TOO_SHORT]
    else errors
  }

  /** `email`: required, then the pattern. */
  function EmailCheck(f: EmployeeBase, errors: map<Field, string>): map<Field, string>
  {
    if AllSpace(f.email) then errors[EmailField := EMAIL_REQUIRED]
    else if !EmailTest(f.email) then errors[EmailField := EMAIL_INVALID]
    else errors
  }

  /** `department`: a value must be chosen. */
  function DepartmentCheck(f: EmployeeBase, errors: map<Field, string>): map<Field, string>
  {
    if f.department == "" then errors[DepartmentField := DEPARTMENT_REQUIRED] else errors
  }

  /** Each field's error is set exactly when its rule fails, with the message
      of the first rule that fails; no other key is ever set. */
  lemma FormErrorsSpec(f: EmployeeBase)
    ensures EmployeeIdField in FormErrorsOf(f) <==> AllSpace(f.employee_id)
    ensures EmployeeIdField in FormErrorsOf(f) ==> FormErrorsOf(f)[EmployeeIdField] == ID_REQUIRED
    ensures FullNameField in FormErrorsOf(f) <==> AllSpace(f.full_name) || |f.full_name| < 2
    ensures FullNameField in FormErrorsOf(f)
        ==> FormErrorsOf(f)[FullNameField] == (if AllSpace(f.full_name) then NAME_REQUIRED else NAME_TOO_SHORT)
    ensures EmailField in FormErrorsOf(f) <==> AllSpace(f.email) || !EmailPattern(f.email)
    ensures EmailField in FormErrorsOf(f)
        ==> FormErrorsOf(f)[EmailField] == (if AllSpace(f.email) then EMAIL_REQUIRED else EMAIL_INVALID)
    ensures DepartmentField in FormErrorsOf(f) <==> f.department == ""
    ensures DepartmentField in FormErrorsOf(f) ==> FormErrorsOf(f)[DepartmentField] == DEPARTMENT_REQUIRED
  {
    EmailTestIff(f.email);
  }

  /** `Object.keys(errors).length === 0` holds exactly for the empty map. */
  lemma NoKeysIsEmpty(m: map<Field, string>)
    ensures |m.Keys| == 0 <==> m == map[]
  {
    if |m.Keys| == 0 {
      assert forall k :: k !in m.Keys;
    }
  }

  /** A form the page accepts, within the schema's maximum lengths, passes
      the server's validation; the page does not check those maxima itself. */
  lemma AcceptedFormIsValid(f: EmployeeBase)
    requires FormErrorsOf(f) == map[]
    requires |f.employee_id| <= 20 && |f.full_name| <= 100 && |f.department| <= 50
    ensures ValidEmployee(f)
  {
    FormErrorsSpec(f);
    EmailTestIff(f.email);
    EmailTestShape(f.email);
  }

  /** The form with one field replaced, as an input's change event does it. */
  function WithField(f: EmployeeBase, name: Field, value: string): EmployeeBase
  {
    match name
    case EmployeeIdField => f.(employee_id := value)
    case FullNameField => f.(full_name := value)
    case EmailField => f.(email := value)
    case DepartmentField => f.(department := value)
  }

  // ---------------------------------------------------------------------
  // Submitting
  // ---------------------------------------------------------------------

  const UPDATE_NOT_DEFINED: string := "updateEmployee is not defined"

  /** The submit as written: the edit branch calls a function the page never
      imported, which throws before any request is made. */
  function SubmitCallAsWritten(editing: Option<EmployeeResponse>, form: EmployeeBase): Result<Call, string>
  {
    if editing.Some? then Err(UPDATE_NOT_DEFINED) else Ok(CreateEmployee(form))
  }

  /** As written, no edit is ever saved: every edit submit fails with the
      same message. */
  lemma EditSubmitAlwaysFails(e: EmployeeResponse, form: EmployeeBase)
    ensures SubmitCallAsWritten(Some(e), form) == Err(UPDATE_NOT_DEFINED)
    ensures SubmitCallAsWritten(None, form) == Ok(CreateEmployee(form)) == Ok(SubmitCall(None, form))
  {
  }

  /** The submit as intended: an edit updates the employee being edited, a
      new entry creates one. */
  function SubmitCall(editing: Option<EmployeeResponse>, form: EmployeeBase): Call
  {
    if editing.Some? then UpdateEmployee(editing.value.employee_id, form) else CreateEmployee(form)
  }

  /** The intended edit submit sends the form to the update route of the
      employee being edited. */
  lemma EditSubmitReachesUpdate(env: Option<string>, e: EmployeeResponse, form: EmployeeBase)
    requires PlainSegment(e.employee_id)
    ensures Resolve(PUT, SubmitCall(Some(e), form).endpoint) == Some(UpdateEmployeeRoute(e.employee_id))
    ensures Issue(env, SubmitCall(Some(e), form)).verb == PUT
    ensures Issue(env, SubmitCall(Some(e), form)).body == EmployeeJson(form)
    ensures Resolve(POST, SubmitCall(None, form).endpoint) == Some(CreateEmployeeRoute)
  {
    EmployeeWrapperRoutes(e.employee_id, form);
    WrapperRequests(env, e.employee_id, form, AttendanceModel.AttendancePayload(form.employee_id, "", ""));
  }

  function SavedMessage(editing: Option<EmployeeResponse>, form: EmployeeBase): string
  {
    "Employee " + form.full_name + (if editing.Some? then " updated successfully" else " added successfully")
  }

  // ---------------------------------------------------------------------
  // Search
  // ---------------------------------------------------------------------

  /** The search test: the lowercased name or id contains the lowercased term. */
  predicate SearchHit(e: EmployeeResponse, term: string)
  {
    Includes(Lower(e.full_name), Lower(term)) || Includes(Lower(e.employee_id), Lower(term))
  }

  function Search(es: seq<EmployeeResponse>, term: string): (r: seq<EmployeeResponse>)
  {
    Filter(es, (e: EmployeeResponse) => SearchHit(e, term))
  }

  /** The search keeps exactly the matching employees, in the loaded order,
      and an empty term keeps them all. */
  lemma SearchSpec(es: seq<EmployeeResponse>, term: string)
    ensures forall e :: e in Search(es, term) <==> e in es && SearchHit(e, term)
    ensures IsSubsequence(Search(es, term), es)
    ensures term == "" ==> Search(es, term) == es
  {
    FilterKeepsOrder(es, (e: EmployeeResponse) => SearchHit(e, term));
    if term == "" {
      forall e | e in es ensures SearchHit(e, term) {
        IncludesIff(Lower(e.full_name), Lower(term));
        assert OccursAt(Lower(e.full_name), Lower(term), 0);
      }
      FilterKeepsAll(es, (e: EmployeeResponse) => SearchHit(e, term));
    }
  }

  // ---------------------------------------------------------------------
  // The page
  // ---------------------------------------------------------------------

  class EmployeesPageState {
    var employees: seq<EmployeeResponse>
    var loading: bool
    var isModalOpen: bool
    var deleteTarget: Option<EmployeeResponse>
    var formData: EmployeeBase
    var formErrors: map<Field, string>
    var searchTerm: string
    var editingEmployee: Option<EmployeeResponse>

    /** The state on mount; loading lasts until the first fetch completes. */
    constructor ()
      ensures employees == [] && loading && !isModalOpen && deleteTarget.None?
      ensures formData == EMPTY_FORM && formErrors == map[] && searchTerm == "" && editingEmployee.None?
    {
      employees := [];
      loading := true;
      isModalOpen := false;
      deleteTarget := None;
      formData := EMPTY_FORM;
      formErrors := map[];
      searchTerm := "";
      editingEmployee := None;
    }

    /** `fetchEmployees`, from the call to its completion: the list is
      replaced on success, a failure is shown, and loading ends either way. */
    method FetchEmployees(outcome: Result<EmployeeListResponse, string>) returns (notices: seq<Notice>)
      modifies this
      ensures outcome.Ok? ==> employees == outcome.value.employees && notices == []
      ensures outcome.Err? ==> employees == old(employees) && notices == [Notice(outcome.error, "error")]
      ensures !loading
      ensures isModalOpen == old(isModalOpen) && deleteTarget == old(deleteTarget)
      ensures formData == old(formData) && formErrors == old(formErrors)
      ensures searchTerm == old(searchTerm) && editingEmployee == old(editingEmployee)
    {
      loading := true;
      notices := [];
      match outcome {
        case Ok(data) => employees := data.employees;
        case Err(message) => notices := [Notice(message, "error")];
      }
      loading := false;
    }

    /** `validateForm`: the errors are collected field by field and replace
      the previous ones; the form is valid when none was collected. */
    method ValidateForm() returns (valid: bool)
      modifies this
      ensures formErrors == FormErrorsOf(formData)
      ensures valid <==> formErrors == map[]
      ensures employees == old(employees) && loading == old(loading) && isModalOpen == old(isModalOpen)
      ensures deleteTarget == old(deleteTarget) && formData == old(formData)
      ensures searchTerm == old(searchTerm) && editingEmployee == old(editingEmployee)
    {
      var f := formData;
      var errors: map<Field, string> := map[];
      if AllSpace(f.employee_id) {
        errors := errors[EmployeeIdField := ID_REQUIRED];
      }
      assert errors == IdCheck(f);
      if AllSpace(f.full_name) {
        errors := errors[FullNameField := NAME_REQUIRED];
      } else if |f.full_name| < 2 {
        errors := errors[FullNameField := NAME_TOO_SHORT];
      }
      assert errors == NameCheck(f, IdCheck(f));
      if AllSpace(f.email) {
        errors := errors[EmailField := EMAIL_REQUIRED];
      } else if !EmailTest(f.email) {
        errors := errors[EmailField := EMAIL_INVALID];
      }
      assert errors == EmailCheck(f, NameCheck(f, IdCheck(f)));
      if f.department == "" {
        errors := errors[DepartmentField := DEPARTMENT_REQUIRED];
      }
      assert errors == FormErrorsOf(f);
      NoKeysIsEmpty(errors);
      formErrors := errors;
      valid := |errors.Keys| == 0;
    }

    /** `handleChange`: only the named field changes, and only that field's
      error is blanked, when it had a non-empty one. */
    method HandleChange(name: Field, value: string)
      modifies this
      ensures formData == WithField(old(formData), name, value)
      ensures formErrors == if name in old(formErrors) && old(formErrors)[name] != ""
                            then old(formErrors)[name := ""] else old(formErrors)
      ensures employees == old(employees) && loading == old(loading) && isModalOpen == old(isModalOpen)
      ensures deleteTarget == old(deleteTarget) && searchTerm == old(searchTerm)
      ensures editingEmployee == old(editingEmployee)
    {
      formData := WithField(formData, name, value);
      if name in formErrors && formErrors[name] != "" {
        formErrors := formErrors[name := ""];
      }
    }

    /** `handleSubmit`, as written: an invalid form makes no call. An edit
      throws at the unimported `updateEmployee` before any request, so the
      message is shown and the modal, the form and the edit target stay. A
      new entry is sent; on success the modal closes, the form and errors
      reset and `fetchEmployees` runs, its outcome `refetch` applied as that
      method applies it; on failure the message is shown and the form stays. */
    method HandleSubmit(outcome: Result<EmployeeResponse, string>, refetch: Result<EmployeeListResponse, string>)
      returns (calls: seq<Call>, notices: seq<Notice>)
      modifies this
      ensures FormErrorsOf(old(formData)) != map[] ==>
        && calls == [] && notices == []
        && formErrors == FormErrorsOf(old(formData))
        && isModalOpen == old(isModalOpen) && formData == old(formData) && editingEmployee == old(editingEmployee)
        && employees == old(employees) && loading == old(loading)
      ensures FormErrorsOf(old(formData)) == map[] && old(editingEmployee).Some? ==>
        && calls == [] && notices == [Notice(UPDATE_NOT_DEFINED, "error")]
        && isModalOpen == old(isModalOpen) && formData == old(formData) && editingEmployee == old(editingEmployee)
        && formErrors == map[] && employees == old(employees) && loading == old(loading)
      ensures FormErrorsOf(old(formData)) == map[] && old(editingEmployee).None? && outcome.Ok? ==>
        && calls == [CreateEmployee(old(formData)), GetEmployees()]
        && notices == [Notice(SavedMessage(None, old(formData)), "success")]
                      + (if refetch.Err? then [Notice(refetch.error, "error")] else [])
        && !isModalOpen && editingEmployee.None? && formData == EMPTY_FORM && formErrors == map[]
        && employees == (if refetch.Ok? then refetch.value.employees else old(employees)) && !loading
      ensures FormErrorsOf(old(formData)) == map[] && old(editingEmployee).None? && outcome.Err? ==>
        && calls == [CreateEmployee(old(formData))]
        && notices == [Notice(outcome.error, "error")]
        && isModalOpen == old(isModalOpen) && editingEmployee == old(editingEmployee)
        && formData == old(formData) && formErrors == map[]
        && employees == old(employees) && loading == old(loading)
      ensures deleteTarget == old(deleteTarget) && searchTerm == old(searchTerm)
    {
      calls, notices := [], [];
      var valid := ValidateForm();
      if !valid {
        return;
      }
      var editing, form := editingEmployee, formData;
      match SubmitCallAsWritten(editing, form) {
        case Err(message) =>
          notices := [Notice(message, "error")];
        case Ok(call) =>
          calls := [call];
          match outcome {
            case Ok(_) =>
              notices := [Notice(SavedMessage(editing, form), "success")];
              isModalOpen := false;
              editingEmployee := None;
              formData := EMPTY_FORM;
              formErrors := map[];
              var fetched := FetchEmployees(refetch);
              calls := calls + [GetEmployees()];
              notices := notices + fetched;
            case Err(message) =>
              notices := [Notice(message, "error")];
          }
      }
    }

    /** The delete button of a row: the confirmation opens for that employee. */
    method RequestDelete(e: EmployeeResponse)
      modifies this
      ensures deleteTarget == Some(e)
      ensures employees == old(employees) && loading == old(loading) && isModalOpen == old(isModalOpen)
      ensures formData == old(formData) && formErrors == old(formErrors)
      ensures searchTerm == old(searchTerm) && editingEmployee == old(editingEmployee)
    {
      deleteTarget := Some(e);
    }

    /** Closing the confirmation without deleting. */
    method CancelDelete()
      modifies this
      ensures deleteTarget.None?
      ensures employees == old(employees) && loading == old(loading) && isModalOpen == old(isModalOpen)
      ensures formData == old(formData) && formErrors == old(formErrors)
      ensures searchTerm == old(searchTerm) && editingEmployee == old(editingEmployee)
    {
      deleteTarget := None;
    }

    /** `handleDelete`: nothing without a target; otherwise the delete is
      sent, and on success the target clears and `fetchEmployees` runs, its
      outcome `refetch` applied as that method applies it, while a failure
      keeps the target and shows the message. */
    method HandleDelete(outcome: Result<(), string>, refetch: Result<EmployeeListResponse, string>)
      returns (calls: seq<Call>, notices: seq<Notice>)
      modifies this
      ensures old(deleteTarget).None? ==>
        && calls == [] && notices == [] && deleteTarget.None?
        && employees == old(employees) && loading == old(loading)
      ensures old(deleteTarget).Some? && outcome.Ok? ==>
        && calls == [DeleteEmployee(old(deleteTarget).value.employee_id), GetEmployees()]
        && notices == [Notice("Employee " + old(deleteTarget).value.full_name + " deleted", "success")]
                      + (if refetch.Err? then [Notice(refetch.error, "error")] else [])
        && deleteTarget.None?
        && employees == (if refetch.Ok? then refetch.value.employees else old(employees)) && !loading
      ensures old(deleteTarget).Some? && outcome.Err? ==>
        && calls == [DeleteEmployee(old(deleteTarget).value.employee_id)]
        && notices == [Notice(outcome.error, "error")]
        && deleteTarget == old(deleteTarget)
        && employees == old(employees) && loading == old(loading)
      ensures isModalOpen == old(isModalOpen)
      ensures formData == old(formData) && formErrors == old(formErrors)
      ensures searchTerm == old(searchTerm) && editingEmployee == old(editingEmployee)
    {
      calls, notices := [], [];
      if deleteTarget.None? {
        return;
      }
      var target := deleteTarget.value;
      calls := [DeleteEmployee(target.employee_id)];
      match outcome {
        case Ok(_) =>
          notices := [Notice("Employee " + target.full_name + " deleted", "success")];
          deleteTarget := None;
          var fetched := FetchEmployees(refetch);
          calls := calls + [GetEmployees()];
          notices := notices + fetched;
        case Err(message) =>
          notices := [Notice(message, "error")];
      }
    }

    /** `handleEdit`: the form is filled from the employee and the modal opens. */
    method HandleEdit(e: EmployeeResponse)
      modifies this
      ensures editingEmployee == Some(e) && formData == EmployeeBase(e.employee_id, e.full_name, e.email, e.department) && isModalOpen
      ensures employees == old(employees) && loading == old(loading) && deleteTarget == old(deleteTarget)
      ensures formErrors == old(formErrors) && searchTerm == old(searchTerm)
    {
      editingEmployee := Some(e);
      formData := EmployeeBase(e.employee_id, e.full_name, e.email, e.department);
      isModalOpen := true;
    }

    /** `handleCloseModal`: the modal closes and the form, its errors and the
      edit target reset. */
    method HandleCloseModal()
      modifies this
      ensures !isModalOpen && editingEmployee.None? && formData == EMPTY_FORM && formErrors == map[]
      ensures employees == old(employees) && loading == old(loading) && deleteTarget == old(deleteTarget)
      ensures searchTerm == old(searchTerm)
    {
      isModalOpen := false;
      editingEmployee := None;
      formData := EMPTY_FORM;
      formErrors := map[];
    }

    /** The "Add Employee" button: no edit target, modal open, form kept. */
    method OpenCreate()
      modifies this
      ensures editingEmployee.None? && isModalOpen
      ensures formData == old(formData) && formErrors == old(formErrors)
      ensures employees == old(employees) && loading == old(loading) && deleteTarget == old(deleteTarget)
      ensures searchTerm == old(searchTerm)
    {
      editingEmployee := None;
      isModalOpen := true;
    }

    /** The empty list's "Add First Employee" button only opens the modal;
      an edit target left from before stays. */
    method OpenFromEmptyList()
      modifies this
      ensures isModalOpen
      ensures editingEmployee == old(editingEmployee) && formData == old(formData) && formErrors == old(formErrors)
      ensures employees == old(employees) && loading == old(loading) && deleteTarget == old(deleteTarget)
      ensures searchTerm == old(searchTerm)
    {
      isModalOpen := true;
    }

    method SetSearchTerm(term: string)
      modifies this
      ensures searchTerm == term
      ensures employees == old(employees) && loading == old(loading) && isModalOpen == old(isModalOpen)
      ensures deleteTarget == old(deleteTarget) && formData == old(formData) && formErrors == old(formErrors)
      ensures editingEmployee == old(editingEmployee)
    {
      searchTerm := term;
    }

    /** The rows on screen. */
    function Visible(): (r: seq<EmployeeResponse>)
      reads this
      ensures forall e :: e in r <==> e in employees && SearchHit(e, searchTerm)
    {
      Search(employees, searchTerm)
    }
  }
}
