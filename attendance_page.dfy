/** The attendance page: the mark-attendance form, the two list filters and
    the refetch they trigger, the per-employee summary panel and the search
    over the loaded records. API outcomes are inputs to the handlers; the
    calls a handler makes and the notices it shows are its outputs. */
module AttendancePage {
  import opened Common
  import opened IsoDate
  import opened Http
  import opened Routing
  import opened EmployeeModel
  import opened AttendanceModel
  import opened ApiClient
  import opened App

  /** The filter inputs, as the page keeps them: both start empty. */
  datatype FilterForm = FilterForm(date: string, employee_id: string)

  const NO_FILTERS: FilterForm := FilterForm("", "")

  const SELECT_EMPLOYEE: string := "Please select an employee"

  function MarkedMessage(status: string): string
  {
    "Attendance marked as " + status
  }

  // ---------------------------------------------------------------------
  // From the page's filters to `getAttendance`'s argument
  // ---------------------------------------------------------------------

  /** The filters as the page passes them: the object has an `employee_id`
      key but `getAttendance` reads `employeeId`, so the employee filter
      arrives as undefined. */
  function ClientFiltersAsWritten(f: FilterForm): AttendanceFilters
  {
    AttendanceFilters(Some(f.date), None)
  }

  /** As written, the request never carries the employee filter: the server
      sees the date filter alone, whatever employee is chosen. */
  lemma EmployeeFilterNeverSent(f: FilterForm, other: string)
    ensures Resolve(GET, AttendanceEndpoint(ClientFiltersAsWritten(f)))
         == Some(ListAttendanceRoute(if f.date != "" then Some(f.date) else None, None))
    ensures AttendanceEndpoint(ClientFiltersAsWritten(f))
         == AttendanceEndpoint(ClientFiltersAsWritten(f.(employee_id := other)))
  {
    FiltersReachServer(ClientFiltersAsWritten(f));
  }

  /** The filters as intended: both inputs passed under the names
      `getAttendance` reads. */
  function ClientFilters(f: FilterForm): AttendanceFilters
  {
    AttendanceFilters(Some(f.date), Some(f.employee_id))
  }

  /** With the intended conversion each non-empty filter reaches the list
      route, and an empty one is not sent. */
  lemma FilterFormReachesServer(f: FilterForm)
    ensures Resolve(GET, AttendanceEndpoint(ClientFilters(f)))
         == Some(ListAttendanceRoute(
                   if f.date != "" then Some(f.date) else None,
                   if f.employee_id != "" then Some(f.employee_id) else None))
  {
    FiltersReachServer(ClientFilters(f));
  }

  /** Cleared filters ask for the whole list, with no query string, which
      is the request the page makes on mount; this holds for the filters as
      the page passes them and as intended alike. */
  lemma NoFiltersNoQuery()
    ensures AttendanceEndpoint(ClientFiltersAsWritten(NO_FILTERS)) == AttendanceEndpoint(AttendanceFilters(None, None))
    ensures AttendanceEndpoint(ClientFilters(NO_FILTERS)) == AttendanceEndpoint(AttendanceFilters(None, None))
    ensures '?' !in AttendanceEndpoint(ClientFiltersAsWritten(NO_FILTERS))
    ensures Resolve(GET, AttendanceEndpoint(ClientFiltersAsWritten(NO_FILTERS))) == Some(ListAttendanceRoute(None, None))
  {
    QueryMarkSpec(ClientFiltersAsWritten(NO_FILTERS));
    FiltersReachServer(ClientFiltersAsWritten(NO_FILTERS));
  }

  // ---------------------------------------------------------------------
  // Record search
  // ---------------------------------------------------------------------

  /** `employee_name?.toLowerCase().includes(term)`: a missing name never
      matches. */
  predicate NameHit(name: Option<string>, term: string)
  {
    name.Some? && Includes(Lower(name.value), Lower(term))
  }

  predicate RecordHit(r: AttendanceResponse, term: string)
  {
    NameHit(r.employee_name, term) || Includes(Lower(r.employee_id), Lower(term))
  }

  function SearchRecords(rs: seq<AttendanceResponse>, term: string): seq<AttendanceResponse>
  {
    Filter(rs, (r: AttendanceResponse) => RecordHit(r, term))
  }

  /** The search keeps exactly the records whose name or employee id
      contains the term, in the loaded order; an empty term keeps all. */
  lemma SearchRecordsSpec(rs: seq<AttendanceResponse>, term: string)
    ensures forall r :: (r in SearchRecords(rs, term)
        <==> r in rs && (NameHit(r.employee_name, term) || Includes(Lower(r.employee_id), Lower(term))))
    ensures IsSubsequence(SearchRecords(rs, term), rs)
    ensures term == "" ==> SearchRecords(rs, term) == rs
  {
    FilterKeepsOrder(rs, (r: AttendanceResponse) => RecordHit(r, term));
    if term == "" {
      forall r | r in rs ensures RecordHit(r, term) {
        IncludesIff(Lower(r.employee_id), Lower(term));
        assert OccursAt(Lower(r.employee_id), Lower(term), 0);
      }
      FilterKeepsAll(rs, (r: AttendanceResponse) => RecordHit(r, term));
    }
  }

  /** A record without a name is found through its employee id only. */
  lemma NamelessRecordHit(r: AttendanceResponse, term: string)
    requires r.employee_name.None?
    ensures RecordHit(r, term) <==> Includes(Lower(r.employee_id), Lower(term))
  {
  }

  // ---------------------------------------------------------------------
  // The page
  // ---------------------------------------------------------------------

  class AttendancePageState {
    var employees: seq<EmployeeResponse>
    var attendance: seq<AttendanceResponse>
    var loading: bool
    var selectedEmployee: Option<string>
    var summary: Option<AttendanceSummary>
    var formData: AttendancePayload
    var filters: FilterForm
    var searchTerm: string

    /** The state on mount: the form names no employee, dates today (the
      browser's UTC date, a parameter here) and says Present; both filters
      are empty. */
    constructor (today: Date)
      ensures formData == AttendancePayload("", IsoFormat(today), StatusValue(Present))
      ensures filters == NO_FILTERS && searchTerm == ""
      ensures employees == [] && attendance == [] && loading
      ensures selectedEmployee.None? && summary.None?
    {
      employees := [];
      attendance := [];
      loading := true;
      selectedEmployee := None;
      summary := None;
      formData := AttendancePayload("", IsoFormat(today), StatusValue(Present));
      filters := NO_FILTERS;
      searchTerm := "";
    }

    /** The mount effect: the employees and the unfiltered records are
      fetched together; either failure shows its message and keeps both
      lists; loading ends either way. */
    method FetchData(outcome: Result<(EmployeeListResponse, AttendanceListResponse), string>)
      returns (calls: seq<Call>, notices: seq<Notice>)
      modifies this
      ensures calls == [GetEmployees(), Call(AttendanceEndpoint(AttendanceFilters(None, None)), NO_OPTIONS)]
      ensures outcome.Ok? ==> employees == outcome.value.0.employees && attendance == outcome.value.1.records
      ensures outcome.Ok? ==> notices == []
      ensures outcome.Err? ==> employees == old(employees) && attendance == old(attendance)
      ensures outcome.Err? ==> notices == [Notice(outcome.error, "error")]
      ensures !loading
      ensures selectedEmployee == old(selectedEmployee) && summary == old(summary)
      ensures formData == old(formData) && filters == old(filters) && searchTerm == old(searchTerm)
    {
      loading := true;
      var listCall := GetAttendance(AttendanceFilters(None, None));
      calls := [GetEmployees(), listCall];
      notices := [];
      match outcome {
        case Ok((employeesData, attendanceData)) =>
          employees := employeesData.employees;
          attendance := attendanceData.records;
        case Err(message) =>
          notices := [Notice(message, "error")];
      }
      loading := false;
    }

    /** `fetchAttendance`: the list is fetched with the current filters as
      the page hands them to `getAttendance` (so the date filter alone
      reaches the server) and replaced on success; a failure shows its
      message. */
    method FetchAttendance(outcome: Result<AttendanceListResponse, string>)
      returns (calls: seq<Call>, notices: seq<Notice>)
      modifies this
      ensures calls == [Call(AttendanceEndpoint(ClientFiltersAsWritten(filters)), NO_OPTIONS)]
      ensures outcome.Ok? ==> attendance == outcome.value.records && notices == []
      ensures outcome.Err? ==> attendance == old(attendance) && notices == [Notice(outcome.error, "error")]
      ensures employees == old(employees) && loading == old(loading)
      ensures selectedEmployee == old(selectedEmployee) && summary == old(summary)
      ensures formData == old(formData) && filters == old(filters) && searchTerm == old(searchTerm)
    {
      var listCall := GetAttendance(ClientFiltersAsWritten(filters));
      calls := [listCall];
      notices := [];
      match outcome {
        case Ok(data) => attendance := data.records;
        case Err(message) => notices := [Notice(message, "error")];
      }
    }

    /** A change of the filters, and the effect it triggers: the list is
      fetched again only once the first load has finished. */
    method SetFilters(f: FilterForm, outcome: Result<AttendanceListResponse, string>)
      returns (calls: seq<Call>, notices: seq<Notice>)
      modifies this
      ensures filters == f
      ensures old(loading) ==> calls == [] && notices == [] && attendance == old(attendance)
      ensures !old(loading) ==> calls == [Call(AttendanceEndpoint(ClientFiltersAsWritten(f)), NO_OPTIONS)]
      ensures !old(loading) && outcome.Ok? ==> attendance == outcome.value.records && notices == []
      ensures !old(loading) && outcome.Err? ==> attendance == old(attendance) && notices == [Notice(outcome.error, "error")]
      ensures employees == old(employees) && loading == old(loading)
      ensures selectedEmployee == old(selectedEmployee) && summary == old(summary)
      ensures formData == old(formData) && searchTerm == old(searchTerm)
    {
      filters := f;
      calls, notices := [], [];
      if !loading {
        calls, notices := FetchAttendance(outcome);
      }
    }

    /** `clearFilters`: both filters become empty, after which the effect
      refetches the whole list; clearing twice leaves the same filters. */
    method ClearFilters(outcome: Result<AttendanceListResponse, string>)
      returns (calls: seq<Call>, notices: seq<Notice>)
      modifies this
      ensures filters == NO_FILTERS
      ensures old(loading) ==> calls == [] && notices == [] && attendance == old(attendance)
      ensures !old(loading) ==> calls == [Call(AttendanceEndpoint(AttendanceFilters(None, None)), NO_OPTIONS)]
      ensures !old(loading) && outcome.Ok? ==> attendance == outcome.value.records && notices == []
      ensures !old(loading) && outcome.Err? ==> attendance == old(attendance) && notices == [Notice(outcome.error, "error")]
      ensures employees == old(employees) && loading == old(loading)
      ensures selectedEmployee == old(selectedEmployee) && summary == old(summary)
      ensures formData == old(formData) && searchTerm == old(searchTerm)
    {
      calls, notices := SetFilters(NO_FILTERS, outcome);
      NoFiltersNoQuery();
    }

    /** The summary selector and its effect: an empty choice selects
      nobody and clears the summary; a choice fetches that employee's
      summary, which is cleared, silently, if the fetch fails. */
    method SelectEmployee(value: string, outcome: Result<AttendanceSummary, string>)
      returns (calls: seq<Call>)
      modifies this
      ensures selectedEmployee == if value == "" then None else Some(value)
      ensures value == "" ==> calls == [] && summary.None?
      ensures value != "" ==> calls == [GetAttendanceSummary(value)]
      ensures value != "" ==> summary == if outcome.Ok? then Some(outcome.value) else None
      ensures employees == old(employees) && attendance == old(attendance) && loading == old(loading)
      ensures formData == old(formData) && filters == old(filters) && searchTerm == old(searchTerm)
    {
      selectedEmployee := if value == "" then None else Some(value);
      calls := [];
      if selectedEmployee.Some? {
        calls := [GetAttendanceSummary(selectedEmployee.value)];
        summary := if outcome.Ok? then Some(outcome.value) else None;
      } else {
        summary := None;
      }
    }

    /** The summary refetch after a mark: only when the panel shows the
      employee just marked; a failure here is shown, unlike in the
      selection effect, and keeps the previous summary. */
    method RefreshSummary(employeeId: string, refreshed: Result<AttendanceSummary, string>)
      returns (calls: seq<Call>, notices: seq<Notice>)
      modifies this
      ensures calls == if selectedEmployee == Some(employeeId) then [GetAttendanceSummary(employeeId)] else []
      ensures notices == if selectedEmployee == Some(employeeId) && refreshed.Err?
                         then [Notice(refreshed.error, "error")] else []
      ensures summary == if selectedEmployee == Some(employeeId) && refreshed.Ok?
                         then Some(refreshed.value) else old(summary)
      ensures employees == old(employees) && attendance == old(attendance) && loading == old(loading)
      ensures selectedEmployee == old(selectedEmployee) && formData == old(formData)
      ensures filters == old(filters) && searchTerm == old(searchTerm)
    {
      calls, notices := [], [];
      if selectedEmployee == Some(employeeId) {
        calls := [GetAttendanceSummary(employeeId)];
        match refreshed {
          case Ok(data) => summary := Some(data);
          case Err(message) => notices := [Notice(message, "error")];
        }
      }
    }

    /** `handleSubmit`: without an employee a warning and no call.
      Otherwise the mark is sent; on success the status is announced, the
      list is refetched with the current filters as the page passes them,
      the employee and status
      reset while the date stays, and the summary is refetched when it
      shows the employee just marked. A failed mark shows its message and
      changes nothing. */
    method HandleSubmit(
      mark: Result<AttendanceResponse, string>,
      list: Result<AttendanceListResponse, string>,
      refreshed: Result<AttendanceSummary, string>)
      returns (calls: seq<Call>, notices: seq<Notice>)
      modifies this
      ensures old(formData).employee_id == "" ==>
        && calls == [] && notices == [Notice(SELECT_EMPLOYEE, "warning")]
        && formData == old(formData) && attendance == old(attendance) && summary == old(summary)
      ensures old(formData).employee_id != "" && mark.Err? ==>
        && calls == [MarkAttendance(old(formData))]
        && notices == [Notice(mark.error, "error")]
        && formData == old(formData) && attendance == old(attendance) && summary == old(summary)
      ensures old(formData).employee_id != "" && mark.Ok? ==>
        var viewing := old(selectedEmployee) == Some(old(formData).employee_id);
        && calls == [MarkAttendance(old(formData)), Call(AttendanceEndpoint(ClientFiltersAsWritten(filters)), NO_OPTIONS)]
                    + (if viewing then [GetAttendanceSummary(old(formData).employee_id)] else [])
        && notices == [Notice(MarkedMessage(old(formData).status), "success")]
                      + (if list.Err? then [Notice(list.error, "error")] else [])
                      + (if viewing && refreshed.Err? then [Notice(refreshed.error, "error")] else [])
        && formData == AttendancePayload("", old(formData).date, StatusValue(Present))
        && attendance == (if list.Ok? then list.value.records else old(attendance))
        && summary == (if viewing && refreshed.Ok? then Some(refreshed.value) else old(summary))
      ensures employees == old(employees) && loading == old(loading) && filters == old(filters)
      ensures selectedEmployee == old(selectedEmployee) && searchTerm == old(searchTerm)
    {
      calls, notices := [], [];
      if formData.employee_id == "" {
        notices := [Notice(SELECT_EMPLOYEE, "warning")];
        return;
      }
      var submitted := formData;
      calls := [MarkAttendance(submitted)];
      if mark.Err? {
        notices := [Notice(mark.error, "error")];
        return;
      }
      var listCalls, listNotices := FetchAttendance(list);
      formData := AttendancePayload("", submitted.date, StatusValue(Present));
      var summaryCalls, summaryNotices := RefreshSummary(submitted.employee_id, refreshed);
      calls := calls + listCalls + summaryCalls;
      notices := [Notice(MarkedMessage(submitted.status), "success")] + listNotices + summaryNotices;
    }

    /** The three inputs of the mark form. */
    method SetFormEmployee(value: string)
      modifies this
      ensures formData == old(formData).(employee_id := value)
      ensures employees == old(employees) && attendance == old(attendance) && loading == old(loading)
      ensures selectedEmployee == old(selectedEmployee) && summary == old(summary)
      ensures filters == old(filters) && searchTerm == old(searchTerm)
    {
      formData := formData.(employee_id := value);
    }

    method SetFormDate(value: string)
      modifies this
      ensures formData == old(formData).(date := value)
      ensures employees == old(employees) && attendance == old(attendance) && loading == old(loading)
      ensures selectedEmployee == old(selectedEmployee) && summary == old(summary)
      ensures filters == old(filters) && searchTerm == old(searchTerm)
    {
      formData := formData.(date := value);
    }

    method SetFormStatus(value: string)
      modifies this
      ensures formData == old(formData).(status := value)
      ensures employees == old(employees) && attendance == old(attendance) && loading == old(loading)
      ensures selectedEmployee == old(selectedEmployee) && summary == old(summary)
      ensures filters == old(filters) && searchTerm == old(searchTerm)
    {
      formData := formData.(status := value);
    }

    method SetSearchTerm(term: string)
      modifies this
      ensures searchTerm == term
      ensures employees == old(employees) && attendance == old(attendance) && loading == old(loading)
      ensures selectedEmployee == old(selectedEmployee) && summary == old(summary)
      ensures formData == old(formData) && filters == old(filters)
    {
      searchTerm := term;
    }

    /** The rows on screen; the loaded list itself is not changed. */
    function VisibleRecords(): (r: seq<AttendanceResponse>)
      reads this
      ensures forall x :: x in r <==> x in attendance && RecordHit(x, searchTerm)
    {
      SearchRecords(attendance, searchTerm)
    }
  }
}
