# HRMS Lite, modelled in Dafny

HRMS Lite is a small human-resources application. Its FastAPI backend keeps
two MongoDB collections: `employees` (id, name, email, department) and
`attendance` (one Present/Absent mark per employee and day). Its React
frontend has three pages (Dashboard, Employees, Attendance) that talk to the
backend through one `fetch` wrapper. This project models the core of both
halves and proves what each operation promises:

- **Schemas** (`employee_model.dfy`, `attendance_model.dfy`, `iso_date.dfy`,
  `object_id.dfy`). These are the Pydantic request and response models with
  their field bounds. Dates are modelled with their ISO text and document ids
  with their 24-digit hexadecimal text. Each format has a round-trip lemma.
- **Store** (`database.dfy`, `ordering.dfy`). The two collections are
  sequences in natural order. `find_one`, `count_documents`, `delete_many`,
  `update_many` and `.sort(key, -1)` are functions on them. A class `Db`
  holds both collections. Its invariant is the three unique indexes, the
  schema bounds, and every attendance record naming an existing employee.
- **Routes** (`employee_routes.dfy`, `attendance_routes.dfy`, `stats.dfy`).
  Each route handler is a method on `Db`. It returns the response or the
  `HTTPException` (status and detail). It keeps the store invariant, and
  states the new contents of both collections.
- **Client** (`form_encoding.dfy`, `routing.dfy`, `api_client.dfy`). This
  covers the request each `api.js` wrapper issues and the
  `URLSearchParams` query string. It also covers which backend route that
  request reaches, and how a reply or a network failure becomes the value or
  error a page sees.
- **Pages** (`app_state.dfy`, `employees_page.dfy`, `attendance_page.dfy`,
  `dashboard_page.dfy`). Each component's `useState` variables are fields of
  a class, and each handler is a method. The outcome of every API call is an
  input. The requests a handler issues and the toasts it raises are its
  outputs. The handlers follow the code as written, including the two
  defects listed under "## Findings".

`common.dfy` holds the JavaScript string operations the pages use: `trim`,
`toLowerCase`, `includes`, `filter`, and decimal digits. `http.dfy` holds
the status codes.

## Model

| member | source | states |
|---|---|---|
| Common.Trim | frontend/src/pages/Employees.jsx:99-117 | a trimmed field is empty exactly when the field holds only JavaScript white space |
| Common.Lower | frontend/src/pages/Employees.jsx:263-264 | lower-casing keeps the length of the text |
| Common.IncludesIff | frontend/src/pages/Employees.jsx:263-264 | `includes` holds exactly when the needle occurs at some position of the text |
| Common.Filter | frontend/src/App.jsx:22 | the filtered list holds exactly the elements that pass the test, and is no longer than the list |
| Common.FilterKeepsOrder | frontend/src/App.jsx:22 | filtering keeps the remaining elements in their original order (a subsequence) |
| Common.FilterKeepsAll | frontend/src/App.jsx:27 | a filter that every element passes returns the list unchanged |
| Common.FilterCommutes | frontend/src/App.jsx:22-27 | two filters give the same list in either order |
| Common.FixedDigitsRoundTrip | backend/routes/attendance.py:64 | a number printed with a fixed number of digits reads back as the same number |
| Common.NatToStringRoundTrip | frontend/src/services/api.js:34 | a status printed in decimal reads back as the same status |
| IsoDate.IsoFormat | backend/routes/attendance.py:64 | `isoformat()` gives ten characters with dashes at positions 4 and 7 |
| IsoDate.ParseIso | backend/models/attendance.py:26-30 | only an existing calendar date is accepted |
| IsoDate.IsoRoundTrip | backend/routes/attendance.py:76 | a valid date stored as ISO text parses back to the same date |
| IsoDate.ParseIsoFormat | backend/models/attendance.py:26-30 | only the canonical `YYYY-MM-DD` text of a date parses to it |
| IsoDate.IsoFormatInjective | backend/routes/attendance.py:62-65 | two valid dates have the same ISO text exactly when they are equal, so the duplicate test on text is a test on dates |
| IsoDate.LexAppend | backend/routes/attendance.py:117 | comparing texts whose leading parts have equal lengths compares those parts first, and the rest only when they agree |
| IsoDate.FixedDigitsLex | backend/routes/attendance.py:117 | zero-padded decimal texts of one width sort as their numbers do |
| IsoDate.IsoOrderIsDateOrder | backend/routes/attendance.py:116-121 | for valid dates, Python's string order on the stored ISO texts is the order of DateKey, so the sort on the text is the sort on the date |
| ObjectIds.OidText | backend/routes/attendance.py:21-30 | `str(_id)` is 24 characters long |
| ObjectIds.ParseObjectId | backend/routes/attendance.py:219-225 | only 24-character text is accepted as an id |
| ObjectIds.ObjectIdRoundTrip | backend/routes/attendance.py:219-227 | the id text a response carries parses back to the document's id |
| ObjectIds.OidTextInjective | backend/routes/attendance.py:227-233 | two ids have the same text exactly when they are equal |
| EmployeeModel.ValidateEmployee | backend/models/employee.py:10-42 | a body is accepted exactly when the id has 1-20 characters, the name 2-100, the email has the address shape, and the department 1-50; an accepted body is returned unchanged |
| EmployeeModel.EmptyEmployeeList | backend/models/employee.py:53-56 | the default list response is empty with total 0 |
| AttendanceModel.ParseStatus | backend/models/attendance.py:12-15 | an accepted status text is the value of the status it gives |
| AttendanceModel.StatusValueRoundTrip | backend/models/attendance.py:12-15 | each status's value parses back to that status |
| AttendanceModel.ParseAttendanceCreate | backend/models/attendance.py:18-40 | a payload is accepted exactly when the employee id is non-empty, the date parses and the status is Present or Absent; the result carries those values |
| AttendanceModel.PayloadRoundTrip | backend/models/attendance.py:18-40 | a valid record sent as JSON text is accepted back as the same record |
| Ordering.SortDesc | backend/routes/employees.py:91 | `.sort(key, -1)` gives the documents in non-increasing key order, and they are a permutation of the input |
| Ordering.SortDescElements | backend/routes/employees.py:91 | sorting keeps the count and the set of documents |
| Database.FindEmployee | backend/routes/employees.py:50 | `find_one` gives the first document in natural order that matches the filter, or none when no document matches |
| Database.FindByIdUnique | backend/database.py:27 | under the unique id index, the lookup by id finds exactly the document with that id |
| Database.FindByDocId | backend/routes/employees.py:74 | the lookup by `_id` finds the document with that id |
| Database.FindByIdIff | backend/routes/employees.py:116-122 | the lookup by id succeeds exactly when some employee has that id |
| Database.RemoveAt | backend/routes/employees.py:152 | `delete_one` leaves every other document, in order |
| Database.SetFields | backend/routes/employees.py:205-209 | `$set` of the four fields keeps `_id` and `created_at` and replaces the rest |
| Database.Select | backend/routes/attendance.py:117 | `find(query)` holds exactly the records that match the query |
| Database.Reject | backend/routes/employees.py:155 | `delete_many(query)` leaves exactly the records that do not match |
| Database.SelectAll | backend/routes/attendance.py:105-109 | the empty query selects every record, in order |
| Database.CountByStatus | backend/main.py:64-66 | the records of a query split into Present and Absent counts that add up to its total |
| Database.FindRecord | backend/routes/attendance.py:62-65 | `find_one` on attendance gives the first matching record, or none |
| Database.Rekey | backend/routes/employees.py:213-217 | `update_many` moves exactly the old id's records to the new id and leaves the rest |
| Database.NameMapLookup | backend/routes/attendance.py:112-114 | the id-to-name map has exactly the stored ids and gives each employee's name |
| Database.Db.constructor | backend/database.py:27-29 | an empty database satisfies the unique indexes and referential integrity |
| Database.InsertEmployeeKeeps | backend/routes/employees.py:66-75 | inserting an employee whose id, email and `_id` are new keeps the store invariant |
| Database.InsertRecordKeeps | backend/routes/attendance.py:74-85 | inserting a record for an existing employee on an unmarked day keeps the store invariant |
| Database.RejectKeepsApart | backend/database.py:29 | deleting records keeps the (employee, date) index unique |
| Database.DeleteEmployeeKeeps | backend/routes/employees.py:152-155 | deleting an employee and then their records keeps the store invariant |
| Database.CascadeKeepsOwners | backend/routes/employees.py:155 | after the cascade, every remaining record still names an existing employee |
| Database.RemoveEmployeeKeeps | backend/routes/employees.py:152 | removing an employee keeps the employee-side indexes and bounds |
| Database.DeleteRecordKeeps | backend/routes/attendance.py:227 | deleting one record keeps the store invariant |
| Database.SetFieldsKeeps | backend/routes/employees.py:205-209 | an update to a free id and a free email keeps the employee-side indexes |
| Database.RekeyKeeps | backend/routes/employees.py:213-217 | moving records to a new, unused id keeps the attendance index and referential integrity |
| Database.UpdateEmployeeKeeps | backend/routes/employees.py:168-221 | the whole update, with its record move, keeps the store invariant |
| EmployeeRoutes.EmployeeHelper | backend/routes/employees.py:17-26 | the response carries the document's four fields and creation time, and its id text reads back to the document id |
| EmployeeRoutes.CreateEmployee | backend/routes/employees.py:39-75 | 409 for a taken id, then 409 for a taken email; otherwise success, exactly one document appended, and the response echoes the body with the new id and time; the invariant is kept |
| EmployeeRoutes.ListingSorted | backend/routes/employees.py:91-94 | the listing has one entry per employee, newest `created_at` first |
| EmployeeRoutes.ListingComplete | backend/routes/employees.py:91-94 | every stored employee appears in the listing, and nothing else does |
| EmployeeRoutes.GetAllEmployees | backend/routes/employees.py:83-99 | the response is the sorted listing, and `total` is its length |
| EmployeeRoutes.GetEmployee | backend/routes/employees.py:110-124 | success exactly when the id exists, returning that employee; otherwise 404 with the route's message |
| EmployeeRoutes.DeleteEmployee | backend/routes/employees.py:135-157 | 404 for an unknown id; otherwise the employee and all their records are gone, everything else stays, and the invariant is kept |
| EmployeeRoutes.EmailFreeForOthers | backend/routes/employees.py:194-202 | when the `$ne` query finds nothing, no other employee holds the email |
| EmployeeRoutes.UpdateEmployee | backend/routes/employees.py:168-221 | 404, 409 for a taken id, 409 for an email another employee holds, in that order, and success exactly when none applies; on success the employee's fields are replaced in place, the records follow an id change, and the invariant is kept |
| AttendanceRoutes.MarkAttendance | backend/routes/attendance.py:44-85 | 404 for an unknown employee, then 409 for a day already marked, and success exactly otherwise; one record is appended and returned with the employee's name; the invariant is kept |
| AttendanceRoutes.RecordByOid | backend/routes/attendance.py:84 | the lookup by `_id` finds the record with that id |
| AttendanceRoutes.ListQueryMatches | backend/routes/attendance.py:105-109 | a record matches the list query exactly when it has the filter date and, if the employee filter is non-empty, that employee |
| AttendanceRoutes.ReportSorted | backend/routes/attendance.py:116-121 | the report has one entry per matching record, latest date first |
| AttendanceRoutes.ReportSound | backend/routes/attendance.py:112-121 | each entry is a matching record, shown with its employee's name |
| AttendanceRoutes.ReportComplete | backend/routes/attendance.py:112-121 | every matching record appears in the report |
| AttendanceRoutes.GetAllAttendance | backend/routes/attendance.py:93-126 | the response is the report for the query the filters build, and `total` is its length |
| AttendanceRoutes.EmployeeReportAgrees | backend/routes/attendance.py:137-160 | one employee's history is the general report filtered by that employee |
| AttendanceRoutes.GetEmployeeAttendance | backend/routes/attendance.py:137-160 | success exactly when the employee exists, giving their records latest first; otherwise 404 |
| AttendanceRoutes.GetAttendanceSummary | backend/routes/attendance.py:171-202 | 404 for an unknown employee; otherwise the employee's stored name, the total and present counts of their records, absent as total minus present (which is the count of Absent records), and the percentage present/total×100, which lies in 0..100 and is 100 exactly when there are no absences and at least one day, and 0 with no days |
| AttendanceRoutes.PercentageBounds | backend/routes/attendance.py:193 | present/total*100 lies in 0..100, and equals 100 exactly when every day is present |
| AttendanceRoutes.DeleteAttendance | backend/routes/attendance.py:213-235 | 400 for text that is not an ObjectId, 404 for an unknown id, and success exactly otherwise; on success the record with that id is gone and nothing else changes |
| AttendanceRoutes.NoRecordHasText | backend/routes/attendance.py:219-233 | text that leads to no record is not the id of any record |
| AttendanceRoutes.DeletedRecordGone | backend/routes/attendance.py:227-233 | after the deletion no record with that id text remains |
| Stats.GetStats | backend/main.py:58-73 | the counts of employees, records, Present and Absent marks; Present and Absent add up to the records |
| FormEncoding.Utf8 | frontend/src/services/api.js:79-83 | a character takes 1 to 4 bytes, and exactly one byte when it is ASCII |
| FormEncoding.Utf8RoundTrip | frontend/src/services/api.js:79-83 | UTF-8 decoding undoes UTF-8 encoding |
| FormEncoding.FormRoundTrip | frontend/src/services/api.js:80-83 | a form-encoded value decodes back to the value |
| FormEncoding.FormEncodeNoSeparators | frontend/src/services/api.js:83 | an encoded value contains no `&`, `=` or `?` |
| FormEncoding.QueryRoundTrip | frontend/src/services/api.js:79-84 | the server's query parser reads back exactly the parameters `URLSearchParams` serialised, in order |
| Routing.JoinPathSegments | backend/main.py:44-45 | a path built from safe segments splits back into those segments |
| Routing.ResolvePath | backend/main.py:44-45 | a path built from segments reaches the route those segments select |
| Routing.ResolvePathQuery | backend/routes/attendance.py:88-95 | a query string does not change the path's route; it reaches the route with the query's parameters |
| Routing.LastValue | backend/routes/attendance.py:94-95 | a parameter's value is present exactly when the parameter occurs, and is the value of its last occurrence |
| ApiClient.ApiBaseUrl | frontend/src/services/api.js:7 | the base URL is the environment value when it is set and non-empty, otherwise the default; never empty |
| ApiClient.Issue | frontend/src/services/api.js:13-21 | the URL is base plus endpoint; the body is passed through; GET is the default method; caller headers replace the JSON header |
| ApiClient.EmployeeWrapperRoutes | frontend/src/services/api.js:48-74 | each employee wrapper reaches its backend route with the same id |
| ApiClient.AttendanceWrapperRoutes | frontend/src/services/api.js:87-106 | each attendance wrapper with an id reaches its backend route with that id |
| ApiClient.CollectionWrapperRoutes | frontend/src/services/api.js:95-112 | marking attendance reaches the create route, and the stats wrapper reaches `/api/stats` |
| ApiClient.WrapperRequests | frontend/src/services/api.js:48-112 | each wrapper sends its HTTP method and its JSON body, with the JSON header |
| ApiClient.GetAttendance | frontend/src/services/api.js:78-85 | the request is a GET of the attendance endpoint for the filters |
| ApiClient.FilterParamsSpec | frontend/src/services/api.js:79-81 | a parameter is appended exactly when its filter is truthy; date first, employee last |
| ApiClient.FilterParamsRead | frontend/src/services/api.js:79-81 | reading the parameters back gives each truthy filter and nothing for the others |
| ApiClient.SerializeEmpty | frontend/src/services/api.js:83-84 | the query string is empty exactly when there are no parameters |
| ApiClient.ListEndpointMark | frontend/src/services/api.js:84 | the endpoint carries `?` exactly when there are parameters |
| ApiClient.QueryMarkSpec | frontend/src/services/api.js:78-84 | the attendance endpoint carries `?` exactly when a filter is truthy |
| ApiClient.QueryHasNoQuestionMark | frontend/src/services/api.js:83 | a serialised query string contains no `?` |
| ApiClient.ListEndpointRoute | frontend/src/services/api.js:84 | the attendance endpoint reaches the list route with the parameters' date and employee values |
| ApiClient.ListTargetRoute | backend/routes/attendance.py:88-95 | any query string that parses reaches the list route with its date and employee values |
| ApiClient.ListDispatch | backend/routes/attendance.py:88-95 | the `attendance` collection path with a parsed query dispatches to the list route |
| ApiClient.FiltersReachServer | frontend/src/services/api.js:78-85 | the list route receives exactly the truthy filters |
| ApiClient.Rethrow | frontend/src/services/api.js:38-42 | a "Failed to fetch" TypeError never leaves the wrapper; any other error passes through unchanged |
| ApiClient.FetchApi | frontend/src/services/api.js:12-44 | success exactly for a 204 or a 2xx with a JSON body; the value is null exactly for a 204; an error is never the raw "Failed to fetch" |
| ApiClient.FetchReplies | frontend/src/services/api.js:27-37 | a 204 gives null, and a 2xx with JSON gives the parsed data |
| ApiClient.FetchHttpError | frontend/src/services/api.js:33-35 | a non-2xx status raises an Error whose message is the `detail`, or else "HTTP error! status: " followed by the status in decimal |
| ApiClient.BackendErrorReachesPage | frontend/src/services/api.js:33-35 | an HTTPException's detail becomes the message the page shows |
| ApiClient.FetchFailures | frontend/src/services/api.js:38-42 | a failed fetch becomes the "Unable to connect" error; other errors pass through unchanged |
| App.WithoutId | frontend/src/App.jsx:22 | removing a toast id keeps exactly the other toasts, in order |
| App.WithoutAbsentId | frontend/src/App.jsx:27 | removing an id that no toast has changes nothing |
| App.WithoutIdIdempotent | frontend/src/App.jsx:27 | removing the same toast twice is the same as removing it once |
| App.WithoutIdCommutes | frontend/src/App.jsx:22-27 | two removals, by the timer and by the close button, give the same list in either order |
| App.AddThenRemove | frontend/src/App.jsx:16-23 | a toast added and then removed by its timer leaves the earlier list, when its id was fresh |
| App.AppState.constructor | frontend/src/App.jsx:10-11 | no toasts, the sidebar closed, no timers |
| App.AppState.ToggleSidebar | frontend/src/App.jsx:13 | the sidebar flips; the toasts are untouched |
| App.AppState.CloseSidebar | frontend/src/App.jsx:14 | the sidebar is closed; the toasts are untouched |
| App.AppState.AddToast | frontend/src/App.jsx:16-24 | appends a toast with id `Date.now()` and type "success" by default, and starts its timer |
| App.AppState.RemoveToast | frontend/src/App.jsx:26-28 | removes exactly the toasts with that id |
| App.AppState.TimerFires | frontend/src/App.jsx:20-23 | a timer's expiry removes its toast and retires the timer |
| EmployeesPage.EmailTestSound | frontend/src/pages/Employees.jsx:111 | an address the test accepts matches `^[^\s@]+@[^\s@]+\.[^\s@]+$` |
| EmployeesPage.EmailTestComplete | frontend/src/pages/Employees.jsx:111 | every address matching the pattern is accepted by the test |
| EmployeesPage.EmailTestIff | frontend/src/pages/Employees.jsx:111 | the test accepts exactly the addresses the regular expression matches |
| EmployeesPage.EmailTestShape | backend/models/employee.py:26-30 | an address the page accepts has the shape the backend requires |
| EmployeesPage.FormErrorsSpec | frontend/src/pages/Employees.jsx:96-121 | each field has an error exactly when its check fails, with the message the page shows for that check |
| EmployeesPage.AcceptedFormIsValid | frontend/src/pages/Employees.jsx:96-121 | a form with no errors, within the schema's maximum lengths, is a body the backend accepts |
| EmployeesPage.EditSubmitAlwaysFails | frontend/src/pages/Employees.jsx:141-143 | as written, every edit submit fails with "updateEmployee is not defined"; a create submit issues the POST |
| EmployeesPage.EditSubmitReachesUpdate | frontend/src/pages/Employees.jsx:141-148 | with the wrapper imported, an edit issues a PUT of the form to the employee's update route, and a create reaches the create route |
| EmployeesPage.SearchSpec | frontend/src/pages/Employees.jsx:261-265 | the search keeps exactly the employees whose name or id contains the term, ignoring case, in order; an empty term keeps all |
| EmployeesPage.EmployeesPageState.constructor | frontend/src/pages/Employees.jsx:60-76 | the page starts loading, with an empty list, a closed modal, an empty form and no errors |
| EmployeesPage.EmployeesPageState.FetchEmployees | frontend/src/pages/Employees.jsx:79-89 | success replaces the list; failure keeps it and raises an error toast; loading ends either way |
| EmployeesPage.EmployeesPageState.ValidateForm | frontend/src/pages/Employees.jsx:96-121 | the errors become those of the form, and the form is valid exactly when there are none |
| EmployeesPage.EmployeesPageState.HandleChange | frontend/src/pages/Employees.jsx:124-131 | the named field takes the value, and that field's error is blanked if it had one |
| EmployeesPage.EmployeesPageState.HandleSubmit | frontend/src/pages/Employees.jsx:134-160 | an invalid form sends nothing and shows its errors; an edit sends nothing and toasts "updateEmployee is not defined" (the wrapper is not imported, line 2), leaving the modal, the form and the edit target as they were; a create sends the POST; its success toasts, closes and resets the modal, and refetches the list, applying the refetch's outcome; its failure toasts the message and keeps the modal |
| EmployeesPage.EmployeesPageState.RequestDelete | frontend/src/pages/Employees.jsx:288 | the employee becomes the delete target |
| EmployeesPage.EmployeesPageState.CancelDelete | frontend/src/pages/Employees.jsx:382 | the confirm dialog closes without a request |
| EmployeesPage.EmployeesPageState.HandleDelete | frontend/src/pages/Employees.jsx:163-177 | without a target nothing is sent; otherwise the DELETE is sent; success toasts, clears the target and refetches the list, applying the refetch's outcome; failure toasts and keeps the dialog |
| EmployeesPage.EmployeesPageState.HandleEdit | frontend/src/pages/Employees.jsx:180-189 | the modal opens in edit mode with the employee's four fields |
| EmployeesPage.EmployeesPageState.HandleCloseModal | frontend/src/pages/Employees.jsx:192-197 | the modal closes and the form, its errors and the edit mode are reset |
| EmployeesPage.EmployeesPageState.OpenCreate | frontend/src/pages/Employees.jsx:226 | the modal opens in create mode, keeping whatever the form holds |
| EmployeesPage.EmployeesPageState.OpenFromEmptyList | frontend/src/pages/Employees.jsx:241 | the modal opens without touching the edit mode or the form |
| EmployeesPage.EmployeesPageState.SetSearchTerm | frontend/src/pages/Employees.jsx:222 | only the search term changes |
| EmployeesPage.EmployeesPageState.Visible | frontend/src/pages/Employees.jsx:261-265 | the table shows exactly the loaded employees that the search term hits |
| AttendancePage.EmployeeFilterNeverSent | frontend/src/pages/Attendance.jsx:80 | as written, the list request carries the date filter only, whatever employee is chosen |
| AttendancePage.FilterFormReachesServer | frontend/src/pages/Attendance.jsx:78-85 | with the key corrected, the server receives both non-empty filters |
| AttendancePage.NoFiltersNoQuery | frontend/src/pages/Attendance.jsx:148-150 | cleared filters, passed as the page passes them or as intended, give the bare endpoint, which lists every record |
| AttendancePage.SearchRecordsSpec | frontend/src/pages/Attendance.jsx:391-395 | the search keeps exactly the records whose name or employee id contains the term, ignoring case, in order; an empty term keeps all |
| AttendancePage.NamelessRecordHit | frontend/src/pages/Attendance.jsx:393-394 | a record without a name is found by its employee id alone |
| AttendancePage.AttendancePageState.constructor | frontend/src/pages/Attendance.jsx:36-55 | the page starts loading, with the form on today's date and Present, no filters and no selection |
| AttendancePage.AttendancePageState.FetchData | frontend/src/pages/Attendance.jsx:58-75 | both lists are requested unfiltered; success replaces both; failure toasts; loading ends either way |
| AttendancePage.AttendancePageState.FetchAttendance | frontend/src/pages/Attendance.jsx:78-85 | the list is requested with the filters as the page passes them, so only the date filter reaches the server; success replaces the records; failure toasts |
| AttendancePage.AttendancePageState.SetFilters | frontend/src/pages/Attendance.jsx:88-92 | the filters change; unless the page is still loading the list is refetched with them as the page passes them, the date filter alone reaching the server |
| AttendancePage.AttendancePageState.ClearFilters | frontend/src/pages/Attendance.jsx:148-150 | the filters are emptied and, once loaded, the unfiltered list is refetched |
| AttendancePage.AttendancePageState.SelectEmployee | frontend/src/pages/Attendance.jsx:95-109 | an empty choice clears the summary; otherwise that employee's summary is requested and shown, or cleared on failure |
| AttendancePage.AttendancePageState.RefreshSummary | frontend/src/pages/Attendance.jsx:135-139 | the summary is refetched only when that employee is selected |
| AttendancePage.AttendancePageState.HandleSubmit | frontend/src/pages/Attendance.jsx:112-145 | no employee: a warning and no request; otherwise the mark is sent; on success a toast, a list refetch with the filters as the page passes them (date only), the form reset to Present on the same date, and the summary refreshed for the viewed employee; each failure toasts its message |
| AttendancePage.AttendancePageState.SetFormEmployee | frontend/src/pages/Attendance.jsx:184 | only the form's employee changes |
| AttendancePage.AttendancePageState.SetFormDate | frontend/src/pages/Attendance.jsx:202 | only the form's date changes |
| AttendancePage.AttendancePageState.SetFormStatus | frontend/src/pages/Attendance.jsx:215-225 | only the form's status changes |
| AttendancePage.AttendancePageState.SetSearchTerm | frontend/src/pages/Attendance.jsx:361-362 | only the search term changes |
| AttendancePage.AttendancePageState.VisibleRecords | frontend/src/pages/Attendance.jsx:391-395 | the table shows exactly the loaded records that the search term hits |
| DashboardPage.Preview | frontend/src/pages/Dashboard.jsx:60-61 | `slice(0, 5)` is the first min(n, 5) elements |
| DashboardPage.PreviewIdempotent | frontend/src/pages/Dashboard.jsx:60-61 | a preview of a preview is the preview |
| DashboardPage.Shown | frontend/src/pages/Dashboard.jsx:104-134 | a card shows 0 before the stats arrive and the server's count after |
| DashboardPage.ShownCountsAddUp | backend/main.py:65-66 | the Present and Absent cards add up to the records card |
| DashboardPage.DashboardState.constructor | frontend/src/pages/Dashboard.jsx:41-45 | no stats, empty previews, loading, no error |
| DashboardPage.DashboardState.FetchDashboardData | frontend/src/pages/Dashboard.jsx:48-68 | stats, employees and unfiltered attendance are requested together; success stores the stats and the first five of each list and clears the error; failure records and toasts the message; loading ends |
| DashboardPage.DashboardState.Cards | frontend/src/pages/Dashboard.jsx:104-134 | the four cards show zeros before loading and the server's four counts after |

## Left out

- I/O and concurrency. MongoDB's network connection, the lifespan hooks,
  CORS and the health route `/` (backend/main.py:48-55) are not modelled.
  Each handler runs to completion. The un-awaited refetches after a submit
  or a delete (`fetchEmployees()`, `fetchAttendance()`) take their outcome
  as a parameter of the handler, and that outcome is applied before the
  handler returns; their interleaving with other events is not captured.
- Time and randomness. `datetime.utcnow()`, `Date.now()`, the browser's
  "today" and MongoDB's fresh ObjectIds are parameters. A fresh ObjectId is a
  precondition, as MongoDB guarantees it.
- App.AppState.AddToast: the 4000 ms delay of `setTimeout` is not modelled.
  A timer expiring is the separate event `TimerFires`.
- FastAPI's 422 validation response body is not modelled. An invalid body
  is a `None` from the schema's validation function, and the routes take
  validated bodies. On the client side, a 422's `detail` is a list, which
  `new Error(data.detail)` (frontend/src/services/api.js:34) turns into the
  text "[object Object]"; the model's reply carries only string details.
- ObjectIds.ParseObjectId: bson's `ObjectId(text)` checks only that the text
  has 24 characters and then decodes it with `bytes.fromhex`, which skips
  white space between digit pairs. Such texts (for example 22 digits and two
  spaces) are treated as invalid here, so `DeleteAttendance` answers them
  with 400 where the route (backend/routes/attendance.py:219-233) finds no
  record and answers 404.
- EmployeeModel.ValidateEmployee: `EmailStr` is checked only for its shape
  (no white space, one `@` with text on both sides). Domain rules and
  normalisation are not modelled, because they depend on the
  email-validator library, which is not part of this model.
- AttendanceRoutes.GetAttendanceSummary: the percentage is an exact rational.
  Python's float arithmetic and `round(…, 2)` are not modelled, so the bounds
  are proved for the exact value.
- Pydantic's lenient date inputs (timestamps, `datetime` objects) are not
  modelled. Only ISO `YYYY-MM-DD` text is accepted.
- Common.Lower: only ASCII letters are lowered. Unicode case mapping in
  `toLowerCase` is not modelled.
- Lengths are counted in characters. JavaScript counts UTF-16 code units,
  so the name-length check differs for characters outside the BMP.
- MongoDB's order among documents with equal sort keys is not specified.
  The model's sort is stable over natural order.
- The department field: the page offers ten departments
  (frontend/src/pages/Employees.jsx:48-59), but `validateForm` only checks
  that a value was chosen (:115-117), and the server has no enumerated set
  (backend/models/employee.py:31-37); the model follows the code.
- ApiClient.EmployeeWrapperRoutes: ids are required to be plain path
  segments (no `/`, `?`, `#`, `%`). The browser's percent-decoding and
  fragment handling are not modelled.
- Malformed UTF-8 in a query is rejected by the model. Python replaces it
  with U+FFFD.
- `JSON.stringify`, `response.json()` and the JSON body shapes are
  abstracted as datatypes.
- The `isSubmitting` and `isDeleting` button flags are not modelled. Nor
  is the JSX rendering, beyond the filtered tables and stat cards.
- The view components (Toast, Modal, ConfirmDialog, EmptyState, Sidebar) are
  not part of this model.

## Findings

| source | as written | input that shows it | evidently intended | confidence | as-written member | corrected member |
|---|---|---|---|---|---|---|
| frontend/src/pages/Employees.jsx:2,143 | `updateEmployee` is called but never imported, so every edit submit throws a ReferenceError that the page shows as an error toast | open any employee with Edit and press Save | call the `updateEmployee` wrapper, a PUT to `/employees/{id}` | high; not executed | EmployeesPage.SubmitCallAsWritten (EmployeesPage.EditSubmitAlwaysFails) | EmployeesPage.SubmitCall (EmployeesPage.EditSubmitReachesUpdate) |
| frontend/src/pages/Attendance.jsx:53,338 with frontend/src/services/api.js:81 | the page keeps the employee filter under `employee_id`, but the wrapper reads `filters.employeeId`, so the employee filter is never sent | choose any employee in the filter bar; the list is not narrowed to that employee | send the chosen employee as the `employee_id` query parameter | high; not executed | AttendancePage.ClientFiltersAsWritten (AttendancePage.EmployeeFilterNeverSent) | AttendancePage.ClientFilters (AttendancePage.FilterFormReachesServer) |
