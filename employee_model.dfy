/** The employee schemas: the fields every employee carries and the bounds
    the request body is validated against before a route runs. */
module EmployeeModel {
  import opened Common

  /** The four fields a client sends and the server stores. */
  datatype EmployeeBase = EmployeeBase(employee_id: string, full_name: string, email: string, department: string)

  /** The structure every address the email field accepts has: no white
      space, exactly one '@', and something on both sides of it. */
  predicate EmailShape(s: string)
  {
    && NoSpace(s)
    && match IndexOf(s, '@')
       case None => false
       case Some(i) => 0 < i < |s| - 1 && '@' !in s[i + 1..]
  }

  /** The field bounds of the schema: an id of 1 to 20 characters, a name of
      2 to 100, an email address, and a department of 1 to 50. */
  predicate ValidEmployee(e: EmployeeBase)
  {
    && 1 <= |e.employee_id| <= 20
    && 2 <= |e.full_name| <= 100
    && EmailShape(e.email)
    && 1 <= |e.department| <= 50
  }

  /** A request body that passed validation (`EmployeeCreate`). */
  type EmployeeCreate = e: EmployeeBase | ValidEmployee(e)
    witness EmployeeBase("E", "Jo", "a@b", "D")

  /** FastAPI's validation of a request body: the body itself when every bound
      holds, otherwise a rejection (the 422 response). */
  function ValidateEmployee(e: EmployeeBase): (r: Option<EmployeeCreate>)
    ensures r.Some? <==> ValidEmployee(e)
    ensures r.Some? ==> r.value == e
  {
    if ValidEmployee(e) then Some(e) else None
  }

  /** `EmployeeResponse`: the stored fields, the document id as text and the
      creation time (a timestamp in microseconds). */
  datatype EmployeeResponse = EmployeeResponse(
    id: string, employee_id: string, full_name: string, email: string, department: string, created_at: int)

  /** `EmployeeListResponse`: the employees and how many there are. */
  datatype EmployeeListResponse = EmployeeListResponse(employees: seq<EmployeeResponse>, total: int)

  /** The defaults of `EmployeeListResponse`: no employees, total 0. */
  function EmptyEmployeeList(): (r: EmployeeListResponse)
    ensures r.employees == [] && r.total == 0
  {
    EmployeeListResponse([], 0)
  }
}
