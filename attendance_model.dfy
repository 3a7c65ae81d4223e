/** The attendance schemas: the two statuses, the fields of a record, the
    validation of a request body, and the summary of one employee. */
module AttendanceModel {
  import opened Common
  import opened IsoDate

  datatype AttendanceStatus = Present | Absent

  /** The enum's value, as stored and as sent over the wire. */
  function StatusValue(s: AttendanceStatus): string
  {
    match s
    case Present => "Present"
    case Absent => "Absent"
  }

  /** Reading a status from its value; None for any other text. */
  function ParseStatus(v: string): (r: Option<AttendanceStatus>)
    ensures r.Some? ==> StatusValue(r.value) == v
  {
    if v == "Present" then Some(Present)
    else if v == "Absent" then Some(Absent)
    else None
  }

  /** Every status reads back from its value, so the two values are the whole enum. */
  lemma StatusValueRoundTrip(s: AttendanceStatus)
    ensures ParseStatus(StatusValue(s)) == Some(s)
  {
  }

  /** The fields of an attendance record. */
  datatype AttendanceBase = AttendanceBase(employee_id: string, date: Date, status: AttendanceStatus)

  /** The bounds of the schema: a non-empty employee id and a real calendar day. */
  predicate ValidAttendance(a: AttendanceBase)
  {
    |a.employee_id| >= 1 && ValidDate(a.date)
  }

  /** A request body that passed validation (`AttendanceCreate`). */
  type AttendanceCreate = a: AttendanceBase | ValidAttendance(a)
    witness AttendanceBase("E", Date(2000, 1, 1), Present)

  /** The JSON body as the browser sends it: every field text. */
  datatype AttendancePayload = AttendancePayload(employee_id: string, date: string, status: string)

  /** FastAPI's validation of a request body: the date must be `YYYY-MM-DD`
      naming a real day, the status one of the two values, the id non-empty. */
  function ParseAttendanceCreate(p: AttendancePayload): (r: Option<AttendanceCreate>)
    ensures r.Some? ==> r.value.employee_id == p.employee_id
    ensures r.Some? ==> IsoFormat(r.value.date) == p.date && StatusValue(r.value.status) == p.status
    ensures r.Some? <==> |p.employee_id| >= 1 && ParseIso(p.date).Some? && ParseStatus(p.status).Some?
  {
    match (ParseIso(p.date), ParseStatus(p.status))
    case (Some(d), Some(s)) =>
      if |p.employee_id| >= 1 then
        ParseIsoFormat(p.date);
        Some(AttendanceBase(p.employee_id, d, s))
      else None
    case _ => None
  }

  /** The payload the browser builds for a record. */
  function PayloadOf(a: AttendanceBase): (p: AttendancePayload)
    ensures p.employee_id == a.employee_id && |p.date| == 10
  {
    AttendancePayload(a.employee_id, IsoFormat(a.date), StatusValue(a.status))
  }

  /** A valid record sent as text is accepted and read back unchanged. */
  lemma PayloadRoundTrip(a: AttendanceCreate)
    ensures ParseAttendanceCreate(PayloadOf(a)) == Some(a)
  {
    IsoRoundTrip(a.date);
  }

  /** `AttendanceResponse`: a record, its document id as text, when it was
      marked, and the employee's name where the route looks it up. */
  datatype AttendanceResponse = AttendanceResponse(
    id: string, employee_id: string, date: Date, status: AttendanceStatus, marked_at: int,
    employee_name: Option<string>)

  /** `AttendanceListResponse`: the records and how many there are. */
  datatype AttendanceListResponse = AttendanceListResponse(records: seq<AttendanceResponse>, total: int)

  /** `AttendanceSummary` of one employee; the percentage is kept exact. */
  datatype AttendanceSummary = AttendanceSummary(
    employee_id: string, employee_name: string, total_days: int, present_days: int, absent_days: int,
    attendance_percentage: real)
}
