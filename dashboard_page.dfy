/** The dashboard: one load of the stats and of the two lists, the
    five-item previews and the counts shown on the stat cards. */
module DashboardPage {
  import opened Common
  import opened EmployeeModel
  import opened AttendanceModel
  import Stats
  import opened ApiClient
  import opened App

  const PREVIEW_SIZE: nat := 5

  /** `slice(0, 5)`: the leading part of the list in server order, as long
      as the list but never longer than five. */
  function Preview<T>(s: seq<T>): (r: seq<T>)
    ensures |r| == if |s| < PREVIEW_SIZE then |s| else PREVIEW_SIZE
    ensures r == s[..|r|]
  {
    if |s| <= PREVIEW_SIZE then s else s[..PREVIEW_SIZE]
  }

  /** Taking the preview of a preview changes nothing. */
  lemma PreviewIdempotent<T>(s: seq<T>)
    ensures Preview(Preview(s)) == Preview(s)
  {
  }

  /** The stat cards. */
  datatype StatCard = TotalEmployees | TotalRecords | PresentCount | AbsentCount

  function StatValue(s: Stats.DashboardStats, card: StatCard): nat
  {
    match card
    case TotalEmployees => s.total_employees
    case TotalRecords => s.total_attendance_records
    case PresentCount => s.present_count
    case AbsentCount => s.absent_count
  }

  /** `stats?.x || 0`: a missing object or a falsy count shows 0. Once the
      stats are loaded every card therefore shows the server's count, since
      the only falsy count is 0 itself; before that every card shows 0. */
  function Shown(stats: Option<Stats.DashboardStats>, card: StatCard): (r: nat)
    ensures stats.None? ==> r == 0
    ensures stats.Some? ==> r == StatValue(stats.value, card)
  {
    match stats
    case None => 0
    case Some(s) => if StatValue(s, card) == 0 then 0 else StatValue(s, card)
  }

  /** The present and absent cards add up to the records card whenever the
      loaded stats do, as the stats route guarantees. */
  lemma ShownCountsAddUp(stats: Option<Stats.DashboardStats>)
    requires stats.Some? ==> stats.value.present_count + stats.value.absent_count == stats.value.total_attendance_records
    ensures Shown(stats, PresentCount) + Shown(stats, AbsentCount) == Shown(stats, TotalRecords)
  {
  }

  class DashboardState {
    var stats: Option<Stats.DashboardStats>
    var recentEmployees: seq<EmployeeResponse>
    var recentAttendance: seq<AttendanceResponse>
    var loading: bool
    var error: Option<string>

    constructor ()
      ensures stats.None? && recentEmployees == [] && recentAttendance == [] && loading && error.None?
    {
      stats := None;
      recentEmployees := [];
      recentAttendance := [];
      loading := true;
      error := None;
    }

    /** `fetchDashboardData`: the three requests go out together; on
      success the stats are kept and the lists cut to their previews; any
      failure records and shows its message and keeps the old data; the
      error of an earlier load is cleared first and loading always ends. */
    method FetchDashboardData(outcome: Result<(Stats.DashboardStats, EmployeeListResponse, AttendanceListResponse), string>)
      returns (calls: seq<Call>, notices: seq<Notice>)
      modifies this
      ensures calls == [GetStats(), GetEmployees(), Call(AttendanceEndpoint(AttendanceFilters(None, None)), NO_OPTIONS)]
      ensures outcome.Ok? ==>
        && stats == Some(outcome.value.0)
        && recentEmployees == Preview(outcome.value.1.employees)
        && recentAttendance == Preview(outcome.value.2.records)
        && error.None? && notices == []
      ensures outcome.Err? ==>
        && stats == old(stats) && recentEmployees == old(recentEmployees) && recentAttendance == old(recentAttendance)
        && error == Some(outcome.error) && notices == [Notice(outcome.error, "error")]
      ensures !loading
    {
      loading := true;
      error := None;
      var listCall := GetAttendance(AttendanceFilters(None, None));
      calls := [GetStats(), GetEmployees(), listCall];
      notices := [];
      match outcome {
        case Ok((statsData, employeesData, attendanceData)) =>
          stats := Some(statsData);
          recentEmployees := Preview(employeesData.employees);
          recentAttendance := Preview(attendanceData.records);
        case Err(message) =>
          error := Some(message);
          notices := [Notice(message, "error")];
      }
      loading := false;
    }

    /** What the four cards show. */
    function Cards(): (r: seq<nat>)
      reads this
      ensures |r| == 4
      ensures stats.None? ==> r == [0, 0, 0, 0]
      ensures stats.Some? ==> r == [stats.value.total_employees, stats.value.total_attendance_records,
                                    stats.value.present_count, stats.value.absent_count]
    {
      [Shown(stats, TotalEmployees), Shown(stats, TotalRecords), Shown(stats, PresentCount), Shown(stats, AbsentCount)]
    }
  }
}
