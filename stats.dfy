/** GET /api/stats: the four counts the dashboard shows. */
module Stats {
  import opened Common
  import opened AttendanceModel
  import opened Database

  datatype DashboardStats = DashboardStats(
    total_employees: nat, total_attendance_records: nat, present_count: nat, absent_count: nat)

  /** The four counts, each a `count_documents` on its collection. */
  method GetStats(db: Db) returns (s: DashboardStats)
    ensures s.total_employees == |db.employees|
    ensures s.total_attendance_records == |db.attendance|
    ensures s.present_count == CountDocuments(db.attendance, AllRecords.(status := Some(Present)))
    ensures s.absent_count == CountDocuments(db.attendance, AllRecords.(status := Some(Absent)))
    ensures s.present_count + s.absent_count == s.total_attendance_records
  {
    var totalEmployees := |db.employees|;
    var totalAttendance := CountDocuments(db.attendance, AllRecords);
    var presentCount := CountDocuments(db.attendance, AllRecords.(status := Some(Present)));
    var absentCount := CountDocuments(db.attendance, AllRecords.(status := Some(Absent)));
    CountByStatus(db.attendance, AllRecords);
    SelectAll(db.attendance);
    s := DashboardStats(totalEmployees, totalAttendance, presentCount, absentCount);
  }
}
