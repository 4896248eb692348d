/** The attendance schema (backend/models/Attendance.js): the status enum, the document
    and the save hook that derives `workHours` from the two timestamps. */
module AttendanceModel {
  import opened Common

  /** `'Present' | 'Absent' | 'Half-day' | 'Leave'`. */
  datatype AttendanceStatus = Present | Absent | HalfDay | OnLeave

  /** A stored attendance record; `workHours` is held in hundredths of an hour. */
  datatype AttendanceRecord = AttendanceRecord(
    employee: Id,
    date: int,
    status: AttendanceStatus,
    checkIn: Option<int>,
    checkOut: Option<int>,
    workHours: int,
    remarks: Option<string>,
    createdBy: Option<Id>)

  /** `Math.round(ms / 3600000 * 100)` in integers: the whole number of hundredths of an
      hour nearest to `ms`, halves rounded up as `Math.round` does. */
  function CentiHours(ms: int): (c: int)
    ensures 36000 * c - 18000 <= ms < 36000 * c + 18000
    ensures ms >= 0 ==> c >= 0
  {
    (ms + 18000) / 36000
  }

  /** The `pre('save')` hook: with both timestamps set, `workHours` is the rounded length
      of the interval; otherwise the record is saved as it is. */
  function ComputeHoursOnSave(a: AttendanceRecord): (r: AttendanceRecord)
    ensures r.(workHours := a.workHours) == a
    ensures a.checkIn.Some? && a.checkOut.Some? ==> r.workHours == CentiHours(a.checkOut.value - a.checkIn.value)
    ensures a.checkIn.None? || a.checkOut.None? ==> r == a
  {
    if a.checkIn.Some? && a.checkOut.Some? then
      a.(workHours := CentiHours(a.checkOut.value - a.checkIn.value))
    else a
  }

  /** What every saved record satisfies: `workHours` agrees with the timestamps whenever both are set. */
  predicate HoursConsistent(a: AttendanceRecord) {
    a.checkIn.Some? && a.checkOut.Some? ==> a.workHours == CentiHours(a.checkOut.value - a.checkIn.value)
  }

  /** Every record the hook returns is consistent; a second save changes nothing; and a
      check-out no earlier than the check-in gives non-negative hours. */
  lemma ComputeHoursOnSaveProperties(a: AttendanceRecord)
    ensures HoursConsistent(ComputeHoursOnSave(a))
    ensures ComputeHoursOnSave(ComputeHoursOnSave(a)) == ComputeHoursOnSave(a)
    ensures a.checkIn.Some? && a.checkOut.Some? && a.checkIn.value <= a.checkOut.value ==> ComputeHoursOnSave(a).workHours >= 0
  {
  }

  /** `Attendance.create(...)`: `workHours` defaults to 0 and the hook runs. */
  function NewAttendance(
    employee: Id, date: int, status: AttendanceStatus, checkIn: Option<int>,
    checkOut: Option<int>, remarks: Option<string>, createdBy: Option<Id>): (a: AttendanceRecord)
    ensures HoursConsistent(a)
    ensures a.employee == employee && a.date == date && a.status == status
    ensures a.checkIn == checkIn && a.checkOut == checkOut
    ensures a.remarks == remarks && a.createdBy == createdBy
    ensures checkIn.None? || checkOut.None? ==> a.workHours == 0
  {
    ComputeHoursOnSave(AttendanceRecord(employee, date, status, checkIn, checkOut, 0, remarks, createdBy))
  }

  /** The keys a request body may carry for an attendance record; `None` is an absent key. */
  datatype AttendancePatch = AttendancePatch(
    employee: Option<Id>,
    date: Option<int>,
    status: Option<AttendanceStatus>,
    checkIn: Option<int>,
    checkOut: Option<int>,
    workHours: Option<int>,
    remarks: Option<string>,
    createdBy: Option<Id>)

  /** `Object.assign(attendance, patch)`. */
  function Assign(a: AttendanceRecord, p: AttendancePatch): (r: AttendanceRecord)
    ensures p.employee.None? && p.date.None? ==> r.employee == a.employee && r.date == a.date
    ensures p == AttendancePatch(None, None, None, None, None, None, None, None) ==> r == a
  {
    AttendanceRecord(
      Pick(p.employee, a.employee),
      Pick(p.date, a.date),
      Pick(p.status, a.status),
      PickOption(p.checkIn, a.checkIn),
      PickOption(p.checkOut, a.checkOut),
      Pick(p.workHours, a.workHours),
      PickOption(p.remarks, a.remarks),
      PickOption(p.createdBy, a.createdBy))
  }
}
