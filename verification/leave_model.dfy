/** The leave schema (backend/models/Leave.js): the enums, the defaults of a new request
    and the save hook that derives `numberOfDays` from the date range. */
module LeaveModel {
  import opened Common

  datatype LeaveType = Paid | Sick | Unpaid

  datatype LeaveStatus = Pending | Approved | Rejected

  /** A stored leave request; dates are instants in milliseconds. */
  datatype LeaveRequest = LeaveRequest(
    employee: Id,
    leaveType: LeaveType,
    startDate: int,
    endDate: int,
    numberOfDays: int,
    reason: string,
    status: LeaveStatus,
    reviewedBy: Option<Id>,
    reviewedAt: Option<int>,
    reviewComments: Option<string>,
    createdAt: int)

  /** `Math.ceil((endDate - startDate) / (1000 * 60 * 60 * 24)) + 1`: the number of
      calendar days the range touches, counting both ends. */
  function DayCount(startDate: int, endDate: int): (n: int)
    ensures MS_PER_DAY * (n - 2) < endDate - startDate <= MS_PER_DAY * (n - 1)
    ensures startDate == endDate ==> n == 1
    ensures startDate <= endDate ==> n >= 1
  {
    -((startDate - endDate) / MS_PER_DAY) + 1
  }

  /** The `pre('save')` hook: `numberOfDays` is recomputed when either date was modified
      and left as it is otherwise; no other field changes. */
  function ComputeDaysOnSave(l: LeaveRequest, startModified: bool, endModified: bool): (r: LeaveRequest)
    ensures r.(numberOfDays := l.numberOfDays) == l
    ensures startModified || endModified ==> r.numberOfDays == DayCount(l.startDate, l.endDate)
    ensures !startModified && !endModified ==> r == l
  {
    if startModified || endModified then l.(numberOfDays := DayCount(l.startDate, l.endDate)) else l
  }

  /** `Leave.create(...)` at instant `now`: status defaults to Pending, nothing is reviewed,
      and the hook runs with both dates new. */
  function NewLeave(employee: Id, leaveType: LeaveType, startDate: int, endDate: int, reason: string, now: int): (l: LeaveRequest)
    ensures l.status == Pending && l.reviewedBy.None? && l.reviewedAt.None? && l.reviewComments.None?
    ensures l.reason == reason && l.createdAt == now
    ensures l.employee == employee && l.leaveType == leaveType
    ensures l.startDate == startDate && l.endDate == endDate
    ensures l.numberOfDays == DayCount(startDate, endDate)
  {
    var created := LeaveRequest(employee, leaveType, startDate, endDate, 0, reason, Pending, None, None, None, now);
    ComputeDaysOnSave(created, true, true)
  }
}
