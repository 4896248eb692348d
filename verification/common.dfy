/** Identifiers, roles, optional values, clock arithmetic and HTTP replies shared by
    every DayFlow component. */
module Common {

  /** A document identifier (a MongoDB ObjectId in the original). */
  type Id = nat

  datatype Option<T> = None | Some(value: T)

  /** The value a field takes after `Object.assign`: the request's when present, else the current one. */
  function Pick<T>(o: Option<T>, current: T): T {
    if o.Some? then o.value else current
  }

  function PickOption<T>(o: Option<T>, current: Option<T>): Option<T> {
    if o.Some? then o else current
  }

  /** The outcome of a middleware step: continue with a value, or answer with a reply. */
  datatype Result<T> = Ok(value: T) | Fail(reply: Reply)

  /** The role enum of the employee schema. */
  datatype Role = Employee | HR | Admin

  function RoleName(r: Role): (s: string)
    ensures ParseRole(s) == Some(r)
  {
    match r
    case Employee => "Employee"
    case HR => "HR"
    case Admin => "Admin"
  }

  /** `isIn(['Employee', 'HR', 'Admin'])` on a request string, followed by the enum cast. */
  function ParseRole(s: string): (r: Option<Role>)
    ensures r.Some? <==> s in ["Employee", "HR", "Admin"]
  {
    if s == "Employee" then Some(Employee)
    else if s == "HR" then Some(HR)
    else if s == "Admin" then Some(Admin)
    else None
  }

  /** Instants are integer milliseconds since the epoch. */
  const MS_PER_DAY: int := 86400000

  /** `d.setHours(0, 0, 0, 0)`: the start of the day holding instant `t` (on a UTC clock). */
  function Midnight(t: int): (d: int)
    ensures d <= t < d + MS_PER_DAY
    ensures d % MS_PER_DAY == 0
  {
    t - t % MS_PER_DAY
  }

  /** The `message` of a JSON reply; replies without one carry `NoMessage`. */
  datatype Msg =
    | NoMessage
    | ServerError
    // middleware/auth.js
    | NotAuthorizedRoute
    | EmployeeNotFound
    | RoleNotAuthorized(role: Role)
    // routes/auth.js
    | ValidationErrors
    | EmployeeExists
    | Registered
    | InvalidCredentials
    | AccountInactive
    | LoginSuccessful
    // routes/employees.js
    | NotAuthorizedViewProfile
    | NotAuthorizedUpdateProfile
    | EmployeeUpdated
    | EmployeeDeleted
    // routes/attendance.js
    | AlreadyCheckedIn
    | CheckedIn
    | NoCheckInToday
    | AlreadyCheckedOut
    | CheckedOut
    | AttendanceCreated
    | AttendanceExists
    | AttendanceNotFound
    | AttendanceUpdated
    | AttendanceDeleted
    // routes/leave.js
    | InsufficientPaid(available: int)
    | InsufficientSick(available: int)
    | LeaveSubmitted
    | InvalidReviewStatus
    | LeaveNotFound
    | AlreadyReviewed
    | LeaveReviewed(approved: bool)
    | NotAuthorizedDeleteLeave
    | CannotDeleteReviewed
    | LeaveDeleted
    // routes/payroll.js
    | PayrollNotFound
    | NotAuthorizedViewPayroll
    | PayrollCreated
    | PayrollExists
    | PayrollUpdated
    | PayrollDeleted

  /** An HTTP status code with the reply's message. */
  datatype Reply = Reply(code: int, msg: Msg)
}
