# DayFlow back end: a Dafny model of its business rules

DayFlow is a human-resources back end. Employees, attendance records, leave requests and
payroll records live in four collections, and REST routes guarded by a bearer-token check
(`protect`) and a role check (`authorize`) read and change them. This project models that
business-rule layer:

- the four schemas and their save hooks: the password hash, the leave day count, the
  attendance work hours and the payroll gross/net salary;
- the unique indexes: employee id and email, one attendance record per (employee, day),
  one payroll record per (employee, month, year);
- every route handler of the leave, attendance, payroll, employee and account routes.
  Each handler checks roles, ownership, existence and uniqueness in the same order as the
  original, and answers with the same status code;
- the two middleware functions.

The collections are the fields of one `Stores.Store` object, each a `map` from document id
to an immutable document value, together with the counter that hands out fresh ids.
`Store.Valid()` is the database invariant: the unique indexes hold, every stored email is
lowercase, and every derived field agrees with the fields it is computed from. Every route
method keeps it. A handler behind `protect` takes the authenticated caller's id `me`, which
names an existing employee, and reads the caller's role from the store. Handlers behind
`authorize` run the role check first, through `AuthMiddleware.Authorize`.
`AuthMiddleware.ProtectAndAuthorize` shows the two checks chained.

Units: instants are integer milliseconds since the epoch, money is integer cents, and work
hours are integer hundredths of an hour. The check-in day is the instant truncated to a
multiple of 86 400 000 ms (UTC midnight).

Foreign code enters as function parameters, with no properties assumed:
- `hash`: bcrypt hashing;
- `compare`: bcrypt comparison;
- `verify`: the JWT check, returning the id a token names;
- `sign`: token generation;
- `isEmail` and `normalizeEmail`: the request validators.
The clock enters as `now`.

Listings return document ids. `Listing.SortByKeyDesc` puts them in the order of the
query's `.sort(...)`. Each listing's contract says which documents it holds, each exactly
once, and in which order.

## Model

| member | source | states |
|---|---|---|
| Common.ParseRole | backend/routes/auth.js:16 | a role string is accepted exactly when it is one of Employee, HR, Admin |
| Common.RoleName | backend/models/Employee.js:23-27 | each role's name parses back to that role |
| Common.Midnight | backend/routes/attendance.js:53-54 | the day key is a multiple of one day and is the latest such instant not after `t` |
| Text.Split | backend/middleware/auth.js:11 | splitting always yields at least one segment, and no segment contains the separator |
| Text.JoinSplit | backend/middleware/auth.js:11 | joining the segments with the separator gives the header back, so splitting loses nothing |
| Text.Lower | backend/models/Employee.js:15 | the lowercase setter keeps the length, lowercases every character, and leaves a lowercase string unchanged |
| EmployeeModel.HashPasswordOnSave | backend/models/Employee.js:103-115 | the password is replaced by its hash exactly when it was modified; no other field changes |
| EmployeeModel.NewEmployee | backend/models/Employee.js:4-100 | a new employee has the given or default role Employee, balances 20/10/0, is active, has a lowercase email and a hashed password; it keeps the given employee id, names, phone number, department and designation, joins on the given date or else at creation, and has no address, no date of birth, an empty picture and no documents |
| EmployeeModel.PublicProfile | backend/models/Employee.js:123-127 | putting the password back into the public profile gives the whole record, so only the password is dropped |
| EmployeeModel.PublicProfileHidesOnlyPassword | backend/models/Employee.js:123-127 | two records have the same public profile if and only if they differ at most in the password |
| EmployeeModel.Assign | backend/routes/employees.js:89-94 | an empty body changes nothing; an absent password or email keeps the stored one; a given email is stored lowercased |
| LeaveModel.DayCount | backend/models/Leave.js:54 | the count is the ceiling of the span in days plus one; equal dates count 1; ordered dates count at least 1 |
| LeaveModel.ComputeDaysOnSave | backend/models/Leave.js:52-58 | the day count is recomputed exactly when a date was modified, and nothing else changes |
| LeaveModel.NewLeave | backend/routes/leave.js:68-74 | a new request is Pending, unreviewed and without review comments, keeps the given employee, type, dates and reason, is created now, and its day count matches its dates |
| AttendanceModel.CentiHours | backend/models/Attendance.js:46-47 | the result is the number of hundredths of an hour nearest to the span, and not negative for a non-negative span |
| AttendanceModel.ComputeHoursOnSave | backend/models/Attendance.js:44-50 | with both timestamps set, the work hours are recomputed from them; otherwise the record is unchanged; no other field ever changes |
| AttendanceModel.ComputeHoursOnSaveProperties | backend/models/Attendance.js:44-50 | a saved record is consistent, a second save changes nothing, and a check-out no earlier than the check-in gives non-negative hours |
| AttendanceModel.NewAttendance | backend/models/Attendance.js:3-50 | a new record keeps the given employee, date, status, timestamps, remarks and creator, is consistent, and its work hours default to 0 unless both timestamps are given |
| AttendanceModel.Assign | backend/routes/attendance.js:187 | an empty body changes nothing, and a body without employee or date keeps the (employee, date) key |
| PayrollModel.SumOfFour | backend/models/Payroll.js:69-70 | the reduce from 0 over four values is their sum |
| PayrollModel.TotalAllowances | backend/models/Payroll.js:69 | the allowance total is hra + transport + medical + other |
| PayrollModel.TotalDeductions | backend/models/Payroll.js:70 | the deduction total is tax + providentFund + insurance + other |
| PayrollModel.ComputeSalaryOnSave | backend/models/Payroll.js:68-76 | after the hook, gross = basic + allowances + bonuses and net = gross - deductions; only gross and net change |
| PayrollModel.ClientTotalsIgnored | backend/models/Payroll.js:68-76 | the gross and net the client sends never reach the store, and saving a consistent record changes nothing |
| PayrollModel.SalaryExample | backend/models/Payroll.js:69-73 | basic 3000, allowances 500/100/50/0, deductions 300/200/50/0 and bonuses 200 give gross 3850 and net 3300 |
| PayrollModel.NewPayroll | backend/models/Payroll.js:3-76 | a new record keeps its (employee, month, year); stores the body's basic salary, allowances, deductions and bonuses, each defaulting to 0; keeps the body's payment date; has status Pending unless given; records its creator; and follows the salary formula |
| PayrollModel.CreateExample | backend/routes/payroll.js:84-89 | creating basic 3000, allowances 500/100/50/0, deductions 300/200/50/0 and bonuses 200 stores gross 3850 and net 3300, whatever gross and net the client sent, with status Pending |
| PayrollModel.Assign | backend/routes/payroll.js:126 | a body without employee, month or year keeps the record's pay period |
| PayrollModel.PeriodKeyOrdersByYearThenMonth | backend/routes/payroll.js:26 | for months in 1..12, the one-number key orders records exactly by year and then by month |
| PayrollModel.ValidMonth | backend/models/Payroll.js:9-14 | the schema bounds on the month: 1 to 12 inclusive |
| Listing.SortByKeyDesc | backend/routes/leave.js:27 | the result holds every id of the query once, in non-increasing key order |
| Stores.EmployeesUnique | backend/models/Employee.js:5-17 | the unique indexes: no two employees share an employee id, and no two share an email |
| Stores.IdentityTaken | backend/models/Employee.js:5-17 | some employee other than the one being written already holds the employee id or the email |
| Stores.IdentityTakenIsIndexViolation | backend/models/Employee.js:5-17 | writing one employee keeps both unique indexes if and only if no other employee holds its employee id or email |
| Stores.EmployeesValid | backend/models/Employee.js:5-17 | every stored employee: the unique indexes hold and every email is stored lowercase |
| Stores.AttendanceUnique | backend/models/Attendance.js:40-41 | the compound index: at most one record per (employee, date) |
| Stores.AttendanceValid | backend/models/Attendance.js:40-50 | every stored record: one per (employee, date), and work hours consistent with the timestamps as the save hook derives them |
| Stores.LeavesValid | backend/models/Leave.js:51-58 | every stored request's day count is the one the save hook derives from its dates |
| Stores.PayrollUnique | backend/models/Payroll.js:64-65 | the compound index: at most one record per (employee, month, year) |
| Stores.PayrollsValid | backend/models/Payroll.js:9-14 | every stored payroll: one per (employee, month, year), a month in 1..12, and gross and net as the save hook derives them |
| Stores.Store.Valid | backend/models/Employee.js:5-17 | the database invariant every route keeps: all four collections valid, and every document id below the next fresh id |
| AuthMiddleware.BearerToken | backend/middleware/auth.js:10-12 | a token is found only in a header starting with "Bearer"; it is non-empty and contains no space |
| AuthMiddleware.BearerTokenIsSecondSegment | backend/middleware/auth.js:10-12 | in a header "prefix token rest", the token is the second space-separated segment, taken exactly when the header starts with "Bearer" |
| AuthMiddleware.BearerHeaderRoundTrip | backend/middleware/auth.js:10-12 | the header "Bearer " + token yields that token back |
| AuthMiddleware.BearerTokenNeedsSpace | backend/middleware/auth.js:10-14 | a header without a space yields no token |
| AuthMiddleware.Authorize | backend/middleware/auth.js:44-53 | the request passes if and only if the caller's role is listed; otherwise the reply is 403 naming the role |
| AuthMiddleware.Protect | backend/middleware/auth.js:5-41 | no token gives 401, a token that fails verification gives 401, an id naming no employee gives 404, and otherwise the caller goes on, active or not |
| AuthMiddleware.ProtectAndAuthorize | backend/middleware/auth.js:5-53 | no token, or a token that fails verification, gives 401 whatever the role; a verified id naming no employee gives 404; otherwise the caller passes as exactly the employee the token names when that role is listed, and gets 403 naming the role when it is not |
| LeaveRoutes.ListingKeys | backend/routes/leave.js:12-22 | a request is listed if and only if it passes both filters: an Employee sees only their own requests while HR and Admin see every request, and the status filter applies only when a status is given |
| LeaveRoutes.List | backend/routes/leave.js:10-33 | the listing holds each matching request once, in non-increasing `createdAt` order; an Employee sees only their own requests |
| LeaveRoutes.BalanceCheck | backend/routes/leave.js:52-66 | a request is refused if and only if it is Paid or Sick and longer than that balance; the message states the available balance; Unpaid is never refused |
| LeaveRoutes.Apply | backend/routes/leave.js:46-82 | a refused request changes nothing; an accepted one adds one Pending request with its day count and answers 201 |
| LeaveRoutes.Debit | backend/routes/leave.js:130-143 | approval lowers only the balance matching the leave type, by the request's days; Unpaid changes no balance |
| LeaveRoutes.Review | backend/routes/leave.js:95-159 | the checks run in order: role 403, invalid status 400 (before the lookup), missing 404, already reviewed 400. A Pending request gets the status, reviewer, time and comments. An approved Paid/Sick request debits its owner without a balance check, or answers 500 after saving the request when the owner is gone |
| LeaveRoutes.Delete | backend/routes/leave.js:164-197 | missing is 404; an Employee deletes only their own (else 403) and only while Pending (else 400); HR and Admin delete any request |
| LeaveRoutes.ApproveAllDebitsByType | backend/routes/leave.js:130-141 | after a run of approvals, paid and sick have dropped by the days of the approved requests of that type, and unpaid is unchanged |
| LeaveRoutes.ThreeDayPaidLeaveScenario | backend/routes/leave.js:52-59 | January 1 to 3 counts 3 days, passes a paid balance of 5, and approval leaves 2 |
| LeaveRoutes.BalanceCanGoNegative | backend/routes/leave.js:130-141 | two 3-day Paid requests both pass against a balance of 5, and approving both leaves -1 |
| AttendanceRoutes.ListingKeys | backend/routes/attendance.js:13-28 | a record is listed if and only if it belongs to the scoped employee and lies in the range when both ends are given, both ends included |
| AttendanceRoutes.List | backend/routes/attendance.js:9-38 | the listing holds each matching record once, in non-increasing `date` order; an Employee sees only their own records, whatever employeeId says |
| AttendanceRoutes.StateOfRecord | backend/models/Attendance.js:41 | under the (employee, date) index, a day's state is the state of its one record |
| AttendanceRoutes.ClashIsIndexViolation | backend/models/Attendance.js:40-41 | writing one record keeps the (employee, date) index if and only if no other record holds its key |
| AttendanceRoutes.CheckIn | backend/routes/attendance.js:51-80 | a second check-in on a day is 400 and changes nothing; the first adds one Present record at today's midnight with check-in now and no check-out, and leaves the day Open |
| AttendanceRoutes.CheckOut | backend/routes/attendance.js:93-124 | with no record today the reply is 400; after a check-out it is 400; both change nothing. Otherwise today's record gets check-out now and recomputed hours, nothing else changes, and the day is Closed |
| AttendanceRoutes.CheckOutHours | backend/routes/attendance.js:117-118 | after check-out the hours are the rounded length of the day, not negative when now is not before the check-in, and no other field changes |
| AttendanceRoutes.Create | backend/routes/attendance.js:137-171 | role 403; a missing required field 500; a duplicate (employee, date) 400 and nothing changes; otherwise one record is added with the caller as creator |
| AttendanceRoutes.Update | backend/routes/attendance.js:176-203 | role 403, missing 404; the body is assigned and hours recomputed; a collision with another record's (employee, date) is 500 and nothing changes |
| AttendanceRoutes.Delete | backend/routes/attendance.js:208-232 | only Admin (else 403); missing 404; otherwise exactly that record is removed |
| PayrollRoutes.ListingKeys | backend/routes/payroll.js:11-22 | a record is listed if and only if it belongs to the scoped employee and matches the month and year asked for |
| PayrollRoutes.List | backend/routes/payroll.js:9-31 | the listing holds each matching record once, by year descending then month descending; an Employee sees only their own records |
| PayrollRoutes.Get | backend/routes/payroll.js:45-69 | missing is 404; an Employee gets 403 for another employee's record, or 500 when the record's owner is gone; a returned record is the caller's own when the caller is an Employee |
| PayrollRoutes.ClashIsIndexViolation | backend/models/Payroll.js:64-65 | writing one record keeps the (employee, month, year) index if and only if no other record holds its period |
| PayrollRoutes.Create | backend/routes/payroll.js:82-110 | role 403; a month outside 1..12 is 500; an existing (employee, month, year) is 400 and nothing is merged; otherwise one record is added, following the salary formula |
| PayrollRoutes.Update | backend/routes/payroll.js:115-142 | role 403, missing 404; the body is assigned and gross/net recomputed; an invalid month or a colliding period is 500 and nothing changes |
| PayrollRoutes.UpdateIgnoresClientTotals | backend/routes/payroll.js:126-127 | the record an update stores does not depend on the gross and net in the body |
| PayrollRoutes.Delete | backend/routes/payroll.js:147-171 | only Admin (else 403); missing 404; otherwise exactly that record is removed |
| EmployeeRoutes.List | backend/routes/employees.js:9-17 | only HR and Admin (else 403); every employee once, in non-increasing `createdAt` order, as public profiles |
| EmployeeRoutes.Get | backend/routes/employees.js:30-52 | an Employee asking for another profile gets 403 before the lookup; otherwise missing is 404 and found is the public profile |
| EmployeeRoutes.SelfServiceUpdates | backend/routes/employees.js:77-88 | the loop copies exactly the editable keys the body carries and no other key |
| EmployeeRoutes.SelfServiceChangesOnlyEditableFields | backend/routes/employees.js:80-89 | a self-service update changes only phoneNumber, address and profilePicture, each only when given |
| EmployeeRoutes.UpdatedRecord | backend/routes/employees.js:79-103 | the update is refused if and only if an Employee targets someone else; no permitted update changes the password; an Employee's own update changes only the editable fields |
| EmployeeRoutes.PrivilegedUpdateIgnoresPassword | backend/routes/employees.js:92-94 | an HR/Admin update applies every body field except the password, and a password in the body makes no difference |
| EmployeeRoutes.Update | backend/routes/employees.js:65-117 | missing is 404 before any permission check; an Employee updating another is 403; a clash with another employee's id or email is 500 and nothing changes; otherwise the updated record is stored |
| EmployeeRoutes.Delete | backend/routes/employees.js:122-146 | only Admin (else 403); missing 404; otherwise exactly that employee is removed, and their other records stay |
| AuthRoutes.Truthy | backend/routes/auth.js:53-55 | an optional string is kept exactly when it is non-empty |
| AuthRoutes.SignupValid | backend/routes/auth.js:10-26 | the signup validators: a non-empty employee id, an email `isEmail` accepts, a password of at least 6 characters, non-empty first and last names, and a role among Employee, HR, Admin; any failure is 400 |
| AuthRoutes.SignupInput | backend/routes/auth.js:43-56 | the new account data is verified, carries the requested role and email, and includes each optional field exactly when it was truthy |
| AuthRoutes.Signup | backend/routes/auth.js:10-76 | validation failure is 400 before any lookup; an existing employee id, or an existing email in the lowercased form the query casts to, is 400 and nothing changes; otherwise exactly one account is added and a token for it returned |
| AuthRoutes.NewAccountDefaults | backend/routes/auth.js:43-58 | a new account is active and verified, has the requested role, names and balances 20/10/0, stores the hash of the password and the lowercased email, sets phone number, department and designation exactly when truthy, and joins on the given date or else at creation |
| AuthRoutes.Signin | backend/routes/auth.js:81-133 | a bad email or empty password is 400; the lookup uses the normalized email cast to lowercase; an unknown email and a wrong password get the same 401; inactive is 403 only after the password matches; success returns a token for an active account |
| AuthRoutes.Me | backend/routes/auth.js:146-152 | the reply is the caller's record without the password |

## Left out

- The front end (`frontend/src/**`) and `backend/server.js` are not part of this model. They are rendering, routing and process wiring.
- bcrypt, JWT signing and verification, `isEmail` and `normalizeEmail` are function parameters with no properties assumed. Token expiry and the secret live inside `verify`.
- Common.Midnight: truncates to UTC midnight, where `setHours(0, 0, 0, 0)` truncates in the server's local zone.
- JavaScript numbers: amounts are integer cents, and work hours are integer hundredths of an hour. Floating-point rounding in the salary sums and in `Math.round` is not modelled.
- Request bodies are typed. A missing or ill-typed required field makes the original throw a schema validation error and answer 500. The model covers only these validation failures: a missing field on attendance create, a payroll month outside 1..12, and the signup and signin validators. Other cases are not modelled: a missing leave `reason`, an unparsable date, an enum string outside the enum, an empty required string on employee update, and a too-short password set through the schema.
- Mongoose runs validation before the `pre('save')` hooks. So a payroll created without `grossSalary` and `netSalary`, or a leave without `numberOfDays`, fails `required` in the original. The model stores the values the hooks derive instead.
- `trim` on string fields is not modelled: the employee id, email, names and other trimmed fields are stored as given.
- Text.Lower: lowercases ASCII letters only, where JavaScript's `toLowerCase` also lowercases other Unicode letters.
- A body key set to `null` is treated like an absent key. Object.assign copies `null`, but the model has no null. A nested object such as `address` or `allowances` is replaced as a whole.
- `populate` is modelled only where it changes the outcome: a leave review and an Employee's payroll lookup whose owning employee was deleted answer 500. The populated fields of a reply are not modelled.
- Invalid ObjectId strings make `findById` throw a cast error and answer 500. Ids here are natural numbers, so every id parses.
- The `createdAt`/`updatedAt` timestamps are kept only where listings sort by them. A leave's or an employee's `createdAt` is the instant `now` passed to the handler. Later updates do not touch it.
- Concurrency: each request runs as one atomic step. The leave review writes the request and then the balance, and a failure between the two writes is modelled only for the deleted-owner case.
- The `count` field and the JSON envelope (`success`) of replies are not modelled. A reply is its status code and message.
