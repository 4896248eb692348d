/** The four collections behind the routes, as maps keyed by document id, with the
    unique indexes and the derived fields every saved document satisfies. */
module Stores {
  import opened Common
  import Text
  import opened EmployeeModel
  import AttendanceModel
  import LeaveModel
  import PayrollModel

  /** Every id of `m` was handed out before `next`. */
  ghost predicate IdsBelow<T>(m: map<Id, T>, next: Id) {
    forall id :: id in m ==> id < next
  }

  /** The unique indexes on `employeeId` and on `email`. */
  ghost predicate EmployeesUnique(m: map<Id, EmployeeRecord>) {
    forall a, b :: a in m && b in m && a != b ==>
      m[a].employeeId != m[b].employeeId && m[a].email != m[b].email
  }

  /** Some employee other than `except` already has `employeeId` or `email`: the condition
      under which the unique indexes refuse a write. */
  predicate IdentityTaken(m: map<Id, EmployeeRecord>, except: Option<Id>, employeeId: string, email: string) {
    exists other :: other in m && Some(other) != except && (m[other].employeeId == employeeId || m[other].email == email)
  }

  /** Writing `e` under `id` keeps both unique indexes exactly when no other employee
      already has its employee id or email. */
  lemma {:induction false} IdentityTakenIsIndexViolation(m: map<Id, EmployeeRecord>, id: Id, e: EmployeeRecord)
    requires EmployeesUnique(m)
    ensures EmployeesUnique(m[id := e]) <==> !IdentityTaken(m, Some(id), e.employeeId, e.email)
  {
    var m' := m[id := e];
    if IdentityTaken(m, Some(id), e.employeeId, e.email) {
      var other :| other in m && Some(other) != Some(id) && (m[other].employeeId == e.employeeId || m[other].email == e.email);
      assert other in m' && id in m' && other != id && m'[other] == m[other] && m'[id] == e;
    } else {
      forall a, b | a in m' && b in m' && a != b
        ensures m'[a].employeeId != m'[b].employeeId && m'[a].email != m'[b].email
      {
        if a == id {
          assert b in m && Some(b) != Some(id);
        } else if b == id {
          assert a in m && Some(a) != Some(id);
        }
      }
    }
  }

  /** What every stored employee satisfies: the unique indexes hold and emails are lowercase. */
  ghost predicate EmployeesValid(m: map<Id, EmployeeRecord>) {
    && EmployeesUnique(m)
    && (forall id :: id in m ==> Text.IsLower(m[id].email))
  }

  /** The compound unique index `{ employee: 1, date: 1 }`. */
  function DayKey(a: AttendanceModel.AttendanceRecord): (Id, int) {
    (a.employee, a.date)
  }

  ghost predicate AttendanceUnique(m: map<Id, AttendanceModel.AttendanceRecord>) {
    forall a, b :: a in m && b in m && a != b ==> DayKey(m[a]) != DayKey(m[b])
  }

  /** What every stored attendance record satisfies: one record per (employee, date), and
      work hours consistent with the timestamps. */
  ghost predicate AttendanceValid(m: map<Id, AttendanceModel.AttendanceRecord>) {
    && AttendanceUnique(m)
    && (forall id :: id in m ==> AttendanceModel.HoursConsistent(m[id]))
  }

  /** What every stored leave request satisfies: its day count matches its dates. */
  ghost predicate LeavesValid(m: map<Id, LeaveModel.LeaveRequest>) {
    forall id :: id in m ==> m[id].numberOfDays == LeaveModel.DayCount(m[id].startDate, m[id].endDate)
  }

  /** The compound unique index `{ employee: 1, month: 1, year: 1 }`. */
  function PeriodOf(p: PayrollModel.PayrollRecord): (Id, int, int) {
    (p.employee, p.month, p.year)
  }

  ghost predicate PayrollUnique(m: map<Id, PayrollModel.PayrollRecord>) {
    forall a, b :: a in m && b in m && a != b ==> PeriodOf(m[a]) != PeriodOf(m[b])
  }

  /** What every stored payroll satisfies: one record per (employee, month, year), a month
      in range, and gross/net following the salary formula. */
  ghost predicate PayrollsValid(m: map<Id, PayrollModel.PayrollRecord>) {
    && PayrollUnique(m)
    && (forall id :: id in m ==> PayrollModel.ValidMonth(m[id].month))
    && (forall id :: id in m ==> PayrollModel.SalaryConsistent(m[id]))
  }

  /** The database: one map per collection and the source of fresh ids. */
  class Store {
    var employees: map<Id, EmployeeRecord>
    var attendance: map<Id, AttendanceModel.AttendanceRecord>
    var leaves: map<Id, LeaveModel.LeaveRequest>
    var payrolls: map<Id, PayrollModel.PayrollRecord>
    var nextId: Id

    ghost predicate Valid()
      reads this
    {
      && IdsBelow(employees, nextId) && IdsBelow(attendance, nextId)
      && IdsBelow(leaves, nextId) && IdsBelow(payrolls, nextId)
      && EmployeesValid(employees)
      && AttendanceValid(attendance)
      && LeavesValid(leaves)
      && PayrollsValid(payrolls)
    }

    constructor ()
      ensures Valid()
      ensures employees == map[] && attendance == map[] && leaves == map[] && payrolls == map[]
    {
      employees, attendance, leaves, payrolls := map[], map[], map[], map[];
      nextId := 0;
    }

    /** A new document id, used by no collection. */
    method FreshId() returns (id: Id)
      requires Valid()
      modifies this`nextId
      ensures Valid()
      ensures id == old(nextId) && nextId == id + 1
      ensures id !in employees && id !in attendance && id !in leaves && id !in payrolls
    {
      id := nextId;
      nextId := nextId + 1;
    }
  }
}
