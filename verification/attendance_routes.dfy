/** The attendance routes (backend/routes/attendance.js): the role-scoped listing, the
    check-in/check-out cycle of one employee on one day, and the Admin/HR maintenance
    routes. */
module AttendanceRoutes {
  import opened Common
  import opened AttendanceModel
  import Stores
  import Listing
  import AuthMiddleware

  /** The listing query: an Employee is held to their own records whatever `employeeId`
      says; the date range applies only when both ends are given, and includes both ends. */
  predicate Listed(
    a: AttendanceRecord, me: Id, role: Role, employeeId: Option<Id>, startDate: Option<int>, endDate: Option<int>)
  {
    && (role == Employee ==> a.employee == me)
    && (role != Employee && employeeId.Some? ==> a.employee == employeeId.value)
    && (startDate.Some? && endDate.Some? ==> startDate.value <= a.date <= endDate.value)
  }

  /** The matching records with their sort key, `date`. */
  function ListingKeys(
    m: map<Id, AttendanceRecord>, me: Id, role: Role, employeeId: Option<Id>, startDate: Option<int>, endDate: Option<int>)
    : (keys: map<Id, int>)
    ensures forall id :: id in keys <==> id in m && Listed(m[id], me, role, employeeId, startDate, endDate)
  {
    map id | id in m && Listed(m[id], me, role, employeeId, startDate, endDate) :: m[id].date
  }

  /** `GET /api/attendance`: the matching records, latest date first, each once. */
  method List(st: Stores.Store, me: Id, employeeId: Option<Id>, startDate: Option<int>, endDate: Option<int>)
    returns (r: Reply, ids: seq<Id>)
    requires me in st.employees
    ensures r == Reply(200, NoMessage)
    ensures var keys := ListingKeys(st.attendance, me, st.employees[me].role, employeeId, startDate, endDate);
            multiset(ids) == multiset(keys.Keys) && Listing.SortedDesc(ids, keys)
    ensures forall i :: 0 <= i < |ids| ==> ids[i] in st.attendance
    ensures forall i, j :: 0 <= i < j < |ids| ==> st.attendance[ids[i]].date >= st.attendance[ids[j]].date
    ensures st.employees[me].role == Employee ==> forall i :: 0 <= i < |ids| ==> st.attendance[ids[i]].employee == me
  {
    var keys := ListingKeys(st.attendance, me, st.employees[me].role, employeeId, startDate, endDate);
    ids := Listing.SortByKeyDesc(keys);
    r := Reply(200, NoMessage);
    forall i | 0 <= i < |ids|
      ensures ids[i] in keys
    {
      assert ids[i] in multiset(ids);
    }
  }

  /** Where one employee stands on one day: no record yet, a record without a check-out,
      or a record with one. */
  datatype DayState = NoRecord | Open | Closed

  /** Some record of `employee` on `day`, if there is one. */
  predicate HasRecord(m: map<Id, AttendanceRecord>, employee: Id, day: int) {
    exists id :: id in m && Stores.DayKey(m[id]) == (employee, day)
  }

  ghost function StateOf(m: map<Id, AttendanceRecord>, employee: Id, day: int): DayState {
    if HasRecord(m, employee, day) then
      var id :| id in m && Stores.DayKey(m[id]) == (employee, day);
      if m[id].checkOut.Some? then Closed else Open
    else NoRecord
  }

  /** Under the (employee, date) index the state of a day is the state of its one record. */
  lemma StateOfRecord(m: map<Id, AttendanceRecord>, id: Id)
    requires Stores.AttendanceUnique(m) && id in m
    ensures StateOf(m, m[id].employee, m[id].date) == if m[id].checkOut.Some? then Closed else Open
  {
    var a := m[id];
    assert Stores.DayKey(a) == (a.employee, a.date);
    var other :| other in m && Stores.DayKey(m[other]) == (a.employee, a.date);
    assert other == id;
  }

  /** `POST /api/attendance/checkin`: the day is today's midnight; a second check-in that
      day is refused and changes nothing; the first creates a Present record whose check-in
      is now and which has no check-out. */
  method CheckIn(st: Stores.Store, me: Id, now: int) returns (r: Reply)
    requires st.Valid() && me in st.employees
    modifies st
    ensures st.Valid()
    ensures var today := Midnight(now);
            if old(StateOf(st.attendance, me, today)) != NoRecord then
              r == Reply(400, AlreadyCheckedIn) && unchanged(st)
            else
              && r == Reply(201, CheckedIn)
              && st.attendance == old(st.attendance)[old(st.nextId) := NewAttendance(me, today, Present, Some(now), None, None, None)]
              && StateOf(st.attendance, me, today) == Open
              && st.nextId == old(st.nextId) + 1
              && st.employees == old(st.employees) && st.leaves == old(st.leaves) && st.payrolls == old(st.payrolls)
  {
    var today := Midnight(now);
    if HasRecord(st.attendance, me, today) {
      return Reply(400, AlreadyCheckedIn);
    }
    var id := st.FreshId();
    var created := NewAttendance(me, today, Present, Some(now), None, None, None);
    st.attendance := st.attendance[id := created];
    assert Stores.DayKey(created) == (me, today);
    StateOfRecord(st.attendance, id);
    r := Reply(201, CheckedIn);
  }

  /** `POST /api/attendance/checkout`: refused without a record for today, refused when
      today's record already has a check-out; otherwise that record gets check-out now and
      is saved, which recomputes its work hours and changes nothing else. */
  method CheckOut(st: Stores.Store, me: Id, now: int) returns (r: Reply)
    requires st.Valid() && me in st.employees
    modifies st
    ensures st.Valid()
    ensures var today := Midnight(now);
            match old(StateOf(st.attendance, me, today))
            case NoRecord => r == Reply(400, NoCheckInToday) && unchanged(st)
            case Closed => r == Reply(400, AlreadyCheckedOut) && unchanged(st)
            case Open =>
              && r == Reply(200, CheckedOut)
              && (exists id :: id in old(st.attendance) && Stores.DayKey(old(st.attendance[id])) == (me, today) &&
                   st.attendance == old(st.attendance)[id := ComputeHoursOnSave(old(st.attendance[id]).(checkOut := Some(now)))])
              && StateOf(st.attendance, me, today) == Closed
              && st.nextId == old(st.nextId)
              && st.employees == old(st.employees) && st.leaves == old(st.leaves) && st.payrolls == old(st.payrolls)
  {
    var today := Midnight(now);
    if !HasRecord(st.attendance, me, today) {
      return Reply(400, NoCheckInToday);
    }
    var id :| id in st.attendance && Stores.DayKey(st.attendance[id]) == (me, today);
    StateOfRecord(st.attendance, id);
    var record := st.attendance[id];
    if record.checkOut.Some? {
      return Reply(400, AlreadyCheckedOut);
    }
    record := record.(checkOut := Some(now));
    st.attendance := st.attendance[id := ComputeHoursOnSave(record)];
    StateOfRecord(st.attendance, id);
    r := Reply(200, CheckedOut);
  }

  /** After a check-out on a record that was checked in, the work hours are the rounded
      length of the day, and not negative when the clock did not go back. */
  lemma CheckOutHours(a: AttendanceRecord, now: int)
    requires a.checkIn.Some?
    ensures var b := ComputeHoursOnSave(a.(checkOut := Some(now)));
            && b.workHours == CentiHours(now - a.checkIn.value)
            && (a.checkIn.value <= now ==> b.workHours >= 0)
            && b.(workHours := a.workHours, checkOut := a.checkOut) == a
  {
  }

  /** `POST /api/attendance` (Admin, HR): a missing employee, date or status fails schema
      validation (500); a second record for the same (employee, date) violates the index
      (400); otherwise the record is created with the caller as `createdBy`. */
  method Create(
    st: Stores.Store, me: Id, employee: Option<Id>, date: Option<int>, status: Option<AttendanceStatus>,
    checkIn: Option<int>, checkOut: Option<int>, remarks: Option<string>)
    returns (r: Reply)
    requires st.Valid() && me in st.employees
    modifies st
    ensures st.Valid()
    ensures st.employees == old(st.employees) && st.leaves == old(st.leaves) && st.payrolls == old(st.payrolls)
    ensures var role := old(st.employees[me].role);
            if role !in {Admin, HR} then r == Reply(403, RoleNotAuthorized(role)) && unchanged(st)
            else if employee.None? || date.None? || status.None? then r == Reply(500, ServerError) && unchanged(st)
            else if old(HasRecord(st.attendance, employee.value, date.value)) then
              r == Reply(400, AttendanceExists) && unchanged(st)
            else
              && r == Reply(201, AttendanceCreated)
              && st.attendance == old(st.attendance)[old(st.nextId) :=
                   NewAttendance(employee.value, date.value, status.value, checkIn, checkOut, remarks, Some(me))]
              && st.nextId == old(st.nextId) + 1
  {
    var stop := AuthMiddleware.Authorize([Admin, HR], st.employees[me].role);
    if stop.Some? {
      return stop.value;
    }
    if employee.None? || date.None? || status.None? {
      return Reply(500, ServerError);
    }
    if HasRecord(st.attendance, employee.value, date.value) {
      return Reply(400, AttendanceExists);
    }
    var id := st.FreshId();
    var created := NewAttendance(employee.value, date.value, status.value, checkIn, checkOut, remarks, Some(me));
    assert Stores.DayKey(created) == (employee.value, date.value);
    st.attendance := st.attendance[id := created];
    r := Reply(201, AttendanceCreated);
  }

  /** Another record than `id` already holds `key`. */
  predicate ClashesWith(m: map<Id, AttendanceRecord>, id: Id, key: (Id, int)) {
    exists other :: other in m && other != id && Stores.DayKey(m[other]) == key
  }

  /** Writing `a` under `id` keeps the (employee, date) index exactly when no other record
      already holds its key. */
  lemma {:induction false} ClashIsIndexViolation(m: map<Id, AttendanceRecord>, id: Id, a: AttendanceRecord)
    requires Stores.AttendanceUnique(m)
    ensures Stores.AttendanceUnique(m[id := a]) <==> !ClashesWith(m, id, Stores.DayKey(a))
  {
    var m' := m[id := a];
    if ClashesWith(m, id, Stores.DayKey(a)) {
      var other :| other in m && other != id && Stores.DayKey(m[other]) == Stores.DayKey(a);
      assert other in m' && id in m' && m'[other] == m[other] && m'[id] == a;
    } else {
      forall x, y | x in m' && y in m' && x != y
        ensures Stores.DayKey(m'[x]) != Stores.DayKey(m'[y])
      {
        if x == id {
          assert y in m && y != id;
        } else if y == id {
          assert x in m && x != id;
        }
      }
    }
  }

  /** `PUT /api/attendance/:id` (Admin, HR): 404 for a missing record; otherwise the body is
      assigned over the record and saved, which recomputes the work hours; a change that
      collides with another record's (employee, date) is a server error, 500, and nothing
      is saved. */
  method Update(st: Stores.Store, me: Id, id: Id, patch: AttendancePatch) returns (r: Reply)
    requires st.Valid() && me in st.employees
    modifies st
    ensures st.Valid()
    ensures st.employees == old(st.employees) && st.leaves == old(st.leaves)
    ensures st.payrolls == old(st.payrolls) && st.nextId == old(st.nextId)
    ensures var role := old(st.employees[me].role);
            if role !in {Admin, HR} then r == Reply(403, RoleNotAuthorized(role)) && unchanged(st)
            else if id !in old(st.attendance) then r == Reply(404, AttendanceNotFound) && unchanged(st)
            else
              var updated := ComputeHoursOnSave(Assign(old(st.attendance[id]), patch));
              if old(ClashesWith(st.attendance, id, Stores.DayKey(updated))) then
                r == Reply(500, ServerError) && unchanged(st)
              else r == Reply(200, AttendanceUpdated) && st.attendance == old(st.attendance)[id := updated]
  {
    var stop := AuthMiddleware.Authorize([Admin, HR], st.employees[me].role);
    if stop.Some? {
      return stop.value;
    }
    if id !in st.attendance {
      return Reply(404, AttendanceNotFound);
    }
    var updated := ComputeHoursOnSave(Assign(st.attendance[id], patch));
    if ClashesWith(st.attendance, id, Stores.DayKey(updated)) {
      return Reply(500, ServerError);
    }
    st.attendance := st.attendance[id := updated];
    r := Reply(200, AttendanceUpdated);
  }

  /** `DELETE /api/attendance/:id` (Admin only): 404 for a missing record, else it is removed. */
  method Delete(st: Stores.Store, me: Id, id: Id) returns (r: Reply)
    requires st.Valid() && me in st.employees
    modifies st
    ensures st.Valid()
    ensures st.employees == old(st.employees) && st.leaves == old(st.leaves)
    ensures st.payrolls == old(st.payrolls) && st.nextId == old(st.nextId)
    ensures var role := old(st.employees[me].role);
            if role != Admin then r == Reply(403, RoleNotAuthorized(role)) && unchanged(st)
            else if id !in old(st.attendance) then r == Reply(404, AttendanceNotFound) && unchanged(st)
            else r == Reply(200, AttendanceDeleted) && st.attendance == old(st.attendance) - {id}
  {
    var stop := AuthMiddleware.Authorize([Admin], st.employees[me].role);
    if stop.Some? {
      return stop.value;
    }
    if id !in st.attendance {
      return Reply(404, AttendanceNotFound);
    }
    st.attendance := st.attendance - {id};
    r := Reply(200, AttendanceDeleted);
  }
}
