/** The payroll routes (backend/routes/payroll.js): the role-scoped listing, the single
    record with its ownership check, and the Admin/HR maintenance routes. */
module PayrollRoutes {
  import opened Common
  import opened PayrollModel
  import Stores
  import Listing
  import AuthMiddleware

  /** The listing query: an Employee is held to their own records whatever `employeeId`
      says; `month` and `year` filter when given. */
  predicate Listed(p: PayrollRecord, me: Id, role: Role, employeeId: Option<Id>, month: Option<int>, year: Option<int>) {
    && (role == Employee ==> p.employee == me)
    && (role != Employee && employeeId.Some? ==> p.employee == employeeId.value)
    && (month.Some? ==> p.month == month.value)
    && (year.Some? ==> p.year == year.value)
  }

  /** The matching records with their sort key, the pay period. */
  function ListingKeys(
    m: map<Id, PayrollRecord>, me: Id, role: Role, employeeId: Option<Id>, month: Option<int>, year: Option<int>)
    : (keys: map<Id, int>)
    ensures forall id :: id in keys <==> id in m && Listed(m[id], me, role, employeeId, month, year)
  {
    map id | id in m && Listed(m[id], me, role, employeeId, month, year) :: PeriodKey(m[id])
  }

  /** `GET /api/payroll`: the matching records, each once, latest year first and within a
      year latest month first. */
  method List(st: Stores.Store, me: Id, employeeId: Option<Id>, month: Option<int>, year: Option<int>)
    returns (r: Reply, ids: seq<Id>)
    requires st.Valid() && me in st.employees
    ensures r == Reply(200, NoMessage)
    ensures multiset(ids) == multiset(ListingKeys(st.payrolls, me, st.employees[me].role, employeeId, month, year).Keys)
    ensures forall i :: 0 <= i < |ids| ==> ids[i] in st.payrolls
    ensures forall i, j :: 0 <= i < j < |ids| ==>
              var p, q := st.payrolls[ids[i]], st.payrolls[ids[j]];
              p.year > q.year || (p.year == q.year && p.month >= q.month)
    ensures st.employees[me].role == Employee ==> forall i :: 0 <= i < |ids| ==> st.payrolls[ids[i]].employee == me
  {
    var keys := ListingKeys(st.payrolls, me, st.employees[me].role, employeeId, month, year);
    ids := Listing.SortByKeyDesc(keys);
    r := Reply(200, NoMessage);
    forall i | 0 <= i < |ids|
      ensures ids[i] in keys
    {
      assert ids[i] in multiset(ids);
    }
    forall i, j | 0 <= i < j < |ids|
      ensures var p, q := st.payrolls[ids[i]], st.payrolls[ids[j]];
              p.year > q.year || (p.year == q.year && p.month >= q.month)
    {
      PeriodKeyOrdersByYearThenMonth(st.payrolls[ids[i]], st.payrolls[ids[j]]);
    }
  }

  /** `GET /api/payroll/:id`: 404 for a missing record; for an Employee the record's owner
      is read through the populated reference, so a record whose owner was deleted is a
      server error (500), and another employee's record is refused (403). HR and Admin see
      every record. */
  method Get(st: Stores.Store, me: Id, id: Id) returns (r: Reply, payroll: Option<PayrollRecord>)
    requires me in st.employees
    ensures id !in st.payrolls ==> r == Reply(404, PayrollNotFound) && payroll.None?
    ensures id in st.payrolls ==>
              var p := st.payrolls[id];
              if st.employees[me].role == Employee && p.employee !in st.employees then
                r == Reply(500, ServerError) && payroll.None?
              else if st.employees[me].role == Employee && p.employee != me then
                r == Reply(403, NotAuthorizedViewPayroll) && payroll.None?
              else r == Reply(200, NoMessage) && payroll == Some(p)
    ensures payroll.Some? && st.employees[me].role == Employee ==> payroll.value.employee == me
  {
    if id !in st.payrolls {
      return Reply(404, PayrollNotFound), None;
    }
    var p := st.payrolls[id];
    if st.employees[me].role == Employee {
      if p.employee !in st.employees {
        return Reply(500, ServerError), None;
      }
      if p.employee != me {
        return Reply(403, NotAuthorizedViewPayroll), None;
      }
    }
    r, payroll := Reply(200, NoMessage), Some(p);
  }

  /** Some record other than `id` already holds `period`. */
  predicate ClashesWith(m: map<Id, PayrollRecord>, id: Option<Id>, period: (Id, int, int)) {
    exists other :: other in m && Some(other) != id && Stores.PeriodOf(m[other]) == period
  }

  /** Writing `p` under `id` keeps the (employee, month, year) index exactly when no other
      record already holds its period. */
  lemma {:induction false} ClashIsIndexViolation(m: map<Id, PayrollRecord>, id: Id, p: PayrollRecord)
    requires Stores.PayrollUnique(m)
    ensures Stores.PayrollUnique(m[id := p]) <==> !ClashesWith(m, Some(id), Stores.PeriodOf(p))
  {
    var m' := m[id := p];
    if ClashesWith(m, Some(id), Stores.PeriodOf(p)) {
      var other :| other in m && Some(other) != Some(id) && Stores.PeriodOf(m[other]) == Stores.PeriodOf(p);
      assert other in m' && id in m' && other != id && m'[other] == m[other] && m'[id] == p;
    } else {
      forall x, y | x in m' && y in m' && x != y
        ensures Stores.PeriodOf(m'[x]) != Stores.PeriodOf(m'[y])
      {
        if x == id {
          assert y in m && Some(y) != Some(id);
        } else if y == id {
          assert x in m && Some(x) != Some(id);
        }
      }
    }
  }

  /** `POST /api/payroll` (Admin, HR): a month out of range fails schema validation (500);
      a record for an (employee, month, year) that already has one violates the index and is
      refused (400), never merged; otherwise the record is created with the caller as
      `createdBy` and gross and net computed. */
  method Create(st: Stores.Store, me: Id, body: PayrollBody) returns (r: Reply)
    requires st.Valid() && me in st.employees
    modifies st
    ensures st.Valid()
    ensures st.employees == old(st.employees) && st.attendance == old(st.attendance) && st.leaves == old(st.leaves)
    ensures var role := old(st.employees[me].role);
            if role !in {Admin, HR} then r == Reply(403, RoleNotAuthorized(role)) && unchanged(st)
            else if !ValidMonth(body.month) then r == Reply(500, ServerError) && unchanged(st)
            else if old(ClashesWith(st.payrolls, None, (body.employee, body.month, body.year))) then
              r == Reply(400, PayrollExists) && unchanged(st)
            else
              && r == Reply(201, PayrollCreated)
              && st.payrolls == old(st.payrolls)[old(st.nextId) := NewPayroll(body, me)]
              && st.nextId == old(st.nextId) + 1
  {
    var stop := AuthMiddleware.Authorize([Admin, HR], st.employees[me].role);
    if stop.Some? {
      return stop.value;
    }
    if !ValidMonth(body.month) {
      return Reply(500, ServerError);
    }
    if ClashesWith(st.payrolls, None, (body.employee, body.month, body.year)) {
      return Reply(400, PayrollExists);
    }
    var id := st.FreshId();
    var created := NewPayroll(body, me);
    assert Stores.PeriodOf(created) == (body.employee, body.month, body.year);
    st.payrolls := st.payrolls[id := created];
    r := Reply(201, PayrollCreated);
  }

  /** `PUT /api/payroll/:id` (Admin, HR): 404 for a missing record; otherwise the body is
      assigned over the record and saved, so gross and net follow the formula whatever the
      body said; a month out of range (500) or a collision with another record's
      (employee, month, year) (500) saves nothing. */
  method Update(st: Stores.Store, me: Id, id: Id, patch: PayrollPatch) returns (r: Reply)
    requires st.Valid() && me in st.employees
    modifies st
    ensures st.Valid()
    ensures st.employees == old(st.employees) && st.attendance == old(st.attendance)
    ensures st.leaves == old(st.leaves) && st.nextId == old(st.nextId)
    ensures var role := old(st.employees[me].role);
            if role !in {Admin, HR} then r == Reply(403, RoleNotAuthorized(role)) && unchanged(st)
            else if id !in old(st.payrolls) then r == Reply(404, PayrollNotFound) && unchanged(st)
            else
              var updated := ComputeSalaryOnSave(Assign(old(st.payrolls[id]), patch));
              if !ValidMonth(updated.month) || old(ClashesWith(st.payrolls, Some(id), Stores.PeriodOf(updated))) then
                r == Reply(500, ServerError) && unchanged(st)
              else r == Reply(200, PayrollUpdated) && st.payrolls == old(st.payrolls)[id := updated]
  {
    var stop := AuthMiddleware.Authorize([Admin, HR], st.employees[me].role);
    if stop.Some? {
      return stop.value;
    }
    if id !in st.payrolls {
      return Reply(404, PayrollNotFound);
    }
    var updated := ComputeSalaryOnSave(Assign(st.payrolls[id], patch));
    if !ValidMonth(updated.month) {
      return Reply(500, ServerError);
    }
    if ClashesWith(st.payrolls, Some(id), Stores.PeriodOf(updated)) {
      return Reply(500, ServerError);
    }
    st.payrolls := st.payrolls[id := updated];
    r := Reply(200, PayrollUpdated);
  }

  /** The salary fields the update route stores do not depend on the gross and net the
      body carried. */
  lemma UpdateIgnoresClientTotals(p: PayrollRecord, patch: PayrollPatch, gross: int, net: int)
    ensures ComputeSalaryOnSave(Assign(p, patch.(grossSalary := Some(gross), netSalary := Some(net)))) ==
            ComputeSalaryOnSave(Assign(p, patch.(grossSalary := None, netSalary := None)))
  {
    var a := Assign(p, patch.(grossSalary := Some(gross), netSalary := Some(net)));
    var b := Assign(p, patch.(grossSalary := None, netSalary := None));
    assert a == b.(grossSalary := gross, netSalary := net);
    ClientTotalsIgnored(b, gross, net);
  }

  /** `DELETE /api/payroll/:id` (Admin only): 404 for a missing record, else it is removed. */
  method Delete(st: Stores.Store, me: Id, id: Id) returns (r: Reply)
    requires st.Valid() && me in st.employees
    modifies st
    ensures st.Valid()
    ensures st.employees == old(st.employees) && st.attendance == old(st.attendance)
    ensures st.leaves == old(st.leaves) && st.nextId == old(st.nextId)
    ensures var role := old(st.employees[me].role);
            if role != Admin then r == Reply(403, RoleNotAuthorized(role)) && unchanged(st)
            else if id !in old(st.payrolls) then r == Reply(404, PayrollNotFound) && unchanged(st)
            else r == Reply(200, PayrollDeleted) && st.payrolls == old(st.payrolls) - {id}
  {
    var stop := AuthMiddleware.Authorize([Admin], st.employees[me].role);
    if stop.Some? {
      return stop.value;
    }
    if id !in st.payrolls {
      return Reply(404, PayrollNotFound);
    }
    st.payrolls := st.payrolls - {id};
    r := Reply(200, PayrollDeleted);
  }
}
