/** The leave routes (backend/routes/leave.js): list, apply with the balance check,
    review with the one-way status transition and the balance decrement, and delete. */
module LeaveRoutes {
  import opened Common
  import opened LeaveModel
  import opened EmployeeModel
  import Stores
  import Listing
  import AuthMiddleware

  /** The string a `status` query parameter is compared with. */
  function StatusName(s: LeaveStatus): string {
    match s
    case Pending => "Pending"
    case Approved => "Approved"
    case Rejected => "Rejected"
  }

  /** The listing query: an Employee sees only their own requests; a non-empty status
      parameter keeps only the requests with that status. */
  predicate Listed(l: LeaveRequest, me: Id, role: Role, statusFilter: string) {
    && (role == Employee ==> l.employee == me)
    && (statusFilter != "" ==> StatusName(l.status) == statusFilter)
  }

  /** The matching requests with their sort key, `createdAt`. */
  function ListingKeys(leaves: map<Id, LeaveRequest>, me: Id, role: Role, statusFilter: string): (keys: map<Id, int>)
    ensures forall id :: id in keys <==> id in leaves && Listed(leaves[id], me, role, statusFilter)
  {
    map id | id in leaves && Listed(leaves[id], me, role, statusFilter) :: leaves[id].createdAt
  }

  /** `GET /api/leave`: the matching requests, newest first, each once. */
  method List(st: Stores.Store, me: Id, statusFilter: string) returns (r: Reply, ids: seq<Id>)
    requires me in st.employees
    ensures r == Reply(200, NoMessage)
    ensures var keys := ListingKeys(st.leaves, me, st.employees[me].role, statusFilter);
            multiset(ids) == multiset(keys.Keys) && Listing.SortedDesc(ids, keys)
    ensures forall i :: 0 <= i < |ids| ==> ids[i] in st.leaves
    ensures forall i, j :: 0 <= i < j < |ids| ==> st.leaves[ids[i]].createdAt >= st.leaves[ids[j]].createdAt
    ensures st.employees[me].role == Employee ==> forall i :: 0 <= i < |ids| ==> st.leaves[ids[i]].employee == me
  {
    var keys := ListingKeys(st.leaves, me, st.employees[me].role, statusFilter);
    ids := Listing.SortByKeyDesc(keys);
    r := Reply(200, NoMessage);
    forall i | 0 <= i < |ids|
      ensures ids[i] in keys
    {
      assert ids[i] in multiset(ids);
    }
  }

  /** The balance check of `POST /api/leave`: Paid and Sick requests longer than the
      matching balance are refused with the available balance in the message; Unpaid
      requests are never refused. */
  function BalanceCheck(b: LeaveBalance, leaveType: LeaveType, days: int): (stop: Option<Reply>)
    ensures stop.None? <==> (leaveType == Paid ==> days <= b.paid) && (leaveType == Sick ==> days <= b.sick)
    ensures leaveType == Paid && b.paid < days ==> stop == Some(Reply(400, InsufficientPaid(b.paid)))
    ensures leaveType == Sick && b.sick < days ==> stop == Some(Reply(400, InsufficientSick(b.sick)))
  {
    if leaveType == Paid && b.paid < days then Some(Reply(400, InsufficientPaid(b.paid)))
    else if leaveType == Sick && b.sick < days then Some(Reply(400, InsufficientSick(b.sick)))
    else None
  }

  /** `POST /api/leave`: the balance check on the caller's current balance, then a new
      Pending request with its day count. */
  method Apply(
    st: Stores.Store, me: Id, leaveType: LeaveType, startDate: int, endDate: int, reason: string, now: int)
    returns (r: Reply)
    requires st.Valid() && me in st.employees
    modifies st
    ensures st.Valid()
    ensures var stop := BalanceCheck(old(st.employees[me].leaveBalance), leaveType, DayCount(startDate, endDate));
            if stop.Some? then r == stop.value && unchanged(st)
            else
              && r == Reply(201, LeaveSubmitted)
              && st.leaves == old(st.leaves)[old(st.nextId) := NewLeave(me, leaveType, startDate, endDate, reason, now)]
              && st.nextId == old(st.nextId) + 1
              && st.employees == old(st.employees) && st.attendance == old(st.attendance)
              && st.payrolls == old(st.payrolls)
  {
    var days := DayCount(startDate, endDate);
    var stop := BalanceCheck(st.employees[me].leaveBalance, leaveType, days);
    if stop.Some? {
      return stop.value;
    }
    var id := st.FreshId();
    st.leaves := st.leaves[id := NewLeave(me, leaveType, startDate, endDate, reason, now)];
    r := Reply(201, LeaveSubmitted);
  }

  /** `leaveTypeMap` and the skip of 'unpaid': the balance after approving `days` of a
      request of type `leaveType`. */
  function Debit(b: LeaveBalance, leaveType: LeaveType, days: int): (r: LeaveBalance)
    ensures r.unpaid == b.unpaid
    ensures r.paid == if leaveType == Paid then b.paid - days else b.paid
    ensures r.sick == if leaveType == Sick then b.sick - days else b.sick
  {
    match leaveType
    case Paid => b.(paid := b.paid - days)
    case Sick => b.(sick := b.sick - days)
    case Unpaid => b
  }

  /** `PUT /api/leave/:id/review` (Admin, HR): the status must be Approved or Rejected
      (checked before the lookup), the request must exist and still be Pending. The
      request is then stamped and saved; on approval of a Paid or Sick request the owner's
      matching balance drops by its day count without any check, or, when the owner no
      longer exists, the reply is 500 with the request already saved. */
  method Review(st: Stores.Store, me: Id, id: Id, status: string, reviewComments: Option<string>, now: int)
    returns (r: Reply)
    requires st.Valid() && me in st.employees
    modifies st
    ensures st.Valid()
    ensures st.attendance == old(st.attendance) && st.payrolls == old(st.payrolls) && st.nextId == old(st.nextId)
    ensures var role := old(st.employees[me].role);
            role !in {Admin, HR} ==> r == Reply(403, RoleNotAuthorized(role)) && unchanged(st)
    ensures var role := old(st.employees[me].role);
            role in {Admin, HR} && status !in {"Approved", "Rejected"} ==>
              r == Reply(400, InvalidReviewStatus) && unchanged(st)
    ensures var role := old(st.employees[me].role);
            role in {Admin, HR} && status in {"Approved", "Rejected"} && id !in old(st.leaves) ==>
              r == Reply(404, LeaveNotFound) && unchanged(st)
    ensures var role := old(st.employees[me].role);
            role in {Admin, HR} && status in {"Approved", "Rejected"} && id in old(st.leaves) &&
            old(st.leaves[id].status) != Pending ==>
              r == Reply(400, AlreadyReviewed) && unchanged(st)
    ensures var role := old(st.employees[me].role);
            role in {Admin, HR} && status in {"Approved", "Rejected"} && id in old(st.leaves) &&
            old(st.leaves[id].status) == Pending ==>
              var l := old(st.leaves[id]);
              var approved := status == "Approved";
              && st.leaves == old(st.leaves)[id := l.(
                   status := if approved then Approved else Rejected,
                   reviewedBy := Some(me), reviewedAt := Some(now), reviewComments := reviewComments)]
              && if approved && l.leaveType != Unpaid && l.employee !in old(st.employees) then
                   r == Reply(500, ServerError) && st.employees == old(st.employees)
                 else
                   && r == Reply(200, LeaveReviewed(approved))
                   && st.employees == if approved && l.leaveType != Unpaid then
                        old(st.employees)[l.employee := old(st.employees[l.employee]).(
                          leaveBalance := Debit(old(st.employees[l.employee].leaveBalance), l.leaveType, l.numberOfDays))]
                      else old(st.employees)
  {
    var stop := AuthMiddleware.Authorize([Admin, HR], st.employees[me].role);
    if stop.Some? {
      return stop.value;
    }
    if status != "Approved" && status != "Rejected" {
      return Reply(400, InvalidReviewStatus);
    }
    if id !in st.leaves {
      return Reply(404, LeaveNotFound);
    }
    var leave := st.leaves[id];
    if leave.status != Pending {
      return Reply(400, AlreadyReviewed);
    }
    var approved := status == "Approved";
    leave := leave.(status := if approved then Approved else Rejected,
                    reviewedBy := Some(me), reviewedAt := Some(now), reviewComments := reviewComments);
    // The dates are untouched, so the save hook keeps numberOfDays.
    st.leaves := st.leaves[id := ComputeDaysOnSave(leave, false, false)];
    if approved && leave.leaveType != Unpaid {
      if leave.employee !in st.employees {
        return Reply(500, ServerError);
      }
      var owner := st.employees[leave.employee];
      owner := owner.(leaveBalance := Debit(owner.leaveBalance, leave.leaveType, leave.numberOfDays));
      // The password is untouched, so the save hook keeps it.
      st.employees := st.employees[leave.employee := HashPasswordOnSave(owner, false, s => s)];
    }
    r := Reply(200, LeaveReviewed(approved));
  }

  /** `DELETE /api/leave/:id`: 404 for a missing request; an Employee may delete only
      their own request (403) and only while it is Pending (400); HR and Admin may delete
      any request. */
  method Delete(st: Stores.Store, me: Id, id: Id) returns (r: Reply)
    requires st.Valid() && me in st.employees
    modifies st
    ensures st.Valid()
    ensures st.employees == old(st.employees) && st.attendance == old(st.attendance)
    ensures st.payrolls == old(st.payrolls) && st.nextId == old(st.nextId)
    ensures id !in old(st.leaves) ==> r == Reply(404, LeaveNotFound) && unchanged(st)
    ensures id in old(st.leaves) ==>
              var l := old(st.leaves[id]);
              var role := old(st.employees[me].role);
              if role == Employee && l.employee != me then r == Reply(403, NotAuthorizedDeleteLeave) && unchanged(st)
              else if role == Employee && l.status != Pending then r == Reply(400, CannotDeleteReviewed) && unchanged(st)
              else r == Reply(200, LeaveDeleted) && st.leaves == old(st.leaves) - {id}
  {
    if id !in st.leaves {
      return Reply(404, LeaveNotFound);
    }
    var leave := st.leaves[id];
    if st.employees[me].role == Employee {
      if leave.employee != me {
        return Reply(403, NotAuthorizedDeleteLeave);
      }
      if leave.status != Pending {
        return Reply(400, CannotDeleteReviewed);
      }
    }
    st.leaves := st.leaves - {id};
    r := Reply(200, LeaveDeleted);
  }

  /** The balance after approving `approvals` one after the other. */
  function ApproveAll(b: LeaveBalance, approvals: seq<LeaveRequest>): LeaveBalance
    decreases |approvals|
  {
    if approvals == [] then b
    else ApproveAll(Debit(b, approvals[0].leaveType, approvals[0].numberOfDays), approvals[1..])
  }

  /** The days of the requests of type `leaveType` in `ls`. */
  function DaysOfType(ls: seq<LeaveRequest>, leaveType: LeaveType): int
    decreases |ls|
  {
    if ls == [] then 0
    else (if ls[0].leaveType == leaveType then ls[0].numberOfDays else 0) + DaysOfType(ls[1..], leaveType)
  }

  /** Approvals add up: after a run of approvals the paid and sick balances have dropped by
      the days of the approved requests of that type, and the unpaid counter is untouched. */
  lemma {:induction false} ApproveAllDebitsByType(b: LeaveBalance, approvals: seq<LeaveRequest>)
    ensures ApproveAll(b, approvals) ==
              LeaveBalance(b.paid - DaysOfType(approvals, Paid), b.sick - DaysOfType(approvals, Sick), b.unpaid)
    decreases |approvals|
  {
    if approvals != [] {
      var l := approvals[0];
      ApproveAllDebitsByType(Debit(b, l.leaveType, l.numberOfDays), approvals[1..]);
    }
  }

  const JAN_1_2024: int := 1704067200000
  const JAN_3_2024: int := JAN_1_2024 + 2 * MS_PER_DAY

  /** A Paid request for January 1 to 3 counts 3 days; against a paid balance of 5 it
      passes the check, and approving it leaves 2. */
  lemma ThreeDayPaidLeaveScenario(l: LeaveRequest)
    requires l.leaveType == Paid && l.numberOfDays == DayCount(JAN_1_2024, JAN_3_2024)
    ensures DayCount(JAN_1_2024, JAN_3_2024) == 3
    ensures BalanceCheck(LeaveBalance(5, 10, 0), Paid, 3).None?
    ensures ApproveAll(LeaveBalance(5, 10, 0), [l]).paid == 2
  {
  }

  /** The check runs at application time only: two such requests both pass against a
      balance of 5 while Pending, and approving both takes the balance to -1. */
  lemma BalanceCanGoNegative(l: LeaveRequest)
    requires l.leaveType == Paid && l.numberOfDays == 3
    ensures BalanceCheck(LeaveBalance(5, 10, 0), Paid, l.numberOfDays).None?
    ensures ApproveAll(LeaveBalance(5, 10, 0), [l, l]).paid == -1
  {
    ApproveAllDebitsByType(LeaveBalance(5, 10, 0), [l, l]);
    assert [l, l][1..] == [l] && [l][1..] == [];
    assert DaysOfType([l], Paid) == 3;
  }
}
