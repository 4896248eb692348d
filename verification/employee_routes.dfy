/** The employee routes (backend/routes/employees.js): the Admin/HR listing, the profile
    view with its ownership check, the update with its two permission levels, and delete. */
module EmployeeRoutes {
  import opened Common
  import opened EmployeeModel
  import Text
  import Stores
  import Listing
  import AuthMiddleware

  /** The employees with their sort key, `createdAt`. */
  function CreationKeys(m: map<Id, EmployeeRecord>): map<Id, int> {
    map id | id in m :: m[id].createdAt
  }

  /** `GET /api/employees` (Admin, HR): every employee once, newest first, without passwords. */
  method List(st: Stores.Store, me: Id) returns (r: Reply, ids: seq<Id>, profiles: seq<Profile>)
    requires me in st.employees
    ensures var role := st.employees[me].role;
            role !in {Admin, HR} ==> r == Reply(403, RoleNotAuthorized(role)) && ids == [] && profiles == []
    ensures st.employees[me].role in {Admin, HR} ==>
              && r == Reply(200, NoMessage)
              && multiset(ids) == multiset(st.employees.Keys)
              && (forall i :: 0 <= i < |ids| ==> ids[i] in st.employees)
              && (forall i, j :: 0 <= i < j < |ids| ==> st.employees[ids[i]].createdAt >= st.employees[ids[j]].createdAt)
              && |profiles| == |ids|
              && forall i :: 0 <= i < |ids| ==> profiles[i] == PublicProfile(st.employees[ids[i]])
  {
    var stop := AuthMiddleware.Authorize([Admin, HR], st.employees[me].role);
    if stop.Some? {
      return stop.value, [], [];
    }
    var keys := CreationKeys(st.employees);
    ids := Listing.SortByKeyDesc(keys);
    forall i | 0 <= i < |ids|
      ensures ids[i] in st.employees
    {
      assert ids[i] in multiset(ids);
    }
    assert keys.Keys == st.employees.Keys;
    var m := st.employees;
    profiles := seq(|ids|, i requires 0 <= i < |ids| && ids[i] in m => PublicProfile(m[ids[i]]));
    r := Reply(200, NoMessage);
  }

  /** `GET /api/employees/:id`: an Employee asking for another profile is refused (403)
      before the lookup, so even for a missing id; otherwise a missing id is 404 and a
      found one is returned without its password. */
  method Get(st: Stores.Store, me: Id, id: Id) returns (r: Reply, profile: Option<Profile>)
    requires me in st.employees
    ensures st.employees[me].role == Employee && me != id ==>
              r == Reply(403, NotAuthorizedViewProfile) && profile.None?
    ensures (st.employees[me].role != Employee || me == id) && id !in st.employees ==>
              r == Reply(404, EmployeeNotFound) && profile.None?
    ensures (st.employees[me].role != Employee || me == id) && id in st.employees ==>
              r == Reply(200, NoMessage) && profile == Some(PublicProfile(st.employees[id]))
  {
    if st.employees[me].role == Employee && me != id {
      return Reply(403, NotAuthorizedViewProfile), None;
    }
    if id !in st.employees {
      return Reply(404, EmployeeNotFound), None;
    }
    r, profile := Reply(200, NoMessage), Some(PublicProfile(st.employees[id]));
  }

  /** The fields an Employee may change on their own profile. */
  datatype EditableField = PhoneNumberField | AddressField | ProfilePictureField

  const EMPLOYEE_EDITABLE_FIELDS: seq<EditableField> := [PhoneNumberField, AddressField, ProfilePictureField]

  /** The body restricted to the editable fields: their keys as given, every other key absent. */
  function EditableOnly(body: EmployeePatch): (updates: EmployeePatch) {
    EMPTY_PATCH.(phoneNumber := body.phoneNumber, address := body.address, profilePicture := body.profilePicture)
  }

  /** `updates[field] = req.body[field]` for one field. */
  function CopyField(updates: EmployeePatch, body: EmployeePatch, f: EditableField): EmployeePatch {
    match f
    case PhoneNumberField => updates.(phoneNumber := body.phoneNumber)
    case AddressField => updates.(address := body.address)
    case ProfilePictureField => updates.(profilePicture := body.profilePicture)
  }

  /** Whether the body carries `f` (`req.body[field] !== undefined`). */
  predicate Present(body: EmployeePatch, f: EditableField) {
    match f
    case PhoneNumberField => body.phoneNumber.Some?
    case AddressField => body.address.Some?
    case ProfilePictureField => body.profilePicture.Some?
  }

  /** The loop over the editable fields that builds the self-service update: it copies
      exactly the editable keys the body carries and nothing else. */
  method SelfServiceUpdates(body: EmployeePatch) returns (updates: EmployeePatch)
    ensures updates == EditableOnly(body)
  {
    updates := EMPTY_PATCH;
    for i := 0 to |EMPLOYEE_EDITABLE_FIELDS|
      invariant updates.phoneNumber == if i > 0 then body.phoneNumber else None
      invariant updates.address == if i > 1 then body.address else None
      invariant updates.profilePicture == if i > 2 then body.profilePicture else None
      invariant updates == EMPTY_PATCH.(phoneNumber := updates.phoneNumber, address := updates.address,
                                        profilePicture := updates.profilePicture)
    {
      var f := EMPLOYEE_EDITABLE_FIELDS[i];
      if Present(body, f) {
        updates := CopyField(updates, body, f);
      }
    }
  }

  /** A self-service update changes nothing but the phone number, the address and the
      picture, and each of those only when the body carries it. */
  lemma SelfServiceChangesOnlyEditableFields(e: EmployeeRecord, body: EmployeePatch)
    ensures var r := Assign(e, EditableOnly(body));
            && r.(phoneNumber := e.phoneNumber, address := e.address, profilePicture := e.profilePicture) == e
            && r.phoneNumber == (if body.phoneNumber.Some? then body.phoneNumber else e.phoneNumber)
            && r.address == (if body.address.Some? then body.address else e.address)
            && r.profilePicture == (if body.profilePicture.Some? then body.profilePicture.value else e.profilePicture)
  {
  }

  /** The record the update route saves, or `None` when the caller may not update `id`:
      an Employee on their own profile gets the editable fields, HR and Admin get every
      field but the password, and the save hook does not rehash since the password is not
      modified. */
  function UpdatedRecord(e: EmployeeRecord, role: Role, me: Id, id: Id, body: EmployeePatch): (r: Option<EmployeeRecord>)
    ensures r.None? <==> role == Employee && me != id
    ensures r.Some? ==> r.value.password == e.password && r.value.createdAt == e.createdAt
    ensures r.Some? && role == Employee ==>
              r.value.(phoneNumber := e.phoneNumber, address := e.address, profilePicture := e.profilePicture) == e
  {
    if role != Employee then
      Some(HashPasswordOnSave(Assign(e, body.(password := None)), false, s => s))
    else if me == id then
      SelfServiceChangesOnlyEditableFields(e, body);
      Some(HashPasswordOnSave(Assign(e, EditableOnly(body)), false, s => s))
    else None
  }

  /** An HR or Admin update applies the body as given except for the password. */
  lemma PrivilegedUpdateIgnoresPassword(e: EmployeeRecord, role: Role, me: Id, id: Id, body: EmployeePatch, pw: string)
    requires role in {Admin, HR}
    ensures UpdatedRecord(e, role, me, id, body) == Some(Assign(e, body.(password := None)))
    ensures UpdatedRecord(e, role, me, id, body.(password := Some(pw))) == UpdatedRecord(e, role, me, id, body)
  {
  }

  /** `PUT /api/employees/:id`: a missing id is 404 before any permission check; an
      Employee updating someone else is refused (403); otherwise the updated record is
      saved, unless it would give it an employee id or email another employee holds, which
      the unique indexes turn into a server error (500). */
  method Update(st: Stores.Store, me: Id, id: Id, body: EmployeePatch) returns (r: Reply)
    requires st.Valid() && me in st.employees
    modifies st
    ensures st.Valid()
    ensures st.attendance == old(st.attendance) && st.leaves == old(st.leaves)
    ensures st.payrolls == old(st.payrolls) && st.nextId == old(st.nextId)
    ensures id !in old(st.employees) ==> r == Reply(404, EmployeeNotFound) && unchanged(st)
    ensures id in old(st.employees) ==>
              var updated := UpdatedRecord(old(st.employees[id]), old(st.employees[me].role), me, id, body);
              if updated.None? then r == Reply(403, NotAuthorizedUpdateProfile) && unchanged(st)
              else if old(Stores.IdentityTaken(st.employees, Some(id), updated.value.employeeId, updated.value.email)) then
                r == Reply(500, ServerError) && unchanged(st)
              else r == Reply(200, EmployeeUpdated) && st.employees == old(st.employees)[id := updated.value]
  {
    if id !in st.employees {
      return Reply(404, EmployeeNotFound);
    }
    var e := st.employees[id];
    var role := st.employees[me].role;
    var updated;
    if role == Employee && me == id {
      var updates := SelfServiceUpdates(body);
      updated := Assign(e, updates);
    } else if role == Admin || role == HR {
      updated := Assign(e, body.(password := None));
    } else {
      return Reply(403, NotAuthorizedUpdateProfile);
    }
    updated := HashPasswordOnSave(updated, false, s => s);
    assert Some(updated) == UpdatedRecord(e, role, me, id, body);
    if Stores.IdentityTaken(st.employees, Some(id), updated.employeeId, updated.email) {
      return Reply(500, ServerError);
    }
    if body.email.Some? {
      assert Text.IsLower(Text.Lower(body.email.value));
    }
    st.employees := st.employees[id := updated];
    r := Reply(200, EmployeeUpdated);
  }

  /** `DELETE /api/employees/:id` (Admin only): 404 for a missing id, else the employee is
      removed; their attendance, leave and payroll records stay behind. */
  method Delete(st: Stores.Store, me: Id, id: Id) returns (r: Reply)
    requires st.Valid() && me in st.employees
    modifies st
    ensures st.Valid()
    ensures st.attendance == old(st.attendance) && st.leaves == old(st.leaves)
    ensures st.payrolls == old(st.payrolls) && st.nextId == old(st.nextId)
    ensures var role := old(st.employees[me].role);
            if role != Admin then r == Reply(403, RoleNotAuthorized(role)) && unchanged(st)
            else if id !in old(st.employees) then r == Reply(404, EmployeeNotFound) && unchanged(st)
            else r == Reply(200, EmployeeDeleted) && st.employees == old(st.employees) - {id}
  {
    var stop := AuthMiddleware.Authorize([Admin], st.employees[me].role);
    if stop.Some? {
      return stop.value;
    }
    if id !in st.employees {
      return Reply(404, EmployeeNotFound);
    }
    st.employees := st.employees - {id};
    r := Reply(200, EmployeeDeleted);
  }
}
