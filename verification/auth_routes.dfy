/** The account routes (backend/routes/auth.js): signup with its validation and duplicate
    check, signin with its ordered checks, and the current-employee view. The validators
    `isEmail` and `normalizeEmail`, bcrypt and the token signer are parameters. */
module AuthRoutes {
  import opened Common
  import opened EmployeeModel
  import Text
  import Stores

  /** A signup request body; an empty string stands for an absent or empty optional field. */
  datatype SignupBody = SignupBody(
    employeeId: string,
    email: string,
    password: string,
    role: string,
    firstName: string,
    lastName: string,
    phoneNumber: string,
    department: string,
    designation: string,
    dateOfJoining: Option<int>)

  /** The validation chain of `POST /api/auth/signup`. */
  predicate SignupValid(body: SignupBody, isEmail: string -> bool) {
    && body.employeeId != ""
    && isEmail(body.email)
    && |body.password| >= 6
    && body.firstName != ""
    && body.lastName != ""
    && ParseRole(body.role).Some?
  }

  /** A truthy string as an optional field. */
  function Truthy(s: string): (o: Option<string>)
    ensures o.Some? <==> s != ""
    ensures o.Some? ==> o.value == s
  {
    if s != "" then Some(s) else None
  }

  /** The `employeeData` object: the required fields, `isVerified` set, and each optional
      field only when the request gave a truthy value. */
  function SignupInput(body: SignupBody, email: string): (input: EmployeeInput)
    requires ParseRole(body.role).Some?
    ensures input.isVerified && input.role == ParseRole(body.role) && input.email == email
    ensures input.employeeId == body.employeeId && input.password == body.password
    ensures input.phoneNumber.Some? <==> body.phoneNumber != ""
    ensures input.department.Some? <==> body.department != ""
    ensures input.designation.Some? <==> body.designation != ""
    ensures input.dateOfJoining == body.dateOfJoining
  {
    EmployeeInput(
      body.employeeId, email, body.password, ParseRole(body.role), body.firstName, body.lastName, true,
      Truthy(body.phoneNumber), Truthy(body.department), Truthy(body.designation), body.dateOfJoining)
  }

  /** `POST /api/auth/signup`: a validation failure is 400 before any lookup; an existing
      employee with the email or the employee id is 400; otherwise the account is created
      and a token for it returned. The email is normalized by the validator, and the query
      casts it through the schema's `lowercase` setter, so the lookup compares exactly the
      form the new record stores. */
  method Signup(
    st: Stores.Store, body: SignupBody, isEmail: string -> bool, normalizeEmail: string -> string,
    hash: string -> string, sign: Id -> string, now: int)
    returns (r: Reply, token: Option<string>)
    requires st.Valid()
    modifies st
    ensures st.Valid()
    ensures st.attendance == old(st.attendance) && st.leaves == old(st.leaves) && st.payrolls == old(st.payrolls)
    ensures !SignupValid(body, isEmail) ==> r == Reply(400, ValidationErrors) && token.None? && unchanged(st)
    ensures SignupValid(body, isEmail) ==>
              var email := normalizeEmail(body.email);
              var created := NewEmployee(SignupInput(body, email), now, hash);
              if old(Stores.IdentityTaken(st.employees, None, body.employeeId, Text.Lower(email))) then
                r == Reply(400, EmployeeExists) && token.None? && unchanged(st)
              else
                && r == Reply(201, Registered)
                && token == Some(sign(old(st.nextId)))
                && st.employees == old(st.employees)[old(st.nextId) := created]
                && st.nextId == old(st.nextId) + 1
  {
    if !SignupValid(body, isEmail) {
      return Reply(400, ValidationErrors), None;
    }
    var email := normalizeEmail(body.email);
    if Stores.IdentityTaken(st.employees, None, body.employeeId, Text.Lower(email)) {
      return Reply(400, EmployeeExists), None;
    }
    var created := NewEmployee(SignupInput(body, email), now, hash);
    var id := st.FreshId();
    st.employees := st.employees[id := created];
    r, token := Reply(201, Registered), Some(sign(id));
  }

  /** A signup account: active, verified, with the requested role, the default balances,
      the hashed password and the lowercased email; each optional field is set exactly when
      the request gave a truthy value, and the joining date defaults to the creation time. */
  lemma NewAccountDefaults(body: SignupBody, email: string, hash: string -> string, now: int)
    requires ParseRole(body.role).Some?
    ensures var e := NewEmployee(SignupInput(body, email), now, hash);
            && e.isActive && e.isVerified
            && RoleName(e.role) == body.role
            && e.leaveBalance == LeaveBalance(20, 10, 0)
            && e.password == hash(body.password)
            && e.email == Text.Lower(email)
            && e.firstName == body.firstName && e.lastName == body.lastName
            && e.phoneNumber == Truthy(body.phoneNumber)
            && e.department == Truthy(body.department)
            && e.designation == Truthy(body.designation)
            && e.dateOfJoining == if body.dateOfJoining.Some? then body.dateOfJoining.value else now
  {
    var e := NewEmployee(SignupInput(body, email), now, hash);
    assert body.role in ["Employee", "HR", "Admin"];
    assert ParseRole(body.role) == Some(e.role);
  }

  /** `POST /api/auth/signin`: a malformed email or an empty password is 400; then an
      unknown email and a wrong password get the same 401; only a caller who knows the
      password learns that the account is inactive (403); otherwise a token is returned.
      The lookup casts the normalized email through the schema's `lowercase` setter.
      `compare` stands for bcrypt's comparison of a candidate with a stored hash. */
  method Signin(
    st: Stores.Store, email: string, password: string, isEmail: string -> bool,
    normalizeEmail: string -> string, compare: (string, string) -> bool, sign: Id -> string)
    returns (r: Reply, token: Option<string>, profile: Option<Profile>)
    requires st.Valid()
    ensures !isEmail(email) || password == "" ==> r == Reply(400, ValidationErrors) && token.None? && profile.None?
    ensures isEmail(email) && password != "" &&
            (forall id :: id in st.employees ==> st.employees[id].email != Text.Lower(normalizeEmail(email))) ==>
              r == Reply(401, InvalidCredentials) && token.None? && profile.None?
    ensures isEmail(email) && password != "" ==>
              forall id :: id in st.employees && st.employees[id].email == Text.Lower(normalizeEmail(email)) ==>
                var e := st.employees[id];
                if !compare(password, e.password) then r == Reply(401, InvalidCredentials) && token.None? && profile.None?
                else if !e.isActive then r == Reply(403, AccountInactive) && token.None? && profile.None?
                else r == Reply(200, LoginSuccessful) && token == Some(sign(id)) && profile == Some(PublicProfile(e))
    ensures r.code == 200 ==> exists id :: id in st.employees && st.employees[id].isActive && token == Some(sign(id))
  {
    if !isEmail(email) || password == "" {
      return Reply(400, ValidationErrors), None, None;
    }
    var normalized := Text.Lower(normalizeEmail(email));
    if !exists id :: id in st.employees && st.employees[id].email == normalized {
      return Reply(401, InvalidCredentials), None, None;
    }
    var id :| id in st.employees && st.employees[id].email == normalized;
    var e := st.employees[id];
    if !compare(password, e.password) {
      return Reply(401, InvalidCredentials), None, None;
    }
    if !e.isActive {
      return Reply(403, AccountInactive), None, None;
    }
    r, token, profile := Reply(200, LoginSuccessful), Some(sign(id)), Some(PublicProfile(e));
  }

  /** `GET /api/auth/me`: the authenticated employee's record without the password. */
  method Me(st: Stores.Store, me: Id) returns (r: Reply, profile: Profile)
    requires me in st.employees
    ensures r == Reply(200, NoMessage)
    ensures WithPassword(profile, st.employees[me].password) == st.employees[me]
  {
    r, profile := Reply(200, NoMessage), PublicProfile(st.employees[me]);
  }
}
