/** The employee schema (backend/models/Employee.js): the document, its defaults, the
    password hook that runs on save, and the public profile that omits the password. */
module EmployeeModel {
  import opened Common
  import Text

  datatype Address = Address(
    street: Option<string>, city: Option<string>, state: Option<string>,
    zipCode: Option<string>, country: Option<string>)

  datatype Document = Document(name: Option<string>, url: Option<string>, uploadedAt: int)

  /** Remaining leave days per category; nothing keeps them non-negative. */
  datatype LeaveBalance = LeaveBalance(paid: int, sick: int, unpaid: int)

  const DEFAULT_LEAVE_BALANCE := LeaveBalance(20, 10, 0)

  /** A stored employee; `password` holds the hash, `createdAt` the creation timestamp. */
  datatype EmployeeRecord = EmployeeRecord(
    employeeId: string,
    email: string,
    password: string,
    role: Role,
    firstName: string,
    lastName: string,
    phoneNumber: Option<string>,
    address: Option<Address>,
    dateOfBirth: Option<int>,
    dateOfJoining: int,
    department: Option<string>,
    designation: Option<string>,
    profilePicture: string,
    documents: seq<Document>,
    isVerified: bool,
    isActive: bool,
    leaveBalance: LeaveBalance,
    createdAt: int)

  /** The object handed to `Employee.create`; absent keys take the schema defaults. */
  datatype EmployeeInput = EmployeeInput(
    employeeId: string,
    email: string,
    password: string,
    role: Option<Role>,
    firstName: string,
    lastName: string,
    isVerified: bool,
    phoneNumber: Option<string>,
    department: Option<string>,
    designation: Option<string>,
    dateOfJoining: Option<int>)

  /** The `pre('save')` hook: the password is replaced by its hash only when it was
      modified; `hash` stands for bcrypt with a fresh salt. */
  function HashPasswordOnSave(e: EmployeeRecord, passwordModified: bool, hash: string -> string): (r: EmployeeRecord)
    ensures r.(password := e.password) == e
    ensures r.password == if passwordModified then hash(e.password) else e.password
  {
    if passwordModified then e.(password := hash(e.password)) else e
  }

  /** `Employee.create(input)` at instant `now`: schema defaults, the lowercase setter on
      the email, then the save hook with the password counted as modified. */
  function NewEmployee(input: EmployeeInput, now: int, hash: string -> string): (e: EmployeeRecord)
    ensures e.role == (if input.role.Some? then input.role.value else Employee)
    ensures e.leaveBalance == DEFAULT_LEAVE_BALANCE
    ensures e.isActive && e.isVerified == input.isVerified
    ensures e.email == Text.Lower(input.email) && Text.IsLower(e.email)
    ensures e.password == hash(input.password)
    ensures e.employeeId == input.employeeId && e.createdAt == now
    ensures e.firstName == input.firstName && e.lastName == input.lastName
    ensures e.phoneNumber == input.phoneNumber && e.department == input.department
    ensures e.designation == input.designation
    ensures e.dateOfJoining == if input.dateOfJoining.Some? then input.dateOfJoining.value else now
    ensures e.address.None? && e.dateOfBirth.None? && e.profilePicture == "" && e.documents == []
  {
    var created := EmployeeRecord(
      input.employeeId, Text.Lower(input.email), input.password,
      if input.role.Some? then input.role.value else Employee,
      input.firstName, input.lastName, input.phoneNumber, None, None,
      if input.dateOfJoining.Some? then input.dateOfJoining.value else now,
      input.department, input.designation, "", [], input.isVerified, true,
      DEFAULT_LEAVE_BALANCE, now);
    HashPasswordOnSave(created, true, hash)
  }

  /** An employee without the password field. */
  datatype Profile = Profile(
    employeeId: string,
    email: string,
    role: Role,
    firstName: string,
    lastName: string,
    phoneNumber: Option<string>,
    address: Option<Address>,
    dateOfBirth: Option<int>,
    dateOfJoining: int,
    department: Option<string>,
    designation: Option<string>,
    profilePicture: string,
    documents: seq<Document>,
    isVerified: bool,
    isActive: bool,
    leaveBalance: LeaveBalance,
    createdAt: int)

  /** Puts a password back into a profile. */
  function WithPassword(p: Profile, password: string): EmployeeRecord {
    EmployeeRecord(
      p.employeeId, p.email, password, p.role, p.firstName, p.lastName, p.phoneNumber,
      p.address, p.dateOfBirth, p.dateOfJoining, p.department, p.designation,
      p.profilePicture, p.documents, p.isVerified, p.isActive, p.leaveBalance, p.createdAt)
  }

  /** `getPublicProfile`: the record with `password` deleted and every other field kept,
      so that restoring the password gives the record back. */
  function PublicProfile(e: EmployeeRecord): (p: Profile)
    ensures WithPassword(p, e.password) == e
  {
    Profile(
      e.employeeId, e.email, e.role, e.firstName, e.lastName, e.phoneNumber, e.address,
      e.dateOfBirth, e.dateOfJoining, e.department, e.designation, e.profilePicture,
      e.documents, e.isVerified, e.isActive, e.leaveBalance, e.createdAt)
  }

  /** Two records have the same public profile exactly when they differ at most in the password. */
  lemma PublicProfileHidesOnlyPassword(e1: EmployeeRecord, e2: EmployeeRecord)
    ensures PublicProfile(e1) == PublicProfile(e2) <==> e1.(password := e2.password) == e2
  {
    if PublicProfile(e1) == PublicProfile(e2) {
      calc {
        e1.(password := e2.password);
        WithPassword(PublicProfile(e1), e2.password);
        WithPassword(PublicProfile(e2), e2.password);
        e2;
      }
    }
  }

  /** The keys a request body may carry for an employee; `None` is an absent key. */
  datatype EmployeePatch = EmployeePatch(
    employeeId: Option<string>,
    email: Option<string>,
    password: Option<string>,
    role: Option<Role>,
    firstName: Option<string>,
    lastName: Option<string>,
    phoneNumber: Option<string>,
    address: Option<Address>,
    dateOfBirth: Option<int>,
    dateOfJoining: Option<int>,
    department: Option<string>,
    designation: Option<string>,
    profilePicture: Option<string>,
    documents: Option<seq<Document>>,
    isVerified: Option<bool>,
    isActive: Option<bool>,
    leaveBalance: Option<LeaveBalance>)

  const EMPTY_PATCH := EmployeePatch(
    None, None, None, None, None, None, None, None, None, None, None, None, None, None, None, None, None)

  /** `Object.assign(employee, patch)`: every present key overwrites its field, through the
      lowercase setter for the email; absent keys keep their field. */
  function Assign(e: EmployeeRecord, p: EmployeePatch): (r: EmployeeRecord)
    ensures p == EMPTY_PATCH ==> r == e
    ensures p.password.None? ==> r.password == e.password
    ensures p.email.Some? ==> r.email == Text.Lower(p.email.value)
    ensures p.email.None? ==> r.email == e.email
    ensures r.createdAt == e.createdAt
  {
    EmployeeRecord(
      Pick(p.employeeId, e.employeeId),
      if p.email.Some? then Text.Lower(p.email.value) else e.email,
      Pick(p.password, e.password),
      Pick(p.role, e.role),
      Pick(p.firstName, e.firstName),
      Pick(p.lastName, e.lastName),
      PickOption(p.phoneNumber, e.phoneNumber),
      PickOption(p.address, e.address),
      PickOption(p.dateOfBirth, e.dateOfBirth),
      Pick(p.dateOfJoining, e.dateOfJoining),
      PickOption(p.department, e.department),
      PickOption(p.designation, e.designation),
      Pick(p.profilePicture, e.profilePicture),
      Pick(p.documents, e.documents),
      Pick(p.isVerified, e.isVerified),
      Pick(p.isActive, e.isActive),
      Pick(p.leaveBalance, e.leaveBalance),
      e.createdAt)
  }
}
