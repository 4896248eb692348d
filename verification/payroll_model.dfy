/** The payroll schema (backend/models/Payroll.js): allowances, deductions, the month
    bounds, and the save hook that derives gross and net salary. Amounts are in cents. */
module PayrollModel {
  import opened Common

  datatype Allowances = Allowances(hra: int, transport: int, medical: int, other: int)

  datatype Deductions = Deductions(tax: int, providentFund: int, insurance: int, other: int)

  datatype PaymentStatus = Pending | Processed | Paid

  datatype PayrollRecord = PayrollRecord(
    employee: Id,
    month: int,
    year: int,
    basicSalary: int,
    allowances: Allowances,
    deductions: Deductions,
    bonuses: int,
    grossSalary: int,
    netSalary: int,
    paymentStatus: PaymentStatus,
    paymentDate: Option<int>,
    createdBy: Option<Id>)

  const NO_ALLOWANCES := Allowances(0, 0, 0, 0)
  const NO_DEDUCTIONS := Deductions(0, 0, 0, 0)

  /** The `min: 1, max: 12` validators on `month`. */
  predicate ValidMonth(month: int) {
    1 <= month <= 12
  }

  /** `values.reduce((sum, val) => sum + val, 0)`: a left fold from 0. */
  function Sum(values: seq<int>): int {
    if values == [] then 0 else Sum(values[..|values| - 1]) + values[|values| - 1]
  }

  /** Folding four values adds them up. */
  lemma SumOfFour(w: int, x: int, y: int, z: int)
    ensures Sum([w, x, y, z]) == w + x + y + z
  {
    assert [w, x, y, z][..3] == [w, x, y];
    assert [w, x, y][..2] == [w, x];
    assert [w, x][..1] == [w];
    assert [w][..0] == [];
    assert Sum([w]) == w;
    assert Sum([w, x]) == w + x;
    assert Sum([w, x, y]) == w + x + y;
  }

  /** `Object.values(this.allowances)`, in schema order. */
  function AllowanceValues(a: Allowances): seq<int> {
    [a.hra, a.transport, a.medical, a.other]
  }

  /** `Object.values(this.deductions)`, in schema order. */
  function DeductionValues(d: Deductions): seq<int> {
    [d.tax, d.providentFund, d.insurance, d.other]
  }

  function TotalAllowances(a: Allowances): (total: int)
    ensures total == a.hra + a.transport + a.medical + a.other
  {
    SumOfFour(a.hra, a.transport, a.medical, a.other);
    Sum(AllowanceValues(a))
  }

  function TotalDeductions(d: Deductions): (total: int)
    ensures total == d.tax + d.providentFund + d.insurance + d.other
  {
    SumOfFour(d.tax, d.providentFund, d.insurance, d.other);
    Sum(DeductionValues(d))
  }

  /** The salary figures every saved record satisfies. */
  predicate SalaryConsistent(p: PayrollRecord) {
    && p.grossSalary == p.basicSalary + TotalAllowances(p.allowances) + p.bonuses
    && p.netSalary == p.grossSalary - TotalDeductions(p.deductions)
  }

  /** The `pre('save')` hook, run on every save: gross and net salary are recomputed from
      the other fields, whatever they held before; nothing else changes. */
  function ComputeSalaryOnSave(p: PayrollRecord): (r: PayrollRecord)
    ensures SalaryConsistent(r)
    ensures r.(grossSalary := p.grossSalary, netSalary := p.netSalary) == p
  {
    var gross := p.basicSalary + TotalAllowances(p.allowances) + p.bonuses;
    p.(grossSalary := gross, netSalary := gross - TotalDeductions(p.deductions))
  }

  /** The client's gross and net figures never reach the store: two records that differ only
      there are saved identically, and saving a consistent record changes nothing. */
  lemma ClientTotalsIgnored(p: PayrollRecord, gross: int, net: int)
    ensures ComputeSalaryOnSave(p.(grossSalary := gross, netSalary := net)) == ComputeSalaryOnSave(p)
    ensures SalaryConsistent(p) ==> ComputeSalaryOnSave(p) == p
  {
  }

  /** The worked example: basic 3000, allowances 500/100/50/0, deductions 300/200/50/0 and
      bonuses 200 give gross 3850 and net 3300 (here in cents). */
  lemma SalaryExample(employee: Id)
    ensures var p := ComputeSalaryOnSave(PayrollRecord(
              employee, 1, 2024, 300000, Allowances(50000, 10000, 5000, 0),
              Deductions(30000, 20000, 5000, 0), 20000, 0, 0, Pending, None, None));
            p.grossSalary == 385000 && p.netSalary == 330000
  {
  }

  /** The body of a create request: `employee`, `month` and `year` are required, the rest
      take the schema defaults when absent. */
  datatype PayrollBody = PayrollBody(
    employee: Id,
    month: int,
    year: int,
    basicSalary: Option<int>,
    allowances: Option<Allowances>,
    deductions: Option<Deductions>,
    bonuses: Option<int>,
    grossSalary: Option<int>,
    netSalary: Option<int>,
    paymentStatus: Option<PaymentStatus>,
    paymentDate: Option<int>)

  /** `Payroll.create({...body, createdBy})`: defaults (0 amounts, status Pending), then the hook. */
  function NewPayroll(body: PayrollBody, createdBy: Id): (p: PayrollRecord)
    ensures SalaryConsistent(p)
    ensures p.employee == body.employee && p.month == body.month && p.year == body.year
    ensures p.paymentStatus == (if body.paymentStatus.Some? then body.paymentStatus.value else Pending)
    ensures p.createdBy == Some(createdBy)
    ensures p.basicSalary == Pick(body.basicSalary, 0) && p.bonuses == Pick(body.bonuses, 0)
    ensures p.allowances == Pick(body.allowances, NO_ALLOWANCES)
    ensures p.deductions == Pick(body.deductions, NO_DEDUCTIONS)
    ensures p.paymentDate == body.paymentDate
  {
    ComputeSalaryOnSave(PayrollRecord(
      body.employee, body.month, body.year,
      Pick(body.basicSalary, 0), Pick(body.allowances, NO_ALLOWANCES),
      Pick(body.deductions, NO_DEDUCTIONS), Pick(body.bonuses, 0),
      Pick(body.grossSalary, 0), Pick(body.netSalary, 0),
      Pick(body.paymentStatus, Pending), body.paymentDate, Some(createdBy)))
  }

  /** The worked example through create: the amounts of the body are stored, the gross and
      net the client sends are replaced, and the record holds gross 3850 and net 3300. */
  lemma CreateExample(employee: Id, createdBy: Id)
    ensures var p := NewPayroll(PayrollBody(
              employee, 1, 2024, Some(300000), Some(Allowances(50000, 10000, 5000, 0)),
              Some(Deductions(30000, 20000, 5000, 0)), Some(20000), Some(1), Some(2), None, None), createdBy);
            p.grossSalary == 385000 && p.netSalary == 330000 && p.paymentStatus == Pending
  {
  }

  /** The keys a request body may carry for an update; `None` is an absent key. */
  datatype PayrollPatch = PayrollPatch(
    employee: Option<Id>,
    month: Option<int>,
    year: Option<int>,
    basicSalary: Option<int>,
    allowances: Option<Allowances>,
    deductions: Option<Deductions>,
    bonuses: Option<int>,
    grossSalary: Option<int>,
    netSalary: Option<int>,
    paymentStatus: Option<PaymentStatus>,
    paymentDate: Option<int>,
    createdBy: Option<Id>)

  /** `Object.assign(payroll, patch)`. */
  function Assign(p: PayrollRecord, patch: PayrollPatch): (r: PayrollRecord)
    ensures patch.employee.None? && patch.month.None? && patch.year.None? ==>
              r.employee == p.employee && r.month == p.month && r.year == p.year
  {
    PayrollRecord(
      Pick(patch.employee, p.employee),
      Pick(patch.month, p.month),
      Pick(patch.year, p.year),
      Pick(patch.basicSalary, p.basicSalary),
      Pick(patch.allowances, p.allowances),
      Pick(patch.deductions, p.deductions),
      Pick(patch.bonuses, p.bonuses),
      Pick(patch.grossSalary, p.grossSalary),
      Pick(patch.netSalary, p.netSalary),
      Pick(patch.paymentStatus, p.paymentStatus),
      PickOption(patch.paymentDate, p.paymentDate),
      PickOption(patch.createdBy, p.createdBy))
  }

  /** The listing order, year descending and then month descending, as one integer key. */
  function PeriodKey(p: PayrollRecord): int {
    p.year * 12 + p.month
  }

  /** With months in range the key orders records exactly as (year, month) does. */
  lemma PeriodKeyOrdersByYearThenMonth(p: PayrollRecord, q: PayrollRecord)
    requires ValidMonth(p.month) && ValidMonth(q.month)
    ensures PeriodKey(p) >= PeriodKey(q) <==> p.year > q.year || (p.year == q.year && p.month >= q.month)
  {
  }
}
