/** The payroll endpoints and the pay formulas. */
module PayrollRouter {
  import opened Wrappers
  import opened Http
  import opened Models
  import opened Database

  /** Gross pay: base salary, plus overtime hours at the overtime rate, plus bonus. */
  function GrossPay(p: PayrollEntryCreate): real
  {
    p.baseSalary + p.overtimeHours * p.overtimeRate + p.bonus
  }

  /** Net pay: gross pay less deductions. */
  function NetPay(p: PayrollEntryCreate): real
  {
    GrossPay(p) - p.deductions
  }

  /** With the optional amounts left at their defaults, gross and net pay are the base salary. */
  lemma DefaultsPayBaseSalary(name: string, employeeId: string, base: real, start: int, end: int)
    ensures GrossPay(PayrollRequest(name, employeeId, base, start, end)) == base
    ensures NetPay(PayrollRequest(name, employeeId, base, start, end)) == base
  {
  }

  /**
   * Every stored entry, in the order the table was filled.  Each one's pay
   * balances, because the handlers store only computed pay.
   */
  function GetPayrollEntries(db: DB): (r: seq<PayrollEntry>)
    reads db
    requires db.Valid()
    ensures forall e :: e in r ==> exists id :: id in db.payroll && db.payroll[id] == e
    ensures forall id :: id in db.payroll ==> db.payroll[id] in r
    ensures forall i :: 0 <= i < |r| ==> PayBalances(r[i])
  {
    ListedEntries(db.payroll, db.payrollCounter);
    InIdOrder(db.payroll, db.payrollCounter)
  }

  /** The listing of a valid payroll table holds exactly its entries, each with balanced pay. */
  lemma ListedEntries(payroll: map<int, PayrollEntry>, counter: int)
    requires PayrollValid(payroll, counter)
    ensures forall e :: e in InIdOrder(payroll, counter) ==> exists id :: id in payroll && payroll[id] == e
    ensures forall id :: id in payroll ==> payroll[id] in InIdOrder(payroll, counter)
    ensures forall e :: e in InIdOrder(payroll, counter) ==> PayBalances(e)
  {
    var r := InIdOrder(payroll, counter);
    InIdOrderMembers(payroll, counter);
    forall e | e in r
      ensures PayBalances(e)
    {
      var id :| 1 <= id < counter && id in payroll && payroll[id] == e;
    }
  }

  /** The stored entry for a request: its pay computed by the formulas. */
  function EntryFrom(id: int, p: PayrollEntryCreate, createdBy: int, createdAt: int): (e: PayrollEntry)
    ensures e.id == id && e.data == p && e.createdBy == createdBy && e.createdAt == createdAt
    ensures PayBalances(e)
  {
    PayrollEntry(id, p, GrossPay(p), NetPay(p), createdBy, createdAt)
  }

  /**
   * Creates a payroll entry: managers only (403); the entry is stored under
   * the next payroll id, created by the caller.
   */
  method CreatePayrollEntry(db: DB, p: PayrollEntryCreate, currentUser: User, now: int)
    returns (r: Result<PayrollEntry, ApiError>)
    requires db.Valid()
    modifies db`payroll, db`payrollCounter
    ensures db.Valid()
    ensures currentUser.role != Manager ==>
              r == Failure(Forbidden) && db.payroll == old(db.payroll) && db.payrollCounter == old(db.payrollCounter)
    ensures currentUser.role == Manager ==>
              && r == Success(EntryFrom(old(db.payrollCounter), p, currentUser.id, now))
              && old(db.payrollCounter) !in old(db.payroll)
              && db.payroll == old(db.payroll)[old(db.payrollCounter) := r.value]
              && db.payrollCounter == old(db.payrollCounter) + 1
  {
    if currentUser.role != Manager {
      return Failure(Forbidden);
    }
    var overtimePay := p.overtimeHours * p.overtimeRate;
    var grossPay := p.baseSalary + overtimePay + p.bonus;
    var netPay := grossPay - p.deductions;
    var payrollId := db.NextPayrollId();
    var entry := PayrollEntry(payrollId, p, grossPay, netPay, currentUser.id, now);
    assert grossPay == GrossPay(p) && netPay == NetPay(p);
    db.payroll := db.payroll[payrollId := entry];
    return Success(entry);
  }

  /** The entry stored under `payrollId`, or 404. */
  function GetPayrollEntry(db: DB, payrollId: int): (r: Result<PayrollEntry, ApiError>)
    reads db
    ensures r.Success? <==> payrollId in db.payroll
    ensures r.Success? ==> r.value == db.payroll[payrollId]
    ensures r.Failure? ==> r.error == NotFound
  {
    if payrollId in db.payroll then Success(db.payroll[payrollId]) else Failure(NotFound)
  }

  /**
   * Replaces an entry: managers only (403), then 404; the pay is
   * recomputed and the creator and creation time are kept.
   */
  method UpdatePayrollEntry(db: DB, payrollId: int, p: PayrollEntryCreate, currentUser: User)
    returns (r: Result<PayrollEntry, ApiError>)
    requires db.Valid()
    modifies db`payroll
    ensures db.Valid()
    ensures r.Failure? ==> db.payroll == old(db.payroll)
    ensures currentUser.role != Manager ==> r == Failure(Forbidden)
    ensures currentUser.role == Manager && payrollId !in old(db.payroll) ==> r == Failure(NotFound)
    ensures currentUser.role == Manager && payrollId in old(db.payroll) ==>
              && r == Success(EntryFrom(payrollId, p, old(db.payroll)[payrollId].createdBy,
                                        old(db.payroll)[payrollId].createdAt))
              && db.payroll == old(db.payroll)[payrollId := r.value]
  {
    if currentUser.role != Manager {
      return Failure(Forbidden);
    }
    if payrollId !in db.payroll {
      return Failure(NotFound);
    }
    var existing := db.payroll[payrollId];
    var overtimePay := p.overtimeHours * p.overtimeRate;
    var grossPay := p.baseSalary + overtimePay + p.bonus;
    var netPay := grossPay - p.deductions;
    var entry := PayrollEntry(payrollId, p, grossPay, netPay, existing.createdBy, existing.createdAt);
    assert grossPay == GrossPay(p) && netPay == NetPay(p);
    db.payroll := db.payroll[payrollId := entry];
    return Success(entry);
  }

  /** Deletes an entry: managers only (403), then 404; otherwise only that key is removed. */
  method DeletePayrollEntry(db: DB, payrollId: int, currentUser: User) returns (r: Result<string, ApiError>)
    requires db.Valid()
    modifies db`payroll
    ensures db.Valid()
    ensures currentUser.role != Manager ==> r == Failure(Forbidden) && db.payroll == old(db.payroll)
    ensures currentUser.role == Manager && payrollId !in old(db.payroll) ==>
              r == Failure(NotFound) && db.payroll == old(db.payroll)
    ensures currentUser.role == Manager && payrollId in old(db.payroll) ==>
              r == Success("Payroll entry deleted successfully") && db.payroll == old(db.payroll) - {payrollId}
  {
    if currentUser.role != Manager {
      return Failure(Forbidden);
    }
    if payrollId !in db.payroll {
      return Failure(NotFound);
    }
    db.payroll := db.payroll - {payrollId};
    return Success("Payroll entry deleted successfully");
  }
}
