/**
 * The client's payroll screen: the search and pay-period filters over the
 * fetched entries, the summary totals, the distinct-employee count, and
 * the numbers read from the payroll form.  Dates are integer instants.
 */
module PayrollView {
  import opened Wrappers
  import opened Models
  import opened Seqs
  import opened Text
  import Database
  import PayrollRouter
  import ReportsRouter

  /** The lowercased term occurs in the entry's lowercased employee name or employee id. */
  predicate SearchHit(term: string, e: PayrollEntry)
  {
    Contains(Lower(e.data.employeeName), term) || Contains(Lower(e.data.employeeId), term)
  }

  predicate SearchOk(term: string, e: PayrollEntry)
  {
    term == "" || SearchHit(term, e)
  }

  /** A "from" date keeps entries whose period starts on or after it; blank keeps all. */
  predicate FromOk(from: Option<int>, e: PayrollEntry)
  {
    from.None? || e.data.payPeriodStart >= from.value
  }

  /** A "to" date keeps entries whose period ends on or before it; blank keeps all. */
  predicate ToOk(to: Option<int>, e: PayrollEntry)
  {
    to.None? || e.data.payPeriodEnd <= to.value
  }

  predicate Selected(term: string, from: Option<int>, to: Option<int>, e: PayrollEntry)
  {
    SearchOk(term, e) && FromOk(from, e) && ToOk(to, e)
  }

  /** The entries the filtered table lists, for the raw search text and the two dates. */
  function Filtered(data: seq<PayrollEntry>, search: string, from: Option<int>, to: Option<int>)
    : (r: seq<PayrollEntry>)
    ensures forall i :: 0 <= i < |r| ==> r[i] in data && Selected(Lower(search), from, to, r[i])
    ensures forall i :: 0 <= i < |data| && Selected(Lower(search), from, to, data[i]) ==> data[i] in r
  {
    Filter(data, e => Selected(Lower(search), from, to, e))
  }

  /** The filtered list keeps the entries in the order they were fetched. */
  lemma FilteredInOrder(data: seq<PayrollEntry>, search: string, from: Option<int>, to: Option<int>)
    ensures SubseqOf(Filtered(data, search, from, to), data)
  {
    FilterIsSubseq(data, e => Selected(Lower(search), from, to, e));
  }

  /** Every listed entry's pay period lies inside the chosen dates. */
  lemma FilteredWithinDates(data: seq<PayrollEntry>, search: string, from: int, to: int)
    ensures forall e :: e in Filtered(data, search, Some(from), Some(to)) ==>
              from <= e.data.payPeriodStart && e.data.payPeriodEnd <= to
  {
    var r := Filtered(data, search, Some(from), Some(to));
    assert forall i :: 0 <= i < |r| ==> Selected(Lower(search), Some(from), Some(to), r[i]);
  }

  /** The filter chain, one optional stage after another, as the screen applies it. */
  function Staged(data: seq<PayrollEntry>, term: string, from: Option<int>, to: Option<int>): seq<PayrollEntry>
  {
    var bySearch := if term != "" then Filter(data, (e: PayrollEntry) => SearchHit(term, e)) else data;
    var byFrom := if from.Some? then Filter(bySearch, (e: PayrollEntry) => e.data.payPeriodStart >= from.value)
                  else bySearch;
    if to.Some? then Filter(byFrom, (e: PayrollEntry) => e.data.payPeriodEnd <= to.value) else byFrom
  }

  /** The search stage keeps exactly the entries the search term accepts. */
  lemma SearchStage(xs: seq<PayrollEntry>, term: string)
    ensures (if term != "" then Filter(xs, (e: PayrollEntry) => SearchHit(term, e)) else xs)
            == Filter(xs, (e: PayrollEntry) => SearchOk(term, e))
  {
    if term != "" {
      FilterExt(xs, (e: PayrollEntry) => SearchHit(term, e), (e: PayrollEntry) => SearchOk(term, e));
    } else {
      FilterKeepsAll(xs, (e: PayrollEntry) => SearchOk(term, e));
    }
  }

  /** The "from" stage keeps exactly the entries the "from" date accepts. */
  lemma FromStage(xs: seq<PayrollEntry>, from: Option<int>)
    ensures (if from.Some? then Filter(xs, (e: PayrollEntry) => e.data.payPeriodStart >= from.value) else xs)
            == Filter(xs, (e: PayrollEntry) => FromOk(from, e))
  {
    if from.Some? {
      FilterExt(xs, (e: PayrollEntry) => e.data.payPeriodStart >= from.value, (e: PayrollEntry) => FromOk(from, e));
    } else {
      FilterKeepsAll(xs, (e: PayrollEntry) => FromOk(from, e));
    }
  }

  /** The "to" stage keeps exactly the entries the "to" date accepts. */
  lemma ToStage(xs: seq<PayrollEntry>, to: Option<int>)
    ensures (if to.Some? then Filter(xs, (e: PayrollEntry) => e.data.payPeriodEnd <= to.value) else xs)
            == Filter(xs, (e: PayrollEntry) => ToOk(to, e))
  {
    if to.Some? {
      FilterExt(xs, (e: PayrollEntry) => e.data.payPeriodEnd <= to.value, (e: PayrollEntry) => ToOk(to, e));
    } else {
      FilterKeepsAll(xs, (e: PayrollEntry) => ToOk(to, e));
    }
  }

  /** Applying the stages one after another is filtering once by their conjunction. */
  lemma StagesSelect(data: seq<PayrollEntry>, search: string, from: Option<int>, to: Option<int>)
    ensures Staged(data, Lower(search), from, to) == Filtered(data, search, from, to)
  {
    var term := Lower(search);
    var bySearch := if term != "" then Filter(data, (e: PayrollEntry) => SearchHit(term, e)) else data;
    var byFrom := if from.Some? then Filter(bySearch, (e: PayrollEntry) => e.data.payPeriodStart >= from.value)
                  else bySearch;
    SearchStage(data, term);
    FromStage(bySearch, from);
    ToStage(byFrom, to);
    var s1 := (e: PayrollEntry) => SearchOk(term, e);
    var s2 := (e: PayrollEntry) => SearchOk(term, e) && FromOk(from, e);
    FilterCompose(data, s1, (e: PayrollEntry) => FromOk(from, e), s2);
    FilterCompose(data, s2, (e: PayrollEntry) => ToOk(to, e), (e: PayrollEntry) => Selected(term, from, to, e));
  }

  /** The payroll list as the screen holds it: the fetched entries and the rows the table shows. */
  class PayrollList {
    var data: seq<PayrollEntry>
    var shown: seq<PayrollEntry>

    constructor()
      ensures data == [] && shown == []
    {
      data := [];
      shown := [];
    }

    /** Fetching and rendering: the table lists every fetched entry. */
    method Load(entries: seq<PayrollEntry>)
      modifies this`data, this`shown
      ensures data == entries && shown == entries
    {
      data := entries;
      shown := data;
    }

    /**
     * Narrows the list stage by stage, renders the result through `data`,
     * and puts the fetched list back.
     */
    method ApplyFilters(search: string, from: Option<int>, to: Option<int>)
      modifies this`data, this`shown
      ensures data == old(data)
      ensures shown == Filtered(data, search, from, to)
    {
      var term := Lower(search);
      var filtered := data;
      if term != "" {
        filtered := Filter(filtered, (e: PayrollEntry) => SearchHit(term, e));
      }
      if from.Some? {
        var fromDate := from.value;
        filtered := Filter(filtered, (e: PayrollEntry) => e.data.payPeriodStart >= fromDate);
      }
      if to.Some? {
        var toDate := to.value;
        filtered := Filter(filtered, (e: PayrollEntry) => e.data.payPeriodEnd <= toDate);
      }
      StagesSelect(data, search, from, to);
      var original := data;
      data := filtered;
      shown := data;
      data := original;
    }
  }

  /** The "Total Gross Pay" card: the plain sum over every fetched entry. */
  function TotalGross(data: seq<PayrollEntry>): real
  {
    SumOf(data, (e: PayrollEntry) => e.grossPay)
  }

  /** The "Total Net Pay" card: the plain sum over every fetched entry. */
  function TotalNet(data: seq<PayrollEntry>): real
  {
    SumOf(data, (e: PayrollEntry) => e.netPay)
  }

  /** The deductions of every fetched entry, summed. */
  function TotalDeductions(data: seq<PayrollEntry>): real
  {
    SumOf(data, (e: PayrollEntry) => e.data.deductions)
  }

  /** The totals of a concatenation are the sums of the totals. */
  lemma TotalsAppend(a: seq<PayrollEntry>, b: seq<PayrollEntry>)
    ensures TotalGross(a + b) == TotalGross(a) + TotalGross(b)
    ensures TotalNet(a + b) == TotalNet(a) + TotalNet(b)
  {
    SumOfAppend(a, b, (e: PayrollEntry) => e.grossPay);
    SumOfAppend(a, b, (e: PayrollEntry) => e.netPay);
  }

  /**
   * For entries whose pay the backend computed, the two cards differ by
   * exactly the total deductions.
   */
  lemma NetCardIsGrossLessDeductions(data: seq<PayrollEntry>)
    requires forall i :: 0 <= i < |data| ==> Database.PayBalances(data[i])
    ensures TotalNet(data) + TotalDeductions(data) == TotalGross(data)
  {
    SumOfPointwise(data, (e: PayrollEntry) => e.netPay, (e: PayrollEntry) => e.data.deductions,
                   (e: PayrollEntry) => e.grossPay);
  }

  /**
   * On the entries the backend lists, the "Total Net Pay" card is the
   * "Total Gross Pay" card less the total deductions.
   */
  lemma FetchedCardsBalance(db: Database.DB)
    requires db.Valid()
    ensures var data := PayrollRouter.GetPayrollEntries(db);
            TotalNet(data) + TotalDeductions(data) == TotalGross(data)
  {
    NetCardIsGrossLessDeductions(PayrollRouter.GetPayrollEntries(db));
  }

  /** The "Employees" card: the number of distinct employee ids among the fetched entries. */
  function UniqueEmployees(data: seq<PayrollEntry>): (n: nat)
    ensures n <= |data|
    ensures n == 0 <==> data == []
  {
    ReportsRouter.EmployeeIdsBound(data);
    assert data != [] ==> data[0].data.employeeId in ReportsRouter.EmployeeIds(data);
    |ReportsRouter.EmployeeIds(data)|
  }

  /** Repeated entries for one employee count once: the card counts people, not entries. */
  lemma SameEmployeeCountsOnce(data: seq<PayrollEntry>, e: PayrollEntry)
    requires e in data
    ensures UniqueEmployees(data + [e]) == UniqueEmployees(data)
  {
    assert ReportsRouter.EmployeeIds(data + [e]) == ReportsRouter.EmployeeIds(data);
  }

  /**
   * The payroll form as submitted: the text fields as typed, the amounts as
   * parsed by `parseFloat` (`None` is NaN) and the period dates.
   */
  datatype PayrollForm = PayrollForm(
    employeeName: string,
    employeeId: string,
    baseSalary: Option<real>,
    overtimeHours: Option<real>,
    overtimeRate: Option<real>,
    bonus: Option<real>,
    deductions: Option<real>,
    payPeriodStart: int,
    payPeriodEnd: int)

  /**
   * The body `createPayrollEntry` and `updatePayrollEntry` would send if
   * they ran (the form built by `createForm` never calls them).  The four
   * optional amounts fall back to 0 when they do not parse; the base salary
   * has no fallback, so a NaN there would go out as JSON null, which the
   * request schema refuses (`None`).
   */
  function PayrollBody(f: PayrollForm): (r: Option<PayrollEntryCreate>)
    ensures r.None? <==> f.baseSalary.None?
    ensures r.Some? ==> && r.value.baseSalary == f.baseSalary.value
                        && r.value.overtimeHours == f.overtimeHours.GetOr(0.0)
                        && r.value.overtimeRate == f.overtimeRate.GetOr(0.0)
                        && r.value.bonus == f.bonus.GetOr(0.0)
                        && r.value.deductions == f.deductions.GetOr(0.0)
                        && r.value.employeeName == f.employeeName && r.value.employeeId == f.employeeId
                        && r.value.payPeriodStart == f.payPeriodStart && r.value.payPeriodEnd == f.payPeriodEnd
  {
    match f.baseSalary
    case None => None
    case Some(base) =>
      Some(PayrollEntryCreate(f.employeeName, f.employeeId, base,
                              f.overtimeHours.GetOr(0.0), f.overtimeRate.GetOr(0.0),
                              f.bonus.GetOr(0.0), f.deductions.GetOr(0.0),
                              f.payPeriodStart, f.payPeriodEnd))
  }

  /**
   * Were the handlers to run, leaving the optional amounts blank would send
   * what the backend assumes for them anyway, so the entry would be paid its
   * base salary.
   */
  lemma BlankAmountsMatchServerDefaults(f: PayrollForm)
    requires f.baseSalary.Some?
    requires f.overtimeHours.None? && f.overtimeRate.None? && f.bonus.None? && f.deductions.None?
    ensures PayrollBody(f) == Some(PayrollRequest(f.employeeName, f.employeeId, f.baseSalary.value,
                                                  f.payPeriodStart, f.payPeriodEnd))
    ensures PayrollRouter.GrossPay(PayrollBody(f).value) == f.baseSalary.value
    ensures PayrollRouter.NetPay(PayrollBody(f).value) == f.baseSalary.value
  {
    PayrollRouter.DefaultsPayBaseSalary(f.employeeName, f.employeeId, f.baseSalary.value,
                                        f.payPeriodStart, f.payPeriodEnd);
  }
}
