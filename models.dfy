/**
 * The records the backend stores and exchanges.  Timestamps are integers
 * (instants on one clock) and money is `real`.
 */
module Models {
  import opened Wrappers
  import opened Http

  /** The two roles; every access rule is "manager or not". */
  datatype UserRole = Staff | Manager

  datatype User = User(
    id: int,
    username: string,
    email: string,
    fullName: string,
    role: UserRole,
    isActive: bool,
    createdAt: int)

  /** The body of a user-creation request. */
  datatype UserCreate = UserCreate(
    username: string,
    email: string,
    fullName: string,
    role: UserRole,
    password: string)

  /** The editable fields of an inventory item: the body of create and update requests. */
  datatype InventoryItemCreate = InventoryItemCreate(
    name: string,
    description: Option<string>,
    sku: string,
    unitPrice: real,
    quantityInStock: int,
    reorderLevel: int,
    category: string)

  datatype InventoryItem = InventoryItem(
    id: int,
    name: string,
    description: Option<string>,
    sku: string,
    unitPrice: real,
    quantityInStock: int,
    reorderLevel: int,
    category: string,
    createdAt: int,
    updatedAt: int)

  /**
   * The validator on `unit_price`: a body whose price is not positive is
   * refused before any handler runs.
   */
  function ValidateInventoryItem(data: InventoryItemCreate): (r: Result<InventoryItemCreate, ApiError>)
    ensures r.Success? <==> data.unitPrice > 0.0
    ensures r.Success? ==> r.value == data
    ensures r.Failure? ==> r.error.Status() == 422
  {
    if data.unitPrice <= 0.0 then Failure(Unprocessable) else Success(data)
  }

  /**
   * One requested line of a sale or a purchase.  `unitAmount` is the
   * sale's `unit_price` or the purchase's `unit_cost`.
   */
  datatype Line = Line(inventoryItemId: int, quantity: int, unitAmount: real)

  /** A stored line: the requested line, numbered, with the item's name. */
  datatype StoredLine = StoredLine(id: int, inventoryItemName: string, line: Line)

  /**
   * The body of a sale or purchase request; the counterparty is the
   * customer of a sale and the supplier of a purchase.
   */
  datatype TransactionCreate = TransactionCreate(
    counterpartyName: string,
    counterpartyEmail: Option<string>,
    items: seq<Line>,
    notes: Option<string>)

  /** A request with only the required fields given: email and notes default to none. */
  function TransactionRequest(name: string, items: seq<Line>): (t: TransactionCreate)
    ensures t.counterpartyName == name && t.items == items
    ensures t.counterpartyEmail == None && t.notes == None
  {
    TransactionCreate(name, None, items, None)
  }

  /** A stored sale or purchase. */
  datatype Transaction = Transaction(
    id: int,
    counterpartyName: string,
    counterpartyEmail: Option<string>,
    items: seq<StoredLine>,
    totalAmount: real,
    createdBy: int,
    createdAt: int,
    notes: Option<string>)

  /** The body of a payroll create or update request. */
  datatype PayrollEntryCreate = PayrollEntryCreate(
    employeeName: string,
    employeeId: string,
    baseSalary: real,
    overtimeHours: real,
    overtimeRate: real,
    bonus: real,
    deductions: real,
    payPeriodStart: int,
    payPeriodEnd: int)

  /** A request with only the required fields given: the four optional amounts default to 0. */
  function PayrollRequest(employeeName: string, employeeId: string, baseSalary: real,
                          payPeriodStart: int, payPeriodEnd: int): (p: PayrollEntryCreate)
    ensures p.employeeName == employeeName && p.employeeId == employeeId
    ensures p.baseSalary == baseSalary
    ensures p.payPeriodStart == payPeriodStart && p.payPeriodEnd == payPeriodEnd
    ensures p.overtimeHours == 0.0 && p.overtimeRate == 0.0 && p.bonus == 0.0 && p.deductions == 0.0
  {
    PayrollEntryCreate(employeeName, employeeId, baseSalary, 0.0, 0.0, 0.0, 0.0, payPeriodStart, payPeriodEnd)
  }

  /** A stored payroll entry: the request plus the computed pay and the audit fields. */
  datatype PayrollEntry = PayrollEntry(
    id: int,
    data: PayrollEntryCreate,
    grossPay: real,
    netPay: real,
    createdBy: int,
    createdAt: int)
}
