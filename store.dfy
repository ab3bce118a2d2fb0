/** The database the controllers and jobs share: one map (or, for append-only tables
    read back in id order, one sequence) per table. `Database` is the mutable client every
    transaction writes through; `Db` is the value of all its tables at one moment, the
    state the specifications talk about. */
module Store {
  import opened Wrappers
  import opened Calendar
  import opened Keys

  datatype UnitStatus = Vacant | Occupied | FullyBooked | UnderMaintenance
  datatype BedroomStatus = RoomVacant | RoomOccupied
  datatype RentalMode = FullUnit | BedroomWise

  /** User.type. Request text other than the three known values is kept as written. */
  datatype TenantType = Individual | Company | Resident | UnlistedType(name: string)

  /** Lease.status: the values the status constants define, plus any other string a
      controller writes (`Unlisted("ACTIVE")`, `Unlisted("MOVED")`). */
  datatype LeaseStatus = Draft | Active | Expired | Moved | Unlisted(name: string)

  datatype LeaseType = FullUnitLease | BedroomLease

  /** A building. The address parts are None where the column is null. */
  datatype Property = Property(
    name: string, status: string, address: string, civicNumber: Option<string>, street: Option<string>,
    city: Option<string>, province: Option<string>, postalCode: Option<string>)

  /** `unitType` is "" where the column is null; `bedrooms` is the count the unit was
      given, not the number of bedroom rows. */
  datatype Unit = Unit(
    propertyId: Id, name: string, unitNumber: string, unitType: string, floor: Option<int>,
    status: UnitStatus, rentalMode: RentalMode, bedrooms: int)

  datatype Bedroom = Bedroom(unitId: Id, bedroomNumber: string, roomNumber: int, status: BedroomStatus)

  datatype User = User(
    firstName: string, lastName: string, name: string, email: string, phone: string,
    kind: TenantType, companyName: string, parentId: Option<Id>,
    leaseId: Option<Id>, unitId: Option<Id>, bedroomId: Option<Id>, buildingId: Option<Id>,
    inviteToken: Option<string>, inviteExpires: Option<Day>)

  datatype Lease = Lease(
    tenantId: Id, unitId: Id, bedroomId: Option<Id>, status: LeaseStatus, leaseType: LeaseType,
    startDate: Option<Day>, endDate: Option<Day>, monthlyRent: int, securityDeposit: int)

  /** Amounts in cents. `status` and `category` hold whatever text was written
      ("draft", "sent", "partial", "paid", "RENT", "SERVICE", ...). */
  datatype Invoice = Invoice(
    invoiceNo: string, tenantId: Id, unitId: Id, leaseId: Option<Id>, leaseType: RentalMode,
    month: Option<YearMonth>, rent: int, serviceFees: int, amount: int, paidAmount: int,
    balanceDue: int, status: string, category: string, description: Option<string>,
    dueDate: Day, paidAt: Option<Day>, paymentMethod: Option<string>)

  datatype Payment = Payment(invoiceId: Id, amount: int, paymentMethod: string, date: Day)

  /** A ledger row; `balance` is None where the row was written without one. */
  datatype LedgerEntry = LedgerEntry(
    date: Day, description: string, kind: string, amount: int, balance: Option<int>,
    status: string, invoiceId: Option<Id>, paymentId: Option<Id>, accountId: Option<Id>)

  datatype Account = Account(name: string, assetType: string, openingBalance: int)

  datatype Refund = Refund(
    requestId: string, kind: string, reason: string, tenantId: Id, unitId: Id,
    amount: int, status: string, date: Day)

  datatype Message = Message(senderId: Id, receiverId: Id, content: string)

  datatype RunStatus = Pending | Completed | Failed

  datatype RentRun = RentRun(month: YearMonth, status: RunStatus, createdCount: nat, skippedCount: nat, totalAmount: int)

  datatype RunLogStatus = Success | Skipped | Error

  datatype RunLog = RunLog(runId: Id, leaseId: Id, status: RunLogStatus)

  /** An insurance policy; `endMs` is its end date as a millisecond timestamp. */
  datatype Insurance = Insurance(
    userId: Id, unitId: Option<Id>, leaseId: Option<Id>, policyNumber: string, status: string, endMs: int,
    rejectionReason: Option<string>)

  datatype CommLog = CommLog(
    channel: string, eventType: string, recipient: string, recipientId: Option<Id>,
    relatedEntity: string, entityId: Option<Id>, content: string, status: string)

  datatype Db = Db(
    properties: map<Id, Property>,
    units: map<Id, Unit>,
    bedrooms: map<Id, Bedroom>,
    users: map<Id, User>,
    leases: map<Id, Lease>,
    invoices: map<Id, Invoice>,
    payments: map<Id, Payment>,
    ledger: seq<LedgerEntry>,
    accounts: map<Id, Account>,
    refunds: seq<Refund>,
    messages: seq<Message>,
    rentRuns: map<Id, RentRun>,
    runLogs: seq<RunLog>,
    unitTypes: set<string>,
    insurances: map<Id, Insurance>,
    commLogs: seq<CommLog>)

  class Database {
    var properties: map<Id, Property>
    var units: map<Id, Unit>
    var bedrooms: map<Id, Bedroom>
    var users: map<Id, User>
    var leases: map<Id, Lease>
    var invoices: map<Id, Invoice>
    var payments: map<Id, Payment>
    var ledger: seq<LedgerEntry>
    var accounts: map<Id, Account>
    var refunds: seq<Refund>
    var messages: seq<Message>
    var rentRuns: map<Id, RentRun>
    var runLogs: seq<RunLog>
    var unitTypes: set<string>
    var insurances: map<Id, Insurance>
    var commLogs: seq<CommLog>

    constructor (init: Db)
      ensures State() == init
    {
      properties, units, bedrooms, users := init.properties, init.units, init.bedrooms, init.users;
      leases, invoices, payments, ledger := init.leases, init.invoices, init.payments, init.ledger;
      accounts, refunds, messages, rentRuns := init.accounts, init.refunds, init.messages, init.rentRuns;
      runLogs, unitTypes, insurances, commLogs := init.runLogs, init.unitTypes, init.insurances, init.commLogs;
    }

    /** Every table at this moment. */
    function State(): Db
      reads this
    {
      Db(properties, units, bedrooms, users, leases, invoices, payments, ledger, accounts,
         refunds, messages, rentRuns, runLogs, unitTypes, insurances, commLogs)
    }
  }

  /** An id a request supplied: JavaScript treats a missing id and 0 alike as absent. */
  predicate Given(id: Option<Id>) { id.Some? && id.value != 0 }

  /** The ids of a unit's bedrooms (`unit.bedroomsList`). */
  function BedroomsOf(d: Db, unitId: Id): set<Id> {
    set b | b in d.bedrooms && d.bedrooms[b].unitId == unitId
  }

  predicate UnitIs(d: Db, unitId: Id, status: UnitStatus) {
    unitId in d.units && d.units[unitId].status == status
  }

  predicate UnitModeIs(d: Db, unitId: Id, mode: RentalMode) {
    unitId in d.units && d.units[unitId].rentalMode == mode
  }

  predicate BedroomIs(d: Db, bedroomId: Id, status: BedroomStatus) {
    bedroomId in d.bedrooms && d.bedrooms[bedroomId].status == status
  }

  predicate LeaseIs(d: Db, leaseId: Id, status: LeaseStatus) {
    leaseId in d.leases && d.leases[leaseId].status == status
  }

  predicate AllBedroomsOccupied(bedrooms: map<Id, Bedroom>, unitId: Id) {
    forall b :: b in bedrooms && bedrooms[b].unitId == unitId ==> bedrooms[b].status == RoomOccupied
  }

  predicate AllBedroomsVacant(bedrooms: map<Id, Bedroom>, unitId: Id) {
    forall b :: b in bedrooms && bedrooms[b].unitId == unitId ==> bedrooms[b].status == RoomVacant
  }

  predicate AnyBedroomOccupied(bedrooms: map<Id, Bedroom>, unitId: Id) {
    exists b :: b in bedrooms && bedrooms[b].unitId == unitId && bedrooms[b].status == RoomOccupied
  }

  /** Bedrooms are either vacant or occupied: a unit whose bedrooms are not all vacant has
      an occupied one. */
  lemma SomeBedroomOccupied(bedrooms: map<Id, Bedroom>, unitId: Id)
    ensures !AllBedroomsVacant(bedrooms, unitId) ==> AnyBedroomOccupied(bedrooms, unitId)
  {
    if !AllBedroomsVacant(bedrooms, unitId) {
      var b :| b in bedrooms && bedrooms[b].unitId == unitId && bedrooms[b].status != RoomVacant;
      assert bedrooms[b].status == RoomOccupied;
    }
  }

  /** `bedroom.updateMany({ where: { unitId }, data: { status } })` */
  function SetUnitBedrooms(bedrooms: map<Id, Bedroom>, unitId: Id, status: BedroomStatus): (r: map<Id, Bedroom>)
    ensures r.Keys == bedrooms.Keys
    ensures forall b :: b in r ==> r[b] == if bedrooms[b].unitId == unitId then bedrooms[b].(status := status) else bedrooms[b]
  {
    map b | b in bedrooms :: if bedrooms[b].unitId == unitId then bedrooms[b].(status := status) else bedrooms[b]
  }

  /** `unit.update({ data: { status } })` */
  function SetUnitStatus(units: map<Id, Unit>, unitId: Id, status: UnitStatus): map<Id, Unit>
    requires unitId in units
  {
    units[unitId := units[unitId].(status := status)]
  }

  /** `deleteMany` on a table kept in id order: the rows that are not deleted, in order. */
  function Keep<T(!new)>(rows: seq<T>, keep: T -> bool): (r: seq<T>)
    ensures forall x :: x in r <==> x in rows && keep(x)
  {
    if rows == [] then []
    else (if keep(rows[0]) then [rows[0]] else []) + Keep(rows[1..], keep)
  }

  /** An optional reference that points into `ids`. */
  predicate RefersTo(ref: Option<Id>, ids: set<Id>) {
    ref.Some? && ref.value in ids
  }

  /** The ledger rows left once the rows of the invoices `invs` and the payments `pays`
      are deleted. */
  function LedgerWithout(ledger: seq<LedgerEntry>, invs: set<Id>, pays: set<Id>): (r: seq<LedgerEntry>)
    ensures forall e :: e in r <==> e in ledger && !RefersTo(e.invoiceId, invs) && !RefersTo(e.paymentId, pays)
  {
    Keep(ledger, (e: LedgerEntry) => !RefersTo(e.invoiceId, invs) && !RefersTo(e.paymentId, pays))
  }

  /** A text field JavaScript treats as present: given and not empty. */
  predicate Filled(s: Option<string>) { s.Some? && s.value != "" }

  /** `field || fallback` on a text field. */
  function TextOr(s: Option<string>, fallback: string): string {
    if Filled(s) then s.value else fallback
  }

  /** `invoiceNo` is unique: an insert reusing one throws. */
  predicate NumberTaken(invoices: map<Id, Invoice>, invoiceNo: string) {
    exists k :: k in invoices && invoices[k].invoiceNo == invoiceNo
  }

  /** A full-unit release: the unit and every one of its bedrooms Vacant. */
  function VacateWholeUnit(d: Db, unitId: Id): Db
    requires unitId in d.units
  {
    d.(bedrooms := SetUnitBedrooms(d.bedrooms, unitId, RoomVacant), units := SetUnitStatus(d.units, unitId, Vacant))
  }

  lemma WholeUnitVacated(d: Db, unitId: Id)
    requires unitId in d.units
    ensures var r := VacateWholeUnit(d, unitId); UnitIs(r, unitId, Vacant) && AllBedroomsVacant(r.bedrooms, unitId)
  {
  }

  /** `user.update({ data: { bedroomId: null, unitId: null, buildingId: null } })` */
  function ClearTenantRefs(users: map<Id, User>, tenantId: Id): (r: map<Id, User>)
    requires tenantId in users
  {
    users[tenantId := users[tenantId].(bedroomId := None, unitId := None, buildingId := None)]
  }

  /** `user.updateMany({ where: { leaseId, type: 'RESIDENT' }, data: { leaseId: null } })` */
  function DetachResidents(users: map<Id, User>, leaseId: Id): (r: map<Id, User>)
    ensures r.Keys == users.Keys
  {
    map k | k in users ::
      if users[k].leaseId == Some(leaseId) && users[k].kind == Resident then users[k].(leaseId := None) else users[k]
  }

  predicate IsTenantType(d: Db, userId: Id, kind: TenantType) {
    userId in d.users && d.users[userId].kind == kind
  }

  /** The balance the next ledger row continues from: the last row's, or 0 on an empty
      ledger (`lastTx ? parseFloat(lastTx.balance) : 0`); None when that row has none. */
  function PreviousBalance(ledger: seq<LedgerEntry>): Option<int> {
    if |ledger| == 0 then Some(0) else ledger[|ledger| - 1].balance
  }

  /** Arithmetic on a balance that may be missing: JavaScript's NaN propagates. */
  function AddToBalance(balance: Option<int>, delta: int): Option<int> {
    match balance
    case Some(b) => Some(b + delta)
    case None => None
  }
}
