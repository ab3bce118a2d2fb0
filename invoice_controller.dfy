/** The admin invoice handlers: creating one invoice by hand, editing or marking one paid,
    and the listing's repair of unpaid zero-amount invoices. (The manual batch run is in
    `RentBatch`.) createInvoice and the repair write one table; updateInvoice writes the
    ledger and then the invoice, outside any transaction. */
module InvoiceController {
  import opened Wrappers
  import opened Calendar
  import opened Keys
  import opened Store
  import opened Money
  import Text

  datatype InvoiceError =
    | MissingIds | NoActiveLease | NoBillableParent | RentWithFees | InvoiceNotFound
    | ServerError  // a row dereferenced without a check, or an insert the table refuses

  function HttpStatus(e: InvoiceError): (code: int)
    ensures code == 404 <==> e == InvoiceNotFound
    ensures code == 500 <==> e == ServerError
    ensures code in {400, 404, 500}
  {
    match e
    case InvoiceNotFound => 404
    case ServerError => 500
    case _ => 400
  }

  // ---------------------------------------------------------------------------------
  // createInvoice
  // ---------------------------------------------------------------------------------

  /** The request body of createInvoice. An absent amount parses to NaN. */
  datatype NewInvoice = NewInvoice(
    tenantId: Option<Id>, unitId: Option<Id>, month: Option<YearMonth>, rent: Parsed,
    serviceFees: Parsed, category: Option<string>, description: Option<string>)

  predicate IsActiveLeaseOf(l: Lease, tenantId: Id, unitId: Id) {
    l.tenantId == tenantId && l.unitId == unitId && l.status == Active
  }

  function ActiveLeasesOf(d: Db, tenantId: Id, unitId: Id): set<Id> {
    set k | k in d.leases && IsActiveLeaseOf(d.leases[k], tenantId, unitId)
  }

  /** Who a lease's invoices are addressed to: its tenant, or a resident's parent. */
  function Payer(d: Db, l: Lease): (r: Result<Id, InvoiceError>)
    ensures r.Ok? && l.tenantId in d.users && d.users[l.tenantId].kind == Resident ==>
      Some(r.value) == d.users[l.tenantId].parentId
    ensures r.Ok? && l.tenantId in d.users && d.users[l.tenantId].kind != Resident ==> r.value == l.tenantId
    ensures r == Err(NoBillableParent) <==>
      l.tenantId in d.users && d.users[l.tenantId].kind == Resident && !Given(d.users[l.tenantId].parentId)
  {
    if l.tenantId !in d.users then Err(ServerError)
    else
      var t := d.users[l.tenantId];
      if t.kind == Resident then
        (if Given(t.parentId) then Ok(t.parentId.value) else Err(NoBillableParent))
      else Ok(l.tenantId)
  }

  /** POST /api/admin/invoices. The invoice is raised on the tenant's Active lease of the
      unit (the lowest id when there are several). A positive rent is replaced by the
      lease's rent; rent and fees may not both be positive. It is a draft for rent plus
      fees, nothing paid, due five days from today, numbered `INV-MAN-` and the count. */
  function CreateInvoiceSpec(d: Db, req: NewInvoice, today: Day): (r: (Result<Id, InvoiceError>, map<Id, Invoice>))
    ensures r.0.Err? ==> r.1 == d.invoices
  {
    if !Given(req.tenantId) || !Given(req.unitId) then (Err(MissingIds), d.invoices)
    else
      var tenantId, unitId := req.tenantId.value, req.unitId.value;
      var leases := ActiveLeasesOf(d, tenantId, unitId);
      if leases == {} then (Err(NoActiveLease), d.invoices)
      else
        var id := MinKey(leases);
        var l := d.leases[id];
        match Payer(d, l)
        case Err(e) => (Err(e), d.invoices)
        case Ok(payer) =>
          var rent, fees := OrZero(req.rent), OrZero(req.serviceFees);
          if rent > 0 && fees > 0 then (Err(RentWithFees), d.invoices)
          else
            var invoiceNo := Text.Serial("INV-MAN-", |d.invoices|);
            if unitId !in d.units || payer !in d.users || NumberTaken(d.invoices, invoiceNo) then (Err(ServerError), d.invoices)
            else
              var k := FreshKey(d.invoices.Keys);
              (Ok(k), d.invoices[k := DraftInvoice(req, id, l, payer, d.units[unitId].rentalMode, invoiceNo, today)])
  }

  function DraftInvoice(req: NewInvoice, leaseId: Id, l: Lease, payer: Id, mode: RentalMode, invoiceNo: string, today: Day): Invoice
    requires req.unitId.Some?
  {
    var rent, fees := OrZero(req.rent), OrZero(req.serviceFees);
    var finalRent := if rent > 0 then l.monthlyRent else rent;
    Invoice(invoiceNo, payer, req.unitId.value, Some(leaseId), mode, req.month, finalRent, fees,
            finalRent + fees, 0, finalRent + fees, "draft", TextOr(req.category, "RENT"),
            if Filled(req.description) then req.description else None, AddDays(today, 5), None, None)
  }

  method CreateInvoice(db: Database, req: NewInvoice, today: Day) returns (r: Result<Id, InvoiceError>)
    modifies db`invoices
    ensures (r, db.invoices) == CreateInvoiceSpec(old(db.State()), req, today)
  {
    if !Given(req.tenantId) || !Given(req.unitId) {
      return Err(MissingIds);
    }
    var tenantId, unitId := req.tenantId.value, req.unitId.value;
    var leases := ActiveLeasesOf(db.State(), tenantId, unitId);
    if leases == {} {
      return Err(NoActiveLease);
    }
    var id := MinKey(leases);
    var l := db.leases[id];
    var payer := Payer(db.State(), l);
    if payer.Err? {
      return Err(payer.error);
    }
    if OrZero(req.rent) > 0 && OrZero(req.serviceFees) > 0 {
      return Err(RentWithFees);
    }
    var invoiceNo := Text.Serial("INV-MAN-", |db.invoices|);
    if unitId !in db.units || payer.value !in db.users || NumberTaken(db.invoices, invoiceNo) {
      return Err(ServerError);
    }
    var k := FreshKey(db.invoices.Keys);
    db.invoices := db.invoices[k := DraftInvoice(req, id, l, payer.value, db.units[unitId].rentalMode, invoiceNo, today)];
    r := Ok(k);
  }

  /** The request is refused, with nothing written, when an id is missing, when the tenant
      has no Active lease on the unit, when a resident has no parent to bill, or when
      rent and fees are both positive. */
  lemma CreateInvoiceRejects(d: Db, req: NewInvoice, today: Day)
    ensures var r := CreateInvoiceSpec(d, req, today);
      && (!Given(req.tenantId) || !Given(req.unitId) ==> r.0 == Err(MissingIds))
      && (Given(req.tenantId) && Given(req.unitId) && ActiveLeasesOf(d, req.tenantId.value, req.unitId.value) == {} ==>
            r.0 == Err(NoActiveLease))
      && (OrZero(req.rent) > 0 && OrZero(req.serviceFees) > 0 ==> r.0.Err?)
      && (r.0.Err? ==> r.1 == d.invoices)
  {
  }

  /** An accepted invoice is raised on an Active lease of that tenant and unit, is billed
      to the tenant (a resident's parent), carries the lease's rent when a rent was asked
      for and never both rent and fees, and is a draft whose amount and balance are rent
      plus fees with nothing paid. */
  lemma CreatedInvoice(d: Db, req: NewInvoice, today: Day)
    requires CreateInvoiceSpec(d, req, today).0.Ok?
    ensures var (r, invoices) := CreateInvoiceSpec(d, req, today);
      var inv := invoices[r.value];
      && r.value !in d.invoices && invoices == d.invoices[r.value := inv]
      && Given(req.tenantId) && Given(req.unitId) && inv.unitId == req.unitId.value
      && inv.leaseId.Some? && inv.leaseId.value in d.leases
      && IsActiveLeaseOf(d.leases[inv.leaseId.value], req.tenantId.value, req.unitId.value)
      && (IsTenantType(d, req.tenantId.value, Resident) ==> Some(inv.tenantId) == d.users[req.tenantId.value].parentId)
      && (!IsTenantType(d, req.tenantId.value, Resident) ==> inv.tenantId == req.tenantId.value)
      && inv.serviceFees == OrZero(req.serviceFees)
      && (OrZero(req.rent) > 0 ==> inv.rent == d.leases[inv.leaseId.value].monthlyRent && inv.serviceFees <= 0)
      && (OrZero(req.rent) <= 0 ==> inv.rent == OrZero(req.rent))
      && inv.amount == inv.rent + inv.serviceFees && inv.balanceDue == inv.amount
      && inv.paidAmount == 0 && inv.status == "draft"
  {
    var leases := ActiveLeasesOf(d, req.tenantId.value, req.unitId.value);
    var id := MinKey(leases);
    assert id in leases;
  }

  // ---------------------------------------------------------------------------------
  // updateInvoice
  // ---------------------------------------------------------------------------------

  /** The request body of updateInvoice. `description` distinguishes an absent field from
      an explicit null. */
  datatype InvoiceEdit = InvoiceEdit(
    status: Option<string>, month: Option<YearMonth>, rent: Option<Parsed>, serviceFees: Option<Parsed>,
    paymentMethod: Option<string>, description: Option<Option<string>>, category: Option<string>)

  predicate MarksPaid(e: InvoiceEdit) { Filled(e.status) && Text.Lower(e.status.value) == "paid" }

  predicate EditsAmounts(e: InvoiceEdit) { e.rent.Some? || e.serviceFees.Some? }

  /** The rent and fees an edit leaves, each NaN when a given value does not parse. */
  function NewAmounts(inv: Invoice, e: InvoiceEdit): (Parsed, Parsed) {
    (e.rent.GetOr(Num(inv.rent)), e.serviceFees.GetOr(Num(inv.serviceFees)))
  }

  predicate BothPositive(a: (Parsed, Parsed)) {
    a.0.Num? && a.1.Num? && a.0.cents > 0 && a.1.cents > 0
  }

  /** The ledger row a manual "paid" writes: Income for the invoice's amount, without a
      running balance. */
  function ManualPaidEntry(inv: Invoice, id: Id, today: Day): LedgerEntry {
    LedgerEntry(today, "Manual Invoice Paid - " + inv.invoiceNo, "Income", inv.amount, None, "Completed", Some(id), None, None)
  }

  /** The fields the edit sets, applied in the handler's order. A "paid" status sets
      paidAmount to the amount and balanceDue to 0; a rent or fees edit then sets the
      amount to their sum and balanceDue to it less what was paid before. */
  function Edited(inv: Invoice, e: InvoiceEdit, today: Day): Invoice
    requires EditsAmounts(e) ==> NewAmounts(inv, e).0.Num? && NewAmounts(inv, e).1.Num?
  {
    var a := inv.(
      month := if e.month.Some? then e.month else inv.month,
      description := if e.description.Some? then e.description.value else inv.description,
      category := TextOr(e.category, inv.category));
    var b := if !Filled(e.status) then a
      else if MarksPaid(e) then
        a.(status := e.status.value, paidAt := Some(today), paidAmount := inv.amount, balanceDue := 0,
           paymentMethod := if Filled(e.paymentMethod) then e.paymentMethod else inv.paymentMethod)
      else a.(status := e.status.value);
    if EditsAmounts(e) then
      var (rent, fees) := NewAmounts(inv, e);
      b.(rent := rent.cents, serviceFees := fees.cents, amount := rent.cents + fees.cents,
         balanceDue := rent.cents + fees.cents - inv.paidAmount)
    else b
  }

  /** The tables updateInvoice writes and its answer. */
  datatype Update = Update(r: Result<Id, InvoiceError>, invoices: map<Id, Invoice>, ledger: seq<LedgerEntry>)

  /** PUT /api/admin/invoices/:id, as written: the ledger row of a manual "paid" is
      inserted before the amounts are checked, and stays when the request is then refused
      (400 for rent and fees both positive, 500 when a given amount does not parse). */
  function UpdateInvoiceSpec(d: Db, id: Id, e: InvoiceEdit, today: Day): (u: Update)
    ensures u.r.Err? ==> u.invoices == d.invoices
    ensures u.r.Ok? <==> id in d.invoices && !(EditsAmounts(e) && InvalidAmounts(d.invoices[id], e))
  {
    if id !in d.invoices then Update(Err(InvoiceNotFound), d.invoices, d.ledger)
    else
      var inv := d.invoices[id];
      var ledger := if MarksPaid(e) then d.ledger + [ManualPaidEntry(inv, id, today)] else d.ledger;
      if EditsAmounts(e) && BothPositive(NewAmounts(inv, e)) then Update(Err(RentWithFees), d.invoices, ledger)
      else if EditsAmounts(e) && (NewAmounts(inv, e).0.NaN? || NewAmounts(inv, e).1.NaN?) then
        Update(Err(ServerError), d.invoices, ledger)
      else Update(Ok(id), d.invoices[id := Edited(inv, e, today)], ledger)
  }

  /** An edit of the amounts the handler refuses: both positive, or one not a number. */
  predicate InvalidAmounts(inv: Invoice, e: InvoiceEdit) {
    var a := NewAmounts(inv, e);
    BothPositive(a) || a.0.NaN? || a.1.NaN?
  }

  method UpdateInvoice(db: Database, id: Id, e: InvoiceEdit, today: Day) returns (r: Result<Id, InvoiceError>)
    modifies db`invoices, db`ledger
    ensures Update(r, db.invoices, db.ledger) == UpdateInvoiceSpec(old(db.State()), id, e, today)
  {
    if id !in db.invoices {
      return Err(InvoiceNotFound);
    }
    var inv := db.invoices[id];
    if MarksPaid(e) {
      db.ledger := db.ledger + [ManualPaidEntry(inv, id, today)];
    }
    if EditsAmounts(e) {
      var amounts := NewAmounts(inv, e);
      if BothPositive(amounts) {
        return Err(RentWithFees);
      }
      if amounts.0.NaN? || amounts.1.NaN? {
        return Err(ServerError);
      }
    }
    db.invoices := db.invoices[id := Edited(inv, e, today)];
    r := Ok(id);
  }

  /** Marking an invoice paid, without touching its amounts, settles it: paidAmount is the
      amount, nothing is due, paidAt is today, and one Income row for the amount is added
      to the ledger. */
  lemma MarkPaidSettles(d: Db, id: Id, e: InvoiceEdit, today: Day)
    requires id in d.invoices && MarksPaid(e) && !EditsAmounts(e)
    ensures var u := UpdateInvoiceSpec(d, id, e, today);
      var inv := u.invoices[id];
      u.r == Ok(id) && inv.paidAmount == d.invoices[id].amount && inv.amount == d.invoices[id].amount
      && inv.balanceDue == 0 && inv.paidAt == Some(today)
      && u.ledger == d.ledger + [ManualPaidEntry(d.invoices[id], id, today)]
      && u.ledger[|d.ledger|].kind == "Income" && u.ledger[|d.ledger|].amount == d.invoices[id].amount
  {
  }

  /** Editing the rent or fees re-derives the amount as their sum and the balance as the
      amount less what was already paid; a status that is not "paid" writes no ledger row. */
  lemma EditRederivesAmounts(d: Db, id: Id, e: InvoiceEdit, today: Day)
    requires id in d.invoices && EditsAmounts(e) && !InvalidAmounts(d.invoices[id], e)
    ensures var u := UpdateInvoiceSpec(d, id, e, today);
      var inv := u.invoices[id];
      u.r == Ok(id) && inv.amount == inv.rent + inv.serviceFees
      && inv.balanceDue == inv.amount - d.invoices[id].paidAmount
      && !(inv.rent > 0 && inv.serviceFees > 0)
      && (!MarksPaid(e) ==> u.ledger == d.ledger)
  {
  }

  /** The handler as written: marking an invoice paid while setting both a rent and fees
      is refused with 400, yet the ledger has gained an Income row for the invoice, which
      stays unpaid. */
  lemma RefusedEditLeavesIncomeRow()
    ensures var d := OneDraftInvoice();
      var e := InvoiceEdit(Some("paid"), None, Some(Num(100000)), Some(Num(5000)), None, None, None);
      var u := UpdateInvoiceSpec(d, 1, e, Date(2026, 3, 2));
      u.r == Err(RentWithFees) && u.invoices[1].status == "draft" && u.invoices[1].balanceDue == 100000
      && |u.ledger| == 1 && u.ledger[0].kind == "Income" && u.ledger[0].amount == 100000
  {
    var e := InvoiceEdit(Some("paid"), None, Some(Num(100000)), Some(Num(5000)), None, None, None);
    assert Text.Lower("paid") == "paid";
    assert MarksPaid(e);
  }

  /** An unpaid draft rent invoice of 1000.00 on an empty ledger. */
  function OneDraftInvoice(): Db {
    Db(map[], map[], map[], map[], map[],
       map[1 := Invoice("INV-MAN-00001", 1, 1, Some(1), FullUnit, Some(YearMonth(2026, 3)), 100000, 0, 100000, 0,
                        100000, "draft", "RENT", None, Date(2026, 3, 6), None, None)],
       map[], [], map[], [], [], map[], [], {}, map[], [])
  }

  /** updateInvoice with the checks first: a refused edit writes nothing, and an accepted
      one writes what the handler writes. */
  function CheckedUpdateSpec(d: Db, id: Id, e: InvoiceEdit, today: Day): (u: Update)
    ensures u.r.Err? ==> u.invoices == d.invoices && u.ledger == d.ledger
    ensures u.r.Ok? ==> u == UpdateInvoiceSpec(d, id, e, today)
    ensures u.r.Ok? <==> UpdateInvoiceSpec(d, id, e, today).r.Ok?
  {
    if id !in d.invoices then Update(Err(InvoiceNotFound), d.invoices, d.ledger)
    else
      var inv := d.invoices[id];
      if EditsAmounts(e) && BothPositive(NewAmounts(inv, e)) then Update(Err(RentWithFees), d.invoices, d.ledger)
      else if EditsAmounts(e) && InvalidAmounts(inv, e) then Update(Err(ServerError), d.invoices, d.ledger)
      else UpdateInvoiceSpec(d, id, e, today)
  }

  method CheckedUpdateInvoice(db: Database, id: Id, e: InvoiceEdit, today: Day) returns (r: Result<Id, InvoiceError>)
    modifies db`invoices, db`ledger
    ensures Update(r, db.invoices, db.ledger) == CheckedUpdateSpec(old(db.State()), id, e, today)
  {
    if id !in db.invoices {
      return Err(InvoiceNotFound);
    }
    var inv := db.invoices[id];
    if EditsAmounts(e) {
      var amounts := NewAmounts(inv, e);
      if BothPositive(amounts) {
        return Err(RentWithFees);
      }
      if amounts.0.NaN? || amounts.1.NaN? {
        return Err(ServerError);
      }
    }
    r := UpdateInvoice(db, id, e, today);
  }

  /** With the checks first, a refused edit is refused for the same reason and leaves no
      ledger row behind. */
  lemma CheckedRefusalWritesNothing(d: Db, id: Id, e: InvoiceEdit, today: Day)
    requires UpdateInvoiceSpec(d, id, e, today).r.Err?
    ensures var u := CheckedUpdateSpec(d, id, e, today);
      u.r == UpdateInvoiceSpec(d, id, e, today).r && u.ledger == d.ledger && u.invoices == d.invoices
  {
  }

  // ---------------------------------------------------------------------------------
  // getInvoices: the repair of unpaid zero-amount invoices
  // ---------------------------------------------------------------------------------

  /** An invoice the listing repairs: not paid (in any letter case), a zero amount, and a
      lease whose rent is positive. */
  predicate NeedsRepair(inv: Invoice, leases: map<Id, Lease>) {
    && Text.Lower(inv.status) != "paid" && inv.amount == 0
    && inv.leaseId.Some? && inv.leaseId.value in leases && leases[inv.leaseId.value].monthlyRent > 0
  }

  /** Rent, amount and balance set to the lease's rent. */
  function Repaired(inv: Invoice, leases: map<Id, Lease>): Invoice {
    if NeedsRepair(inv, leases) then
      var rent := leases[inv.leaseId.value].monthlyRent;
      inv.(rent := rent, amount := rent, balanceDue := rent)
    else inv
  }

  function RepairAll(invoices: map<Id, Invoice>, leases: map<Id, Lease>): map<Id, Invoice> {
    map k | k in invoices :: Repaired(invoices[k], leases)
  }

  /** The listing visits every invoice once, in the order the query returned them, and
      writes back each one that needs repair. */
  method RepairListed(db: Database, order: seq<Id>)
    requires Enumerates(order, db.invoices.Keys)
    modifies db`invoices
    ensures db.invoices == RepairAll(old(db.invoices), db.leases)
  {
    for i := 0 to |order|
      invariant db.invoices.Keys == old(db.invoices).Keys
      invariant forall k :: k in db.invoices ==>
        db.invoices[k] == if k in order[..i] then Repaired(old(db.invoices)[k], db.leases) else old(db.invoices)[k]
    {
      var k := order[i];
      assert k !in order[..i];
      var inv := db.invoices[k];
      if NeedsRepair(inv, db.leases) {
        var rent := db.leases[inv.leaseId.value].monthlyRent;
        db.invoices := db.invoices[k := inv.(rent := rent, amount := rent, balanceDue := rent)];
      }
      assert order[..i + 1] == order[..i] + [k];
    }
    assert order[..|order|] == order;
    ghost var want := RepairAll(old(db.invoices), db.leases);
    assert db.invoices.Keys == want.Keys;
    forall k | k in db.invoices
      ensures db.invoices[k] == want[k]
    {
      assert k in order;
    }
  }

  /** After the repair no invoice needs one: a repaired invoice's amount is the lease's
      positive rent; every other invoice is unchanged. */
  lemma RepairComplete(invoices: map<Id, Invoice>, leases: map<Id, Lease>)
    ensures var r := RepairAll(invoices, leases);
      r.Keys == invoices.Keys
      && (forall k :: k in r ==> !NeedsRepair(r[k], leases))
      && (forall k :: k in r && NeedsRepair(invoices[k], leases) ==>
            r[k].amount == r[k].rent == r[k].balanceDue == leases[invoices[k].leaseId.value].monthlyRent > 0)
      && (forall k :: k in r && !NeedsRepair(invoices[k], leases) ==> r[k] == invoices[k])
  {
  }

  /** Listing twice repairs nothing the second time. */
  lemma RepairIdempotent(invoices: map<Id, Invoice>, leases: map<Id, Lease>)
    ensures RepairAll(RepairAll(invoices, leases), leases) == RepairAll(invoices, leases)
  {
    RepairComplete(invoices, leases);
    var once := RepairAll(invoices, leases);
    forall k | k in once
      ensures Repaired(once[k], leases) == once[k]
    {
      assert !NeedsRepair(once[k], leases);
    }
  }
}
