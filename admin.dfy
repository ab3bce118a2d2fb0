/** The admin's property handlers: composing a building's address on create and update,
    the occupancy figures of the property list and of the dashboard, and deleting a
    building together with everything that hangs off it, dependents before parents, in
    one transaction. */
module AdminController {
  import opened Wrappers
  import opened Keys
  import opened Store
  import Money

  // ---------------------------------------------------------------------------------
  // Addresses
  // ---------------------------------------------------------------------------------

  /** A field of a JSON request body: left out, null, or a string. */
  datatype Field = Undefined | Null | Str(s: string)

  predicate Truthy(f: Field) { f.Str? && f.s != "" }

  /** `f || null` */
  function OrNull(f: Field): (r: Option<string>)
    ensures r.Some? <==> Truthy(f)
    ensures r.Some? ==> r.value == f.s
  {
    if Truthy(f) then Some(f.s) else None
  }

  /** `f !== undefined ? f : current` */
  function Supplied(f: Field, current: Option<string>): (r: Option<string>)
    ensures f.Undefined? ==> r == current
    ensures f.Null? ==> r.None?
    ensures f.Str? ==> r == Some(f.s)
  {
    match f
    case Undefined => current
    case Null => None
    case Str(s) => Some(s)
  }

  datatype AddressParts = AddressParts(civic: Field, street: Field, city: Field, province: Field, postal: Field)

  /** The parts make an address only when both the civic number and the street are given. */
  predicate Composes(p: AddressParts) { Truthy(p.civic) && Truthy(p.street) }

  function Suffix(f: Field, sep: string): string {
    if Truthy(f) then sep + f.s else ""
  }

  /** "civic street", then ", city", ", province" and " postal" for the parts given. */
  function Composed(p: AddressParts): string
    requires Composes(p)
  {
    p.civic.s + " " + p.street.s + Suffix(p.city, ", ") + Suffix(p.province, ", ") + Suffix(p.postal, " ")
  }

  /** createProperty's address: composed from the parts when they allow it, otherwise
      the address given, otherwise "Not Provided". */
  function NewAddress(address: Field, p: AddressParts): (r: string)
    ensures |r| > 0
  {
    if Composes(p) then Composed(p) else if Truthy(address) then address.s else "Not Provided"
  }

  /** updateProperty's address: recomposed only when both civic number and street come
      with the edit, otherwise the stored one. */
  function EditedAddress(current: string, p: AddressParts): string {
    if Composes(p) then Composed(p) else current
  }

  /** The composed address starts with the civic number and the street, ends with the
      postal code when one is given, and does not depend on the free-text address. */
  lemma ComposedAddress(address: Field, p: AddressParts)
    requires Composes(p)
    ensures var r := NewAddress(address, p);
      && r[..|p.civic.s| + 1 + |p.street.s|] == p.civic.s + " " + p.street.s
      && (Truthy(p.postal) ==> r[|r| - |p.postal.s| - 1..] == " " + p.postal.s)
      && r == NewAddress(Undefined, p)
  {
    var r := NewAddress(address, p);
    var head := p.civic.s + " " + p.street.s;
    var rest := Suffix(p.city, ", ") + Suffix(p.province, ", ") + Suffix(p.postal, " ");
    assert r == head + rest;
    assert r[..|head|] == head;
  }

  /** An edit keeps the stored address unless it brings both civic number and street, and
      then the address is the one creating the building with those parts would give. */
  lemma EditAddressRule(current: string, address: Field, p: AddressParts)
    ensures !Composes(p) ==> EditedAddress(current, p) == current
    ensures Composes(p) ==> EditedAddress(current, p) == NewAddress(address, p)
  {
  }

  // ---------------------------------------------------------------------------------
  // createProperty / updateProperty
  // ---------------------------------------------------------------------------------

  datatype NewProperty = NewProperty(name: string, status: string, address: Field, parts: AddressParts)

  /** POST /api/admin/properties; the owners it connects are left out. */
  function CreatePropertySpec(properties: map<Id, Property>, req: NewProperty): (r: (Id, map<Id, Property>))
    ensures r.0 !in properties && r.0 in r.1 && r.1 == properties[r.0 := r.1[r.0]]
  {
    var k := FreshKey(properties.Keys);
    var p := req.parts;
    (k, properties[k := Property(req.name, req.status, NewAddress(req.address, p), OrNull(p.civic), OrNull(p.street),
                                 OrNull(p.city), OrNull(p.province), OrNull(p.postal))])
  }

  method CreateProperty(db: Database, req: NewProperty) returns (id: Id)
    modifies db`properties
    ensures (id, db.properties) == CreatePropertySpec(old(db.properties), req)
  {
    id := FreshKey(db.properties.Keys);
    var p := req.parts;
    var fullAddress := NewAddress(req.address, p);
    db.properties := db.properties[id := Property(req.name, req.status, fullAddress, OrNull(p.civic), OrNull(p.street),
                                                  OrNull(p.city), OrNull(p.province), OrNull(p.postal))];
  }

  /** A created building stores each address part that was given and not empty, and null
      for the others. */
  lemma CreatedProperty(properties: map<Id, Property>, req: NewProperty)
    ensures var (k, after) := CreatePropertySpec(properties, req);
      var b := after[k];
      && b.name == req.name && b.status == req.status
      && (b.civicNumber.Some? <==> Truthy(req.parts.civic)) && (b.street.Some? <==> Truthy(req.parts.street))
      && (b.city.Some? <==> Truthy(req.parts.city)) && (b.province.Some? <==> Truthy(req.parts.province))
      && (b.postalCode.Some? <==> Truthy(req.parts.postal))
      && (Composes(req.parts) ==> b.address == Composed(req.parts))
      && (!Composes(req.parts) && !Truthy(req.address) ==> b.address == "Not Provided")
  {
  }

  /** Name and status are None where the request leaves them out. */
  datatype PropertyEdit = PropertyEdit(name: Option<string>, status: Option<string>, parts: AddressParts)

  /** An id that does not parse makes the lookup throw (500); a missing building is 404. */
  datatype AdminError = PropertyNotFound | ServerError

  function HttpStatus(e: AdminError): (code: int)
    ensures code == 404 <==> e.PropertyNotFound?
    ensures code == 500 <==> e.ServerError?
  {
    if e.PropertyNotFound? then 404 else 500
  }

  /** PUT /api/admin/properties/:id; a new owner list is left out. */
  function UpdatePropertySpec(properties: map<Id, Property>, id: Option<Id>, edit: PropertyEdit): (r: (Result<Property, AdminError>, map<Id, Property>))
    ensures r.0.Err? ==> r.1 == properties
  {
    if id.None? then (Err(ServerError), properties)
    else if id.value !in properties then (Err(PropertyNotFound), properties)
    else
      var cur := properties[id.value];
      var p := edit.parts;
      var b := Property(edit.name.GetOr(cur.name), edit.status.GetOr(cur.status), EditedAddress(cur.address, p),
                        Supplied(p.civic, cur.civicNumber), Supplied(p.street, cur.street), Supplied(p.city, cur.city),
                        Supplied(p.province, cur.province), Supplied(p.postal, cur.postalCode));
      (Ok(b), properties[id.value := b])
  }

  method UpdateProperty(db: Database, id: Option<Id>, edit: PropertyEdit) returns (r: Result<Property, AdminError>)
    modifies db`properties
    ensures (r, db.properties) == UpdatePropertySpec(old(db.properties), id, edit)
  {
    if id.None? {
      return Err(ServerError);
    }
    if id.value !in db.properties {
      return Err(PropertyNotFound);
    }
    var current := db.properties[id.value];
    var p := edit.parts;
    var fullAddress := EditedAddress(current.address, p);
    var b := Property(edit.name.GetOr(current.name), edit.status.GetOr(current.status), fullAddress,
                      Supplied(p.civic, current.civicNumber), Supplied(p.street, current.street), Supplied(p.city, current.city),
                      Supplied(p.province, current.province), Supplied(p.postal, current.postalCode));
    db.properties := db.properties[id.value := b];
    r := Ok(b);
  }

  /** An edit that leaves everything out changes nothing; the address changes only when
      civic number and street both come with it; no other building changes. */
  lemma UpdatedProperty(properties: map<Id, Property>, id: Id, edit: PropertyEdit)
    requires id in properties
    ensures var (r, after) := UpdatePropertySpec(properties, Some(id), edit);
      && r.Ok? && after.Keys == properties.Keys
      && (forall k :: k in properties && k != id ==> after[k] == properties[k])
      && (!Composes(edit.parts) ==> after[id].address == properties[id].address)
      && (edit == PropertyEdit(None, None, AddressParts(Undefined, Undefined, Undefined, Undefined, Undefined)) ==>
            after == properties)
  {
  }

  // ---------------------------------------------------------------------------------
  // Occupancy
  // ---------------------------------------------------------------------------------

  /** `Math.round(occupied / total * 100)`, 0 for a building with no units. */
  function OccupancyRate(total: nat, occupied: nat): (rate: int)
    requires occupied <= total
    ensures total == 0 ==> rate == 0
    ensures total > 0 ==> 2 * rate * total - total <= 200 * occupied < 2 * rate * total + total
  {
    if total > 0 then Money.MathRound(100 * occupied, total) else 0
  }

  lemma ScaleLess(a: int, b: int, t: int)
    requires a < b && t > 0
    ensures a * t + t <= b * t
  {
    assert (b - a - 1) * t >= 0;
  }

  /** The rate is a percentage: 0 when nothing is occupied, 100 when everything is. */
  lemma RateBounds(total: nat, occupied: nat)
    requires occupied <= total
    ensures 0 <= OccupancyRate(total, occupied) <= 100
    ensures occupied == 0 ==> OccupancyRate(total, occupied) == 0
    ensures 0 < total == occupied ==> OccupancyRate(total, occupied) == 100
  {
    if total > 0 {
      var r := OccupancyRate(total, occupied);
      if r > 100 {
        ScaleLess(100, r, total);
      }
      if r < 0 {
        ScaleLess(r, 0, total);
      }
      if occupied == total && r < 100 {
        ScaleLess(r, 100, total);
      }
      if occupied == 0 && r > 0 {
        ScaleLess(0, r, total);
      }
    }
  }

  /** More occupied units never lower the rate. */
  lemma RateMonotone(total: nat, occupied: nat, more: nat)
    requires occupied <= more <= total
    ensures OccupancyRate(total, occupied) <= OccupancyRate(total, more)
  {
    if total > 0 {
      var r := OccupancyRate(total, occupied);
      var q := OccupancyRate(total, more);
      if q < r {
        ScaleLess(q, r, total);
      }
    }
  }

  function UnitsOf(units: map<Id, Unit>, propertyId: Id): set<Id> {
    set k | k in units && units[k].propertyId == propertyId
  }

  /** A unit counts as occupied on the property pages when its status is not Vacant. */
  function NotVacant(units: map<Id, Unit>, ids: set<Id>): (r: set<Id>)
    ensures r <= ids
  {
    set k | k in ids && k in units && units[k].status != Vacant
  }

  /** getProperties / getPropertyDetails: the building's occupancy rate. */
  function PropertyOccupancy(units: map<Id, Unit>, propertyId: Id): int {
    var ids := UnitsOf(units, propertyId);
    CardinalityMono(NotVacant(units, ids), ids);
    OccupancyRate(|ids|, |NotVacant(units, ids)|)
  }

  lemma CardinalityMono(a: set<Id>, b: set<Id>)
    requires a <= b
    ensures |a| <= |b|
  {
    assert b == a + (b - a);
  }

  /** The dashboard's unit counts. */
  datatype Occupancy = Occupancy(total: nat, occupied: nat, vacant: int)

  function StatusCount(units: map<Id, Unit>, status: UnitStatus): nat {
    |set k | k in units && units[k].status == status|
  }

  /** getDashboardStats as written: occupied counts only units whose status is exactly
      Occupied, and vacant is the rest. */
  function DashboardOccupancy(units: map<Id, Unit>): Occupancy {
    var occupied := StatusCount(units, Occupied);
    Occupancy(|units|, occupied, |units| - occupied)
  }

  /** The counts as the property pages count: a unit is occupied unless it is Vacant. */
  function CorrectedDashboardOccupancy(units: map<Id, Unit>): Occupancy {
    var occupied := |NotVacant(units, units.Keys)|;
    Occupancy(|units|, occupied, |units| - occupied)
  }

  function OneUnit(status: UnitStatus): map<Id, Unit> {
    map[1 := Unit(1, "101", "101", "", None, status, FullUnit, 1)]
  }

  /** As written, a building whose only unit is Fully Booked shows on the dashboard as one
      vacant unit and no occupied one, while its property page shows it 100% occupied. */
  lemma AsWrittenFullyBookedCountsVacant()
    ensures DashboardOccupancy(OneUnit(FullyBooked)) == Occupancy(1, 0, 1)
    ensures PropertyOccupancy(OneUnit(FullyBooked), 1) == 100
  {
    var units := OneUnit(FullyBooked);
    assert (set k | k in units && units[k].status == Occupied) == {};
    assert UnitsOf(units, 1) == {1};
    assert NotVacant(units, {1}) == {1};
  }

  /** Corrected, the dashboard's vacant units are exactly the Vacant ones, and its
      occupied count is the one the property pages compute their rate from. */
  lemma CorrectedDashboardCounts(units: map<Id, Unit>)
    ensures var c := CorrectedDashboardOccupancy(units);
      && c.vacant == StatusCount(units, Vacant)
      && c.occupied + c.vacant == c.total == |units|
      && (forall p :: UnitsOf(units, p) == units.Keys ==>
            PropertyOccupancy(units, p) == OccupancyRate(c.total, c.occupied))
  {
    var busy := NotVacant(units, units.Keys);
    var idle := set k | k in units && units[k].status == Vacant;
    assert busy * idle == {};
    assert busy + idle == units.Keys;
    assert |busy + idle| == |busy| + |idle|;
  }

  // ---------------------------------------------------------------------------------
  // deleteProperty
  // ---------------------------------------------------------------------------------

  /** The tables deleteProperty touches (documents, tickets and maintenance tasks are not
      part of this model). */
  datatype Estate = Estate(
    properties: map<Id, Property>, units: map<Id, Unit>, bedrooms: map<Id, Bedroom>, users: map<Id, User>,
    leases: map<Id, Lease>, invoices: map<Id, Invoice>, payments: map<Id, Payment>, ledger: seq<LedgerEntry>,
    insurances: map<Id, Insurance>, refunds: seq<Refund>)

  function EstateOf(db: Database): Estate
    reads db
  {
    Estate(db.properties, db.units, db.bedrooms, db.users, db.leases, db.invoices, db.payments, db.ledger,
           db.insurances, db.refunds)
  }

  /** The ids gathered before the transaction: the building's units, their bedrooms and
      leases, the invoices of those units or leases, and the payments of those invoices. */
  datatype Scope = Scope(units: set<Id>, bedrooms: set<Id>, leases: set<Id>, invoices: set<Id>, payments: set<Id>)

  function ScopeOf(e: Estate, propertyId: Id): Scope {
    var us := UnitsOf(e.units, propertyId);
    var bs := set k | k in e.bedrooms && e.bedrooms[k].unitId in us;
    var ls := set k | k in e.leases && e.leases[k].unitId in us;
    var ivs := set k | k in e.invoices && (e.invoices[k].unitId in us || RefersTo(e.invoices[k].leaseId, ls));
    var ps := set k | k in e.payments && e.payments[k].invoiceId in ivs;
    Scope(us, bs, ls, ivs, ps)
  }

  function InsurancesIn(insurances: map<Id, Insurance>, s: Scope): set<Id> {
    set k | k in insurances && (RefersTo(insurances[k].unitId, s.units) || RefersTo(insurances[k].leaseId, s.leases))
  }

  /** The refund rows left once those of the units `gone` are deleted. */
  function RefundsOffUnits(refunds: seq<Refund>, gone: set<Id>): (r: seq<Refund>)
    ensures forall x :: x in r <==> x in refunds && x.unitId !in gone
  {
    Keep(refunds, (x: Refund) => x.unitId !in gone)
  }

  /** A user's references to the scope's leases, units and bedrooms set to null. */
  function Unlinked(u: User, s: Scope): User {
    u.(leaseId := if RefersTo(u.leaseId, s.leases) then None else u.leaseId,
       unitId := if RefersTo(u.unitId, s.units) then None else u.unitId,
       bedroomId := if RefersTo(u.bedroomId, s.bedrooms) then None else u.bedroomId)
  }

  function UnlinkAll(users: map<Id, User>, s: Scope): (r: map<Id, User>)
    ensures r.Keys == users.Keys && forall k :: k in r ==> r[k] == Unlinked(users[k], s)
  {
    map k | k in users :: Unlinked(users[k], s)
  }

  function DropLedger(a: Estate, s: Scope): Estate { a.(ledger := LedgerWithout(a.ledger, s.invoices, s.payments)) }
  function DropPayments(a: Estate, s: Scope): Estate { a.(payments := a.payments - s.payments) }
  function DropInsurances(a: Estate, s: Scope): Estate { a.(insurances := a.insurances - InsurancesIn(a.insurances, s)) }
  function DropRefunds(a: Estate, s: Scope): Estate { a.(refunds := RefundsOffUnits(a.refunds, s.units)) }
  function DropInvoices(a: Estate, s: Scope): Estate { a.(invoices := a.invoices - s.invoices) }
  function UnlinkUsers(a: Estate, s: Scope): Estate { a.(users := UnlinkAll(a.users, s)) }
  function DropLeases(a: Estate, s: Scope): Estate { a.(leases := a.leases - s.leases) }
  function DropBedrooms(a: Estate, s: Scope): Estate { a.(bedrooms := a.bedrooms - s.bedrooms) }
  function DropUnits(a: Estate, s: Scope): Estate { a.(units := a.units - s.units) }
  function DropProperty(a: Estate, propertyId: Id): Estate { a.(properties := a.properties - {propertyId}) }

  /** The database after each step of the transaction, in the source's order: ledger rows,
      payments, insurance, refunds, invoices, user links, leases, bedrooms, units, and last
      the building itself. */
  function Stages(e: Estate, propertyId: Id): (r: seq<Estate>)
    ensures |r| == 11 && r[0] == e
  {
    var s := ScopeOf(e, propertyId);
    var e1 := DropLedger(e, s);
    var e2 := DropPayments(e1, s);
    var e3 := DropInsurances(e2, s);
    var e4 := DropRefunds(e3, s);
    var e5 := DropInvoices(e4, s);
    var e6 := UnlinkUsers(e5, s);
    var e7 := DropLeases(e6, s);
    var e8 := DropBedrooms(e7, s);
    var e9 := DropUnits(e8, s);
    var e10 := DropProperty(e9, propertyId);
    [e, e1, e2, e3, e4, e5, e6, e7, e8, e9, e10]
  }

  /** DELETE /api/admin/properties/:id. Every failure, a building that does not exist
      included, rolls the transaction back and answers 500. */
  function DeletePropertySpec(e: Estate, id: Option<Id>): (r: (Result<Id, AdminError>, Estate))
    ensures r.0.Err? ==> r.1 == e && r.0.error == ServerError
  {
    if id.None? || id.value !in e.properties then (Err(ServerError), e)
    else (Ok(id.value), Stages(e, id.value)[10])
  }

  /** The deletes run in the order Stages lists them; the missing building is checked
      first, which leaves the same state as the rollback. */
  method DeleteProperty(db: Database, id: Option<Id>) returns (r: Result<Id, AdminError>)
    modifies db`properties, db`units, db`bedrooms, db`users, db`leases, db`invoices, db`payments, db`ledger,
             db`insurances, db`refunds
    ensures (r, EstateOf(db)) == DeletePropertySpec(old(EstateOf(db)), id)
  {
    if id.None? || id.value !in db.properties {
      return Err(ServerError);
    }
    var propertyId := id.value;
    var s := ScopeOf(EstateOf(db), propertyId);
    db.ledger := LedgerWithout(db.ledger, s.invoices, s.payments);
    db.payments := db.payments - s.payments;
    db.insurances := db.insurances - InsurancesIn(db.insurances, s);
    db.refunds := RefundsOffUnits(db.refunds, s.units);
    db.invoices := db.invoices - s.invoices;
    db.users := UnlinkAll(db.users, s);
    db.leases := db.leases - s.leases;
    db.bedrooms := db.bedrooms - s.bedrooms;
    db.units := db.units - s.units;
    db.properties := db.properties - {propertyId};
    r := Ok(propertyId);
  }

  // ---------------------------------------------------------------------------------
  // Referential integrity along the deletion
  // ---------------------------------------------------------------------------------

  /** An optional reference that is null or points into `ids`. */
  predicate Points(ref: Option<Id>, ids: set<Id>) { ref.None? || ref.value in ids }

  predicate UnitsIntact(properties: map<Id, Property>, units: map<Id, Unit>) {
    forall k :: k in units ==> units[k].propertyId in properties
  }

  predicate BedroomsIntact(units: map<Id, Unit>, bedrooms: map<Id, Bedroom>) {
    forall k :: k in bedrooms ==> bedrooms[k].unitId in units
  }

  predicate LeasesIntact(units: map<Id, Unit>, bedrooms: map<Id, Bedroom>, leases: map<Id, Lease>) {
    forall k :: k in leases ==> leases[k].unitId in units && Points(leases[k].bedroomId, bedrooms.Keys)
  }

  predicate InvoicesIntact(units: map<Id, Unit>, leases: map<Id, Lease>, invoices: map<Id, Invoice>) {
    forall k :: k in invoices ==> invoices[k].unitId in units && Points(invoices[k].leaseId, leases.Keys)
  }

  predicate PaymentsIntact(invoices: map<Id, Invoice>, payments: map<Id, Payment>) {
    forall k :: k in payments ==> payments[k].invoiceId in invoices
  }

  predicate LedgerIntact(invoices: map<Id, Invoice>, payments: map<Id, Payment>, ledger: seq<LedgerEntry>) {
    forall x :: x in ledger ==> Points(x.invoiceId, invoices.Keys) && Points(x.paymentId, payments.Keys)
  }

  predicate UsersIntact(units: map<Id, Unit>, bedrooms: map<Id, Bedroom>, leases: map<Id, Lease>, users: map<Id, User>) {
    forall k :: k in users ==>
      Points(users[k].leaseId, leases.Keys) && Points(users[k].unitId, units.Keys) && Points(users[k].bedroomId, bedrooms.Keys)
  }

  predicate InsurancesIntact(units: map<Id, Unit>, leases: map<Id, Lease>, insurances: map<Id, Insurance>) {
    forall k :: k in insurances ==> Points(insurances[k].unitId, units.Keys) && Points(insurances[k].leaseId, leases.Keys)
  }

  predicate RefundsIntact(units: map<Id, Unit>, refunds: seq<Refund>) {
    forall x :: x in refunds ==> x.unitId in units
  }

  /** No row refers to a row that does not exist: what the foreign keys enforce. */
  predicate Intact(e: Estate) {
    && UnitsIntact(e.properties, e.units)
    && BedroomsIntact(e.units, e.bedrooms)
    && LeasesIntact(e.units, e.bedrooms, e.leases)
    && InvoicesIntact(e.units, e.leases, e.invoices)
    && PaymentsIntact(e.invoices, e.payments)
    && LedgerIntact(e.invoices, e.payments, e.ledger)
    && UsersIntact(e.units, e.bedrooms, e.leases, e.users)
    && InsurancesIntact(e.units, e.leases, e.insurances)
    && RefundsIntact(e.units, e.refunds)
  }

  /** A bedroom lease is on the unit its bedroom belongs to. */
  predicate Consistent(e: Estate) {
    forall k :: k in e.leases && e.leases[k].bedroomId.Some? && e.leases[k].bedroomId.value in e.bedrooms ==>
      e.bedrooms[e.leases[k].bedroomId.value].unitId == e.leases[k].unitId
  }

  // Each step keeps the database intact once nothing left refers to what it deletes.

  lemma LedgerStep(a: Estate, s: Scope)
    requires Intact(a)
    ensures Intact(DropLedger(a, s))
  {
    assert LedgerIntact(a.invoices, a.payments, DropLedger(a, s).ledger);
  }

  lemma PaymentsStep(a: Estate, s: Scope)
    requires Intact(a)
    requires forall x :: x in a.ledger ==> !RefersTo(x.paymentId, s.payments)
    ensures Intact(DropPayments(a, s))
  {
    var b := DropPayments(a, s);
    assert PaymentsIntact(b.invoices, b.payments);
    assert LedgerIntact(b.invoices, b.payments, b.ledger);
  }

  lemma InsurancesStep(a: Estate, s: Scope)
    requires Intact(a)
    ensures Intact(DropInsurances(a, s))
  {
    var b := DropInsurances(a, s);
    assert InsurancesIntact(b.units, b.leases, b.insurances);
  }

  lemma RefundsStep(a: Estate, s: Scope)
    requires Intact(a)
    ensures Intact(DropRefunds(a, s))
  {
    var b := DropRefunds(a, s);
    assert RefundsIntact(b.units, b.refunds);
  }

  lemma InvoicesStep(a: Estate, s: Scope)
    requires Intact(a)
    requires forall k :: k in a.payments ==> a.payments[k].invoiceId !in s.invoices
    requires forall x :: x in a.ledger ==> !RefersTo(x.invoiceId, s.invoices)
    ensures Intact(DropInvoices(a, s))
  {
    var b := DropInvoices(a, s);
    assert InvoicesIntact(b.units, b.leases, b.invoices);
    assert PaymentsIntact(b.invoices, b.payments);
    assert LedgerIntact(b.invoices, b.payments, b.ledger);
  }

  lemma UsersStep(a: Estate, s: Scope)
    requires Intact(a)
    ensures Intact(UnlinkUsers(a, s))
  {
    var b := UnlinkUsers(a, s);
    assert UsersIntact(b.units, b.bedrooms, b.leases, b.users);
  }

  lemma LeasesStep(a: Estate, s: Scope)
    requires Intact(a)
    requires forall k :: k in a.invoices ==> !RefersTo(a.invoices[k].leaseId, s.leases)
    requires forall k :: k in a.users ==> !RefersTo(a.users[k].leaseId, s.leases)
    requires forall k :: k in a.insurances ==> !RefersTo(a.insurances[k].leaseId, s.leases)
    ensures Intact(DropLeases(a, s))
  {
    var b := DropLeases(a, s);
    assert LeasesIntact(b.units, b.bedrooms, b.leases);
    assert InvoicesIntact(b.units, b.leases, b.invoices);
    assert UsersIntact(b.units, b.bedrooms, b.leases, b.users);
    assert InsurancesIntact(b.units, b.leases, b.insurances);
  }

  lemma BedroomsStep(a: Estate, s: Scope)
    requires Intact(a)
    requires forall k :: k in a.leases ==> !RefersTo(a.leases[k].bedroomId, s.bedrooms)
    requires forall k :: k in a.users ==> !RefersTo(a.users[k].bedroomId, s.bedrooms)
    ensures Intact(DropBedrooms(a, s))
  {
    var b := DropBedrooms(a, s);
    assert BedroomsIntact(b.units, b.bedrooms);
    assert LeasesIntact(b.units, b.bedrooms, b.leases);
    assert UsersIntact(b.units, b.bedrooms, b.leases, b.users);
  }

  lemma UnitsStep(a: Estate, s: Scope)
    requires Intact(a)
    requires forall k :: k in a.bedrooms ==> a.bedrooms[k].unitId !in s.units
    requires forall k :: k in a.leases ==> a.leases[k].unitId !in s.units
    requires forall k :: k in a.invoices ==> a.invoices[k].unitId !in s.units
    requires forall k :: k in a.users ==> !RefersTo(a.users[k].unitId, s.units)
    requires forall k :: k in a.insurances ==> !RefersTo(a.insurances[k].unitId, s.units)
    requires forall x :: x in a.refunds ==> x.unitId !in s.units
    ensures Intact(DropUnits(a, s))
  {
    var b := DropUnits(a, s);
    assert UnitsIntact(b.properties, b.units);
    assert BedroomsIntact(b.units, b.bedrooms);
    assert LeasesIntact(b.units, b.bedrooms, b.leases);
    assert InvoicesIntact(b.units, b.leases, b.invoices);
    assert UsersIntact(b.units, b.bedrooms, b.leases, b.users);
    assert InsurancesIntact(b.units, b.leases, b.insurances);
    assert RefundsIntact(b.units, b.refunds);
  }

  lemma PropertyStep(a: Estate, propertyId: Id)
    requires Intact(a)
    requires forall k :: k in a.units ==> a.units[k].propertyId != propertyId
    ensures Intact(DropProperty(a, propertyId))
  {
    var b := DropProperty(a, propertyId);
    assert UnitsIntact(b.properties, b.units);
  }

  /** The scope is closed under references: whatever refers to a row it deletes is in it. */
  lemma ScopeClosed(e: Estate, propertyId: Id)
    requires Consistent(e)
    ensures var s := ScopeOf(e, propertyId);
      && (forall k :: k in e.payments && k !in s.payments ==> e.payments[k].invoiceId !in s.invoices)
      && (forall k :: k in e.invoices && k !in s.invoices ==> !RefersTo(e.invoices[k].leaseId, s.leases) && e.invoices[k].unitId !in s.units)
      && (forall k :: k in e.leases && k !in s.leases ==> !RefersTo(e.leases[k].bedroomId, s.bedrooms) && e.leases[k].unitId !in s.units)
      && (forall k :: k in e.bedrooms && k !in s.bedrooms ==> e.bedrooms[k].unitId !in s.units)
      && (forall k :: k in e.units && k !in s.units ==> e.units[k].propertyId != propertyId)
  {
  }

  /** Steps one to five: the ledger rows, payments, insurance policies and refunds go
      before the invoices they refer to. */
  lemma FrontStagesIntact(e: Estate, s: Scope, propertyId: Id)
    requires Intact(e) && Consistent(e) && s == ScopeOf(e, propertyId)
    ensures var e1 := DropLedger(e, s);
      var e2 := DropPayments(e1, s);
      var e3 := DropInsurances(e2, s);
      var e4 := DropRefunds(e3, s);
      Intact(e1) && Intact(e2) && Intact(e3) && Intact(e4) && Intact(DropInvoices(e4, s))
  {
    ScopeClosed(e, propertyId);
    var e1 := DropLedger(e, s);
    LedgerStep(e, s);
    var e2 := DropPayments(e1, s);
    PaymentsStep(e1, s);
    var e3 := DropInsurances(e2, s);
    InsurancesStep(e2, s);
    var e4 := DropRefunds(e3, s);
    RefundsStep(e3, s);
    InvoicesStep(e4, s);
  }

  /** Steps six to eight: users are unlinked before the leases go, and the leases before
      the bedrooms they are on. */
  lemma MiddleStagesIntact(e: Estate, s: Scope, propertyId: Id, e5: Estate)
    requires Intact(e) && Consistent(e) && s == ScopeOf(e, propertyId)
    requires e5 == DropInvoices(DropRefunds(DropInsurances(DropPayments(DropLedger(e, s), s), s), s), s)
    requires Intact(e5)
    ensures var e6 := UnlinkUsers(e5, s);
      var e7 := DropLeases(e6, s);
      Intact(e6) && Intact(e7) && Intact(DropBedrooms(e7, s))
  {
    ScopeClosed(e, propertyId);
    var e6 := UnlinkUsers(e5, s);
    UsersStep(e5, s);
    var e7 := DropLeases(e6, s);
    LeasesStep(e6, s);
    BedroomsStep(e7, s);
  }

  /** Steps nine and ten: the units go once nothing refers to them, and the building once
      it has no units. */
  lemma BackStagesIntact(e: Estate, s: Scope, propertyId: Id, e8: Estate)
    requires Intact(e) && Consistent(e) && s == ScopeOf(e, propertyId)
    requires e8 == DropBedrooms(DropLeases(UnlinkUsers(DropInvoices(DropRefunds(DropInsurances(DropPayments(DropLedger(e, s), s), s), s), s), s), s), s)
    requires Intact(e8)
    ensures Intact(DropUnits(e8, s)) && Intact(DropProperty(DropUnits(e8, s), propertyId))
  {
    ScopeClosed(e, propertyId);
    UnitsStep(e8, s);
    PropertyStep(DropUnits(e8, s), propertyId);
  }

  /** Dependents go before parents: on an intact database every step of the transaction
      leaves it intact, so no foreign key stops the deletion. */
  lemma DeletionOrderKeepsIntegrity(e: Estate, propertyId: Id)
    requires Intact(e) && Consistent(e)
    ensures forall a :: a in Stages(e, propertyId) ==> Intact(a)
  {
    var s := ScopeOf(e, propertyId);
    StagesAre(e, propertyId);
    FrontStagesIntact(e, s, propertyId);
    var e5 := DropInvoices(DropRefunds(DropInsurances(DropPayments(DropLedger(e, s), s), s), s), s);
    MiddleStagesIntact(e, s, propertyId, e5);
    var e8 := DropBedrooms(DropLeases(UnlinkUsers(e5, s), s), s);
    BackStagesIntact(e, s, propertyId, e8);
  }

  lemma StagesAre(e: Estate, propertyId: Id)
    ensures var s := ScopeOf(e, propertyId);
      var e1 := DropLedger(e, s);
      var e2 := DropPayments(e1, s);
      var e3 := DropInsurances(e2, s);
      var e4 := DropRefunds(e3, s);
      var e5 := DropInvoices(e4, s);
      var e6 := UnlinkUsers(e5, s);
      var e7 := DropLeases(e6, s);
      var e8 := DropBedrooms(e7, s);
      var e9 := DropUnits(e8, s);
      Stages(e, propertyId) == [e, e1, e2, e3, e4, e5, e6, e7, e8, e9, DropProperty(e9, propertyId)]
  {
  }

  /** The state the transaction ends in, table by table. */
  lemma FinalStage(e: Estate, propertyId: Id)
    ensures var s := ScopeOf(e, propertyId);
      Stages(e, propertyId)[10]
        == Estate(e.properties - {propertyId}, e.units - s.units, e.bedrooms - s.bedrooms, UnlinkAll(e.users, s),
                  e.leases - s.leases, e.invoices - s.invoices, e.payments - s.payments,
                  LedgerWithout(e.ledger, s.invoices, s.payments), e.insurances - InsurancesIn(e.insurances, s),
                  RefundsOffUnits(e.refunds, s.units))
  {
    StagesAre(e, propertyId);
  }

  /** Afterwards the building and its units are gone and no row refers to them. Exactly the
      bedrooms and leases of the remaining units remain, untouched; exactly the invoices and
      payments outside the building remain, untouched; the ledger, policies and refunds lose
      exactly the building's rows, and every user is kept with its links into the building
      cleared. */
  lemma DeletedProperty(e: Estate, propertyId: Id)
    requires Intact(e) && Consistent(e) && propertyId in e.properties
    ensures var (r, after) := DeletePropertySpec(e, Some(propertyId));
      && r == Ok(propertyId) && Intact(after)
      && after.properties == e.properties - {propertyId}
      && (forall k :: k in after.units <==> k in e.units && e.units[k].propertyId != propertyId)
      && (forall k :: k in after.units ==> after.units[k] == e.units[k])
      && (forall k :: k in after.bedrooms <==> k in e.bedrooms && e.bedrooms[k].unitId in after.units)
      && (forall k :: k in after.bedrooms ==> after.bedrooms[k] == e.bedrooms[k])
      && (forall k :: k in after.leases <==> k in e.leases && e.leases[k].unitId in after.units)
      && (forall k :: k in after.leases ==> after.leases[k] == e.leases[k])
      && after.users.Keys == e.users.Keys
  {
    DeletionOrderKeepsIntegrity(e, propertyId);
    FinalStage(e, propertyId);
  }

  /** The billing rows outside the building all remain, untouched, and only those. */
  lemma DeletedPropertyBilling(e: Estate, propertyId: Id)
    requires propertyId in e.properties
    ensures var (r, after) := DeletePropertySpec(e, Some(propertyId));
      var s := ScopeOf(e, propertyId);
      && (forall k :: k in after.invoices <==> k in e.invoices && k !in s.invoices)
      && (forall k :: k in after.invoices ==> after.invoices[k] == e.invoices[k])
      && (forall k :: k in after.payments <==> k in e.payments && k !in s.payments)
      && (forall k :: k in after.payments ==> after.payments[k] == e.payments[k])
      && after.ledger == LedgerWithout(e.ledger, s.invoices, s.payments)
      && after.refunds == RefundsOffUnits(e.refunds, s.units)
      && after.insurances == e.insurances - InsurancesIn(e.insurances, s)
      && after.users == UnlinkAll(e.users, s)
  {
    FinalStage(e, propertyId);
  }
}
