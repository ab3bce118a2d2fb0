/** The admin lease handlers: creating a lease (full unit or one bedroom), activating a
    draft, editing it and deleting it. Each one is a single database transaction: its
    validations run before any write is kept, so a rejected request leaves every table as
    it was. Creation and activation also raise the rent invoices for every month from the
    lease start to the current month, and one security-deposit invoice. */
module LeaseController {
  import opened Wrappers
  import opened Calendar
  import opened Keys
  import opened Store
  import opened Money
  import Text

  datatype LeaseError =
    | MissingIds | TenantNotFound | ResidentCannotLease | UnitNotFound
    | BedroomsOccupied | UnitHasActiveLease | OtherTenantDraft
    | ActiveIndividualFullLease | ReservedForOtherTenant | BedroomNotInUnit | BedroomUnavailable
    | PrimaryIsCoTenant | LeaseNotFound | UnitLeasedWhole | InvalidRent
    | MissingRecord  // a row the handler dereferences without checking: a server error
    | RowNotFound    // Prisma's P2025 on an update of a row that is gone, which the error middleware answers 404

  /** The HTTP status each rejection answers with. */
  function HttpStatus(e: LeaseError): (code: int)
    ensures code == 404 <==> e in {TenantNotFound, UnitNotFound, BedroomNotInUnit, LeaseNotFound, RowNotFound}
    ensures code == 500 <==> e == MissingRecord
    ensures code in {400, 404, 500}
  {
    match e
    case TenantNotFound | UnitNotFound | BedroomNotInUnit | LeaseNotFound | RowNotFound => 404
    case MissingRecord => 500
    case _ => 400
  }

  // ---------------------------------------------------------------------------------
  // The leases a unit carries (`unit.leases` restricted to Active and DRAFT)
  // ---------------------------------------------------------------------------------

  predicate OnUnit(d: Db, l: Id, unitId: Id) {
    l in d.leases && d.leases[l].unitId == unitId && d.leases[l].status in {Active, Draft}
  }

  predicate HasActiveLease(d: Db, unitId: Id) {
    exists l :: l in d.leases && OnUnit(d, l, unitId) && d.leases[l].status == Active
  }

  predicate HasOtherTenantDraft(d: Db, unitId: Id, tenantId: Id) {
    exists l :: l in d.leases && OnUnit(d, l, unitId) && d.leases[l].status == Draft && d.leases[l].tenantId != tenantId
  }

  /** An Active full-unit lease held by anyone but a company. */
  predicate HasIndividualFullLease(d: Db, unitId: Id) {
    exists l :: l in d.leases && OnUnit(d, l, unitId) && d.leases[l].status == Active
      && d.leases[l].leaseType == FullUnitLease && !IsTenantType(d, d.leases[l].tenantId, Company)
  }

  predicate HasOtherTenantFullDraft(d: Db, unitId: Id, tenantId: Id) {
    exists l :: l in d.leases && OnUnit(d, l, unitId) && d.leases[l].status == Draft
      && d.leases[l].leaseType == FullUnitLease && d.leases[l].tenantId != tenantId
  }

  predicate HasCompanyLease(d: Db, unitId: Id) {
    exists l :: l in d.leases && OnUnit(d, l, unitId) && d.leases[l].status == Active && IsTenantType(d, d.leases[l].tenantId, Company)
  }

  predicate HasResidentLeaseOn(d: Db, unitId: Id, bedroomId: Id) {
    exists l :: l in d.leases && OnUnit(d, l, unitId) && d.leases[l].status == Active
      && d.leases[l].bedroomId == Some(bedroomId) && IsTenantType(d, d.leases[l].tenantId, Resident)
  }

  /** A company lease reserves its bedrooms: one of them may still go to a resident. */
  predicate ReservedByCompany(d: Db, unitId: Id, bedroomId: Id) {
    HasCompanyLease(d, unitId) && !HasResidentLeaseOn(d, unitId, bedroomId)
  }

  // ---------------------------------------------------------------------------------
  // createLease
  // ---------------------------------------------------------------------------------

  /** The request body. Dates are taken as given; amounts are what `parseFloat` makes of them. */
  datatype CreateRequest = CreateRequest(
    unitId: Option<Id>, tenantId: Option<Id>, bedroomId: Option<Id>,
    startDate: Day, endDate: Day, monthlyRent: Parsed, securityDeposit: Parsed,
    coTenantIds: seq<Id>)

  /** `bedroomId ? parseInt(bedroomId) : null` */
  function RequestedBedroom(req: CreateRequest): Option<Id> {
    if Given(req.bedroomId) then req.bedroomId else None
  }

  /** The first validation createLease fails, in the order the handler runs them; None
      when the request is admitted. */
  function CreateLeaseCheck(d: Db, req: CreateRequest): (e: Option<LeaseError>)
    ensures !Given(req.unitId) || !Given(req.tenantId) ==> e == Some(MissingIds)
    ensures (Given(req.unitId) && Given(req.tenantId) && req.tenantId.value in d.users
             && d.users[req.tenantId.value].kind == Resident) ==> e == Some(ResidentCannotLease)
    ensures e.None? ==> (Given(req.unitId) && Given(req.tenantId)
                         && req.tenantId.value in d.users && d.users[req.tenantId.value].kind != Resident
                         && req.unitId.value in d.units && req.tenantId.value !in req.coTenantIds)
    ensures e.None? && RequestedBedroom(req).None? ==>
      !AnyBedroomOccupied(d.bedrooms, req.unitId.value) && !HasActiveLease(d, req.unitId.value)
      && !HasOtherTenantDraft(d, req.unitId.value, req.tenantId.value)
    ensures e.None? && RequestedBedroom(req).Some? ==>
      var (u, b) := (req.unitId.value, RequestedBedroom(req).value);
      b in d.bedrooms && d.bedrooms[b].unitId == u
      && !HasIndividualFullLease(d, u) && !HasOtherTenantFullDraft(d, u, req.tenantId.value)
      && (d.bedrooms[b].status == RoomVacant || ReservedByCompany(d, u, b))
  {
    if !Given(req.unitId) || !Given(req.tenantId) then Some(MissingIds)
    else
      var u, t := req.unitId.value, req.tenantId.value;
      if t !in d.users then Some(TenantNotFound)
      else if d.users[t].kind == Resident then Some(ResidentCannotLease)
      else if u !in d.units then Some(UnitNotFound)
      else
        var unitCheck :=
          match RequestedBedroom(req)
          case None =>
            if AnyBedroomOccupied(d.bedrooms, u) then Some(BedroomsOccupied)
            else if HasActiveLease(d, u) then Some(UnitHasActiveLease)
            else if HasOtherTenantDraft(d, u, t) then Some(OtherTenantDraft)
            else None
          case Some(b) =>
            if HasIndividualFullLease(d, u) then Some(ActiveIndividualFullLease)
            else if HasOtherTenantFullDraft(d, u, t) then Some(ReservedForOtherTenant)
            else if b !in d.bedrooms || d.bedrooms[b].unitId != u then Some(BedroomNotInUnit)
            else if d.bedrooms[b].status != RoomVacant && !ReservedByCompany(d, u, b) then Some(BedroomUnavailable)
            else None;
        // The co-tenant check runs after the writes; the transaction's rollback makes
        // checking it here equivalent.
        if unitCheck.Some? then unitCheck
        else if t in req.coTenantIds then Some(PrimaryIsCoTenant)
        else None
  }

  /** The lease row createLease writes: the tenant's DRAFT on this unit when there is one
      (the lowest id), otherwise a new row. */
  function LeaseSlot(d: Db, unitId: Id, tenantId: Id): (id: Id)
    ensures id in d.leases ==> (d.leases[id].status == Draft && d.leases[id].unitId == unitId
                                && d.leases[id].tenantId == tenantId)
  {
    var drafts := set l | l in d.leases && d.leases[l].unitId == unitId
      && d.leases[l].tenantId == tenantId && d.leases[l].status == Draft;
    if drafts == {} then FreshKey(d.leases.Keys) else MinKey(drafts)
  }

  function CreatedLease(req: CreateRequest): Lease
    requires Given(req.unitId) && Given(req.tenantId)
  {
    var b := RequestedBedroom(req);
    Lease(req.tenantId.value, req.unitId.value, b, Active,
          if b.Some? then BedroomLease else FullUnitLease,
          Some(req.startDate), Some(req.endDate), OrZero(req.monthlyRent), OrZero(req.securityDeposit))
  }

  /** Full-unit occupation: every bedroom of the unit Occupied, the unit Occupied for a
      company and Fully Booked otherwise, and the tenant bound to no bedroom. */
  function OccupyWholeUnit(d: Db, unitId: Id, tenantId: Id, company: bool): Db
    requires unitId in d.units && tenantId in d.users
  {
    d.(units := d.units[unitId := d.units[unitId].(status := if company then Occupied else FullyBooked, rentalMode := FullUnit)],
       bedrooms := SetUnitBedrooms(d.bedrooms, unitId, RoomOccupied),
       users := d.users[tenantId := d.users[tenantId].(bedroomId := None)])
  }

  lemma WholeUnitOccupied(d: Db, unitId: Id, tenantId: Id, company: bool)
    requires unitId in d.units && tenantId in d.users
    ensures var r := OccupyWholeUnit(d, unitId, tenantId, company);
      UnitIs(r, unitId, if company then Occupied else FullyBooked) && UnitModeIs(r, unitId, FullUnit)
      && AllBedroomsOccupied(r.bedrooms, unitId)
  {
  }

  /** The Active bedroom leases on a unit (`leases: { where: { status: 'Active', leaseType: 'BEDROOM' } }`). */
  function ActiveBedroomLeases(d: Db, unitId: Id): set<Id> {
    set l | l in d.leases && d.leases[l].unitId == unitId && d.leases[l].status == Active
      && d.leases[l].leaseType == BedroomLease
  }

  /** A unit let by the bedroom is Fully Booked once every bedroom is occupied; under a
      company lease, only once each bedroom also has a lease of its own. */
  function BedroomUnitStatus(d: Db, unitId: Id, companyHeld: bool): (s: UnitStatus)
    ensures s in {Occupied, FullyBooked}
    ensures s == FullyBooked ==> AllBedroomsOccupied(d.bedrooms, unitId)
    ensures AllBedroomsOccupied(d.bedrooms, unitId) && !companyHeld ==> s == FullyBooked
  {
    if AllBedroomsOccupied(d.bedrooms, unitId) then
      if companyHeld then
        (if |ActiveBedroomLeases(d, unitId)| == |BedroomsOf(d, unitId)| then FullyBooked else Occupied)
      else FullyBooked
    else Occupied
  }

  /** Bedroom occupation by createLease. */
  function OccupyBedroom(d: Db, unitId: Id, bedroomId: Id, tenantId: Id, companyHeld: bool): Db
    requires unitId in d.units && bedroomId in d.bedrooms && tenantId in d.users
  {
    var d1 := d.(bedrooms := d.bedrooms[bedroomId := d.bedrooms[bedroomId].(status := RoomOccupied)],
                 units := d.units[unitId := d.units[unitId].(rentalMode := BedroomWise)]);
    d1.(units := SetUnitStatus(d1.units, unitId, BedroomUnitStatus(d1, unitId, companyHeld)),
        users := d1.users[tenantId := d1.users[tenantId].(bedroomId := Some(bedroomId))])
  }

  lemma BedroomOccupied(d: Db, unitId: Id, bedroomId: Id, tenantId: Id, companyHeld: bool)
    requires unitId in d.units && bedroomId in d.bedrooms && tenantId in d.users
    ensures var r := OccupyBedroom(d, unitId, bedroomId, tenantId, companyHeld);
      BedroomIs(r, bedroomId, RoomOccupied) && UnitModeIs(r, unitId, BedroomWise)
      && (UnitIs(r, unitId, Occupied) || UnitIs(r, unitId, FullyBooked))
      && (UnitIs(r, unitId, FullyBooked) ==> AllBedroomsOccupied(r.bedrooms, unitId))
      && (AllBedroomsOccupied(r.bedrooms, unitId) && !companyHeld ==> UnitIs(r, unitId, FullyBooked))
      && tenantId in r.users && r.users[tenantId].bedroomId == Some(bedroomId)
  {
  }

  /** `user.updateMany` over the co-tenants: each is attached to the lease, the unit, its
      building and (for a bedroom lease) the bedroom. Ids that name no user are ignored. */
  function LinkCoTenants(users: map<Id, User>, coTenants: seq<Id>, leaseId: Id, unitId: Id,
                         buildingId: Id, bedroomId: Option<Id>): (r: map<Id, User>)
    ensures r.Keys == users.Keys
    ensures forall k :: k in users && k !in coTenants ==> r[k] == users[k]
    ensures forall k :: k in users && k in coTenants ==>
      r[k].leaseId == Some(leaseId) && r[k].unitId == Some(unitId) && r[k].buildingId == Some(buildingId)
      && r[k].bedroomId == (if Given(bedroomId) then bedroomId else users[k].bedroomId)
  {
    map k | k in users ::
      if k in coTenants then
        users[k].(leaseId := Some(leaseId), unitId := Some(unitId), buildingId := Some(buildingId),
                  bedroomId := if Given(bedroomId) then bedroomId else users[k].bedroomId)
      else users[k]
  }

  /** POST /api/admin/leases: the result and the tables once the transaction has committed
      (or, on a rejection, rolled back). */
  function CreateLeaseSpec(d: Db, req: CreateRequest, today: Day): (r: (Result<Id, LeaseError>, Db))
    ensures r.0.Ok? <==> CreateLeaseCheck(d, req).None?
    ensures r.0.Err? ==> r.1 == d
  {
    match CreateLeaseCheck(d, req)
    case Some(e) => (Err(e), d)
    case None => (Ok(LeaseSlot(d, req.unitId.value, req.tenantId.value)), CreateLeaseWrites(d, req, today))
  }

  /** The writes of an admitted createLease, in the handler's order: the lease row, the
      statuses, the rent catch-up, the deposit and the co-tenant links. */
  function CreateLeaseWrites(d: Db, req: CreateRequest, today: Day): Db
    requires CreateLeaseCheck(d, req).None?
  {
    var o := CreateOccupation(d, req);
    var plan := CreatePlan(d, req);
    var invoices := CatchUp(o.invoices, plan, MonthOf(req.startDate), MonthOf(today));
    o.(invoices := AddDeposit(invoices, plan, MonthOf(req.startDate), OrZero(req.securityDeposit), req.startDate),
       users := if |req.coTenantIds| > 0
                then LinkCoTenants(o.users, req.coTenantIds, plan.leaseId, plan.unitId,
                                   d.units[plan.unitId].propertyId, RequestedBedroom(req))
                else o.users)
  }

  /** The billing plan of a new lease: the tenant (never a resident here), the unit, the
      lease row, the mode its type implies, the start day and the parsed rent. */
  function CreatePlan(d: Db, req: CreateRequest): RentPlan
    requires CreateLeaseCheck(d, req).None?
  {
    var u, t := req.unitId.value, req.tenantId.value;
    RentPlan(t, u, LeaseSlot(d, u, t), if RequestedBedroom(req).None? then FullUnit else BedroomWise,
             req.startDate, OrZero(req.monthlyRent))
  }

  /** The lease row and the occupancy statuses createLease writes. */
  function CreateOccupation(d: Db, req: CreateRequest): Db
    requires CreateLeaseCheck(d, req).None?
  {
    var u, t, b := req.unitId.value, req.tenantId.value, RequestedBedroom(req);
    var d1 := d.(leases := d.leases[LeaseSlot(d, u, t) := CreatedLease(req)]);
    if b.None? then OccupyWholeUnit(d1, u, t, d.users[t].kind == Company)
    else OccupyBedroom(d1, u, b.value, t, HasCompanyLease(d, u))
  }

  method CreateLease(db: Database, req: CreateRequest, today: Day) returns (r: Result<Id, LeaseError>)
    modifies db`leases, db`units, db`bedrooms, db`users, db`invoices
    ensures (r, db.State()) == CreateLeaseSpec(old(db.State()), req, today)
  {
    var d := db.State();
    var err := CreateLeaseCheck(d, req);
    if err.Some? {
      return Err(err.value);
    }
    WriteOccupation(db, req);
    var plan := CreatePlan(d, req);
    CatchUpInvoices(db, plan, today);
    AddDepositInvoice(db, plan, MonthOf(req.startDate), OrZero(req.securityDeposit), req.startDate);
    if |req.coTenantIds| > 0 {
      db.users := LinkCoTenants(db.users, req.coTenantIds, plan.leaseId, plan.unitId,
                                d.units[plan.unitId].propertyId, RequestedBedroom(req));
    }
    r := Ok(plan.leaseId);
  }

  method WriteOccupation(db: Database, req: CreateRequest)
    requires CreateLeaseCheck(db.State(), req).None?
    modifies db`leases, db`units, db`bedrooms, db`users
    ensures db.State() == CreateOccupation(old(db.State()), req)
  {
    var d := db.State();
    var u, t, b := req.unitId.value, req.tenantId.value, RequestedBedroom(req);
    db.leases := db.leases[LeaseSlot(d, u, t) := CreatedLease(req)];
    if b.None? {
      OccupyUnit(db, u, t, d.users[t].kind == Company);
    } else {
      OccupyOneBedroom(db, u, b.value, t, HasCompanyLease(d, u));
    }
  }

  method OccupyUnit(db: Database, unitId: Id, tenantId: Id, company: bool)
    requires unitId in db.units && tenantId in db.users
    modifies db`units, db`bedrooms, db`users
    ensures db.State() == OccupyWholeUnit(old(db.State()), unitId, tenantId, company)
  {
    var status := if company then Occupied else FullyBooked;
    db.units := db.units[unitId := db.units[unitId].(status := status, rentalMode := FullUnit)];
    db.bedrooms := SetUnitBedrooms(db.bedrooms, unitId, RoomOccupied);
    db.users := db.users[tenantId := db.users[tenantId].(bedroomId := None)];
  }

  method OccupyOneBedroom(db: Database, unitId: Id, bedroomId: Id, tenantId: Id, companyHeld: bool)
    requires unitId in db.units && bedroomId in db.bedrooms && tenantId in db.users
    requires db.bedrooms[bedroomId].unitId == unitId
    modifies db`units, db`bedrooms, db`users
    ensures db.State() == OccupyBedroom(old(db.State()), unitId, bedroomId, tenantId, companyHeld)
  {
    db.bedrooms := db.bedrooms[bedroomId := db.bedrooms[bedroomId].(status := RoomOccupied)];
    db.units := db.units[unitId := db.units[unitId].(rentalMode := BedroomWise)];
    var status := BedroomUnitStatus(db.State(), unitId, companyHeld);
    db.units := db.units[unitId := db.units[unitId].(status := status)];
    db.users := db.users[tenantId := db.users[tenantId].(bedroomId := Some(bedroomId))];
  }

  /** After a full-unit create the unit is let whole: Occupied for a company tenant, Fully
      Booked otherwise, with every bedroom Occupied; the lease row is Active. */
  lemma CreateWholeUnitOccupancy(d: Db, req: CreateRequest, today: Day)
    requires CreateLeaseCheck(d, req).None? && RequestedBedroom(req).None?
    ensures var r, u := CreateLeaseWrites(d, req, today), req.unitId.value;
      UnitIs(r, u, if d.users[req.tenantId.value].kind == Company then Occupied else FullyBooked)
      && UnitModeIs(r, u, FullUnit) && AllBedroomsOccupied(r.bedrooms, u)
      && LeaseIs(r, LeaseSlot(d, u, req.tenantId.value), Active)
  {
    var u, t := req.unitId.value, req.tenantId.value;
    var d1 := d.(leases := d.leases[LeaseSlot(d, u, t) := CreatedLease(req)]);
    WholeUnitOccupied(d1, u, t, d.users[t].kind == Company);
  }

  /** After a bedroom create the bedroom is Occupied and the unit is let by the bedroom: Fully
      Booked only when every bedroom is occupied (and, without a company lease, whenever they
      all are), Occupied otherwise. The tenant is bound to the bedroom. */
  lemma CreateBedroomOccupancy(d: Db, req: CreateRequest, today: Day)
    requires CreateLeaseCheck(d, req).None? && RequestedBedroom(req).Some?
    ensures var r, u, b := CreateLeaseWrites(d, req, today), req.unitId.value, RequestedBedroom(req).value;
      BedroomIs(r, b, RoomOccupied) && UnitModeIs(r, u, BedroomWise)
      && (UnitIs(r, u, Occupied) || UnitIs(r, u, FullyBooked))
      && (UnitIs(r, u, FullyBooked) ==> AllBedroomsOccupied(r.bedrooms, u))
      && (AllBedroomsOccupied(r.bedrooms, u) && !HasCompanyLease(d, u) ==> UnitIs(r, u, FullyBooked))
    ensures var r, t := CreateLeaseWrites(d, req, today), req.tenantId.value;
      t in r.users && r.users[t].bedroomId == RequestedBedroom(req)
  {
    var u, t, b := req.unitId.value, req.tenantId.value, RequestedBedroom(req).value;
    var d1 := d.(leases := d.leases[LeaseSlot(d, u, t) := CreatedLease(req)]);
    BedroomOccupied(d1, u, b, t, HasCompanyLease(d, u));
  }

  // ---------------------------------------------------------------------------------
  // activateLease
  // ---------------------------------------------------------------------------------

  /** The validations of activateLease. The lease type follows the tenant's bedroom: none
      means a full-unit lease. */
  function ActivateCheck(d: Db, id: Id): (e: Option<LeaseError>)
    ensures e.None? ==> (id in d.leases && d.leases[id].tenantId in d.users && d.leases[id].unitId in d.units
      && (d.users[d.leases[id].tenantId].bedroomId.Some? ==> d.users[d.leases[id].tenantId].bedroomId.value in d.bedrooms))
    ensures id !in d.leases ==> e == Some(LeaseNotFound)
    ensures e == Some(MissingRecord) <==> id in d.leases && (d.leases[id].tenantId !in d.users || d.leases[id].unitId !in d.units)
  {
    if id !in d.leases then Some(LeaseNotFound)
    else
      var l := d.leases[id];
      if l.tenantId !in d.users || l.unitId !in d.units then Some(MissingRecord)
      else
        var b, unit := d.users[l.tenantId].bedroomId, d.units[l.unitId];
        if b.None? && AnyBedroomOccupied(d.bedrooms, l.unitId) then Some(BedroomsOccupied)
        else if b.Some? && unit.status == FullyBooked && unit.rentalMode == FullUnit then Some(UnitLeasedWhole)
        else if b.Some? && b.value !in d.bedrooms then Some(RowNotFound)
        else None
  }

  /** POST /api/admin/leases/:id/activate */
  function ActivateLeaseSpec(d: Db, id: Id, today: Day): (r: (Result<Id, LeaseError>, Db))
    ensures r.0.Ok? <==> ActivateCheck(d, id).None?
    ensures r.0.Err? ==> r.1 == d
  {
    match ActivateCheck(d, id)
    case Some(e) => (Err(e), d)
    case None => (Ok(id), ActivateWrites(d, id, today))
  }

  /** `user.updateMany({ where: { parentId: tenantId, type: 'RESIDENT' }, data: { leaseId } })` */
  function AttachResidents(users: map<Id, User>, tenantId: Id, leaseId: Id): (r: map<Id, User>)
    ensures r.Keys == users.Keys
    ensures forall k :: k in users ==>
      r[k] == if users[k].parentId == Some(tenantId) && users[k].kind == Resident
              then users[k].(leaseId := Some(leaseId)) else users[k]
  {
    map k | k in users ::
      if users[k].parentId == Some(tenantId) && users[k].kind == Resident then users[k].(leaseId := Some(leaseId)) else users[k]
  }

  /** Bedroom occupation by activateLease: the unit is Fully Booked exactly when every
      bedroom is occupied. */
  function ActivateBedroom(d: Db, unitId: Id, bedroomId: Id): Db
    requires unitId in d.units && bedroomId in d.bedrooms
  {
    var d1 := d.(bedrooms := d.bedrooms[bedroomId := d.bedrooms[bedroomId].(status := RoomOccupied)],
                 units := d.units[unitId := d.units[unitId].(rentalMode := BedroomWise)]);
    d1.(units := SetUnitStatus(d1.units, unitId, if AllBedroomsOccupied(d1.bedrooms, unitId) then FullyBooked else Occupied))
  }

  /** The lease row, resident links and statuses activateLease writes. */
  function ActivateOccupation(d: Db, id: Id, today: Day): Db
    requires ActivateCheck(d, id).None?
  {
    var l := d.leases[id];
    var t, u := l.tenantId, l.unitId;
    var b := d.users[t].bedroomId;
    var d1 := d.(leases := d.leases[id := ActivatedLease(l, b, today)],
                 users := AttachResidents(d.users, t, id));
    if b.None? then BookWholeUnit(d1, u) else ActivateBedroom(d1, u, b.value)
  }

  function ActivatedLease(l: Lease, bedroomId: Option<Id>, today: Day): Lease {
    l.(status := Active, startDate := Some(today),
       leaseType := if bedroomId.Some? then BedroomLease else FullUnitLease, bedroomId := bedroomId)
  }

  /** Full-unit activation: the unit Fully Booked as a full unit, every bedroom Occupied. */
  function BookWholeUnit(d: Db, unitId: Id): Db
    requires unitId in d.units
  {
    d.(units := d.units[unitId := d.units[unitId].(status := FullyBooked, rentalMode := FullUnit)],
       bedrooms := SetUnitBedrooms(d.bedrooms, unitId, RoomOccupied))
  }

  lemma WholeUnitBooked(d: Db, unitId: Id)
    requires unitId in d.units
    ensures var r := BookWholeUnit(d, unitId);
      UnitIs(r, unitId, FullyBooked) && UnitModeIs(r, unitId, FullUnit) && AllBedroomsOccupied(r.bedrooms, unitId)
  {
  }

  lemma BedroomActivated(d: Db, unitId: Id, bedroomId: Id)
    requires unitId in d.units && bedroomId in d.bedrooms
    ensures var r := ActivateBedroom(d, unitId, bedroomId);
      BedroomIs(r, bedroomId, RoomOccupied) && UnitModeIs(r, unitId, BedroomWise)
      && (UnitIs(r, unitId, FullyBooked) <==> AllBedroomsOccupied(r.bedrooms, unitId))
      && (UnitIs(r, unitId, Occupied) <==> !AllBedroomsOccupied(r.bedrooms, unitId))
  {
  }

  /** Billing on activation runs from the lease's own start day (today when it has none),
      at its stored rent, in the rental mode the unit had before activation. */
  function ActivatePlan(d: Db, id: Id, today: Day): RentPlan
    requires ActivateCheck(d, id).None?
  {
    var l := d.leases[id];
    RentPlan(l.tenantId, l.unitId, id, d.units[l.unitId].rentalMode, l.startDate.GetOr(today), l.monthlyRent)
  }

  function ActivateWrites(d: Db, id: Id, today: Day): Db
    requires ActivateCheck(d, id).None?
  {
    var o := ActivateOccupation(d, id, today);
    var plan := ActivatePlan(d, id, today);
    var invoices := CatchUp(o.invoices, plan, MonthOf(plan.start), MonthOf(today));
    o.(invoices := AddDeposit(invoices, plan, MonthOf(plan.start), d.leases[id].securityDeposit, today))
  }

  method ActivateLease(db: Database, id: Id, today: Day) returns (r: Result<Id, LeaseError>)
    modifies db`leases, db`users, db`units, db`bedrooms, db`invoices
    ensures (r, db.State()) == ActivateLeaseSpec(old(db.State()), id, today)
  {
    var d := db.State();
    var err := ActivateCheck(d, id);
    if err.Some? {
      return Err(err.value);
    }
    WriteActivation(db, id, today);
    BillActivation(db, ActivatePlan(d, id, today), d.leases[id].securityDeposit, today);
    r := Ok(id);
  }

  /** The invoices written by activateLease: catch-up rent up to this month, then the deposit. */
  method BillActivation(db: Database, plan: RentPlan, deposit: int, today: Day)
    modifies db`invoices
    ensures db.invoices
      == AddDeposit(CatchUp(old(db.invoices), plan, MonthOf(plan.start), MonthOf(today)), plan, MonthOf(plan.start), deposit, today)
  {
    CatchUpInvoices(db, plan, today);
    AddDepositInvoice(db, plan, MonthOf(plan.start), deposit, today);
  }

  method WriteActivation(db: Database, id: Id, today: Day)
    requires ActivateCheck(db.State(), id).None?
    modifies db`leases, db`users, db`units, db`bedrooms
    ensures db.State() == ActivateOccupation(old(db.State()), id, today)
  {
    var l := db.leases[id];
    var b := db.users[l.tenantId].bedroomId;
    db.leases := db.leases[id := ActivatedLease(l, b, today)];
    db.users := AttachResidents(db.users, l.tenantId, id);
    if b.None? {
      BookUnit(db, l.unitId);
    } else {
      OccupyActivatedBedroom(db, l.unitId, b.value);
    }
  }

  method BookUnit(db: Database, unitId: Id)
    requires unitId in db.units
    modifies db`units, db`bedrooms
    ensures db.State() == BookWholeUnit(old(db.State()), unitId)
  {
    db.units := db.units[unitId := db.units[unitId].(status := FullyBooked, rentalMode := FullUnit)];
    db.bedrooms := SetUnitBedrooms(db.bedrooms, unitId, RoomOccupied);
  }

  method OccupyActivatedBedroom(db: Database, unitId: Id, bedroomId: Id)
    requires unitId in db.units && bedroomId in db.bedrooms
    modifies db`units, db`bedrooms
    ensures db.State() == ActivateBedroom(old(db.State()), unitId, bedroomId)
  {
    db.bedrooms := db.bedrooms[bedroomId := db.bedrooms[bedroomId].(status := RoomOccupied)];
    db.units := db.units[unitId := db.units[unitId].(rentalMode := BedroomWise)];
    var status := if AllBedroomsOccupied(db.bedrooms, unitId) then FullyBooked else Occupied;
    db.units := db.units[unitId := db.units[unitId].(status := status)];
  }

  /** An activated lease is Active from today. A full-unit activation books the unit and all
      its bedrooms; a bedroom activation occupies the bedroom and marks the unit Fully Booked
      exactly when every bedroom is occupied. */
  lemma ActivateOccupancy(d: Db, id: Id, today: Day)
    requires ActivateCheck(d, id).None?
    ensures var r := ActivateWrites(d, id, today);
      LeaseIs(r, id, Active) && r.leases[id].startDate == Some(today)
    ensures var r, l := ActivateWrites(d, id, today), d.leases[id];
      d.users[l.tenantId].bedroomId.None? ==>
        UnitIs(r, l.unitId, FullyBooked) && AllBedroomsOccupied(r.bedrooms, l.unitId)
    ensures var r, l := ActivateWrites(d, id, today), d.leases[id];
      d.users[l.tenantId].bedroomId.Some? ==>
        BedroomIs(r, d.users[l.tenantId].bedroomId.value, RoomOccupied)
        && (UnitIs(r, l.unitId, FullyBooked) <==> AllBedroomsOccupied(r.bedrooms, l.unitId))
  {
    var l := d.leases[id];
    var b := d.users[l.tenantId].bedroomId;
    var d1 := d.(leases := d.leases[id := ActivatedLease(l, b, today)],
                 users := AttachResidents(d.users, l.tenantId, id));
    if b.None? {
      WholeUnitBooked(d1, l.unitId);
    } else {
      BedroomActivated(d1, l.unitId, b.value);
    }
  }

  /** After activation every resident of the tenant points at the lease. */
  lemma ActivateLinksResidents(d: Db, id: Id, today: Day)
    requires ActivateCheck(d, id).None?
    ensures var r, t := ActivateWrites(d, id, today), d.leases[id].tenantId;
      forall k :: k in r.users && r.users[k].parentId == Some(t) && r.users[k].kind == Resident ==>
        r.users[k].leaseId == Some(id)
  {
    var t := d.leases[id].tenantId;
    assert ActivateWrites(d, id, today).users == ActivateOccupation(d, id, today).users;
    assert ActivateOccupation(d, id, today).users == AttachResidents(d.users, t, id);
  }

  // ---------------------------------------------------------------------------------
  // deleteLease
  // ---------------------------------------------------------------------------------

  datatype Deletion = StatusesReset | DeletedPermanently

  /** The rows deleteLease dereferences: the lease, its tenant, and for an Active lease its
      unit and the tenant's bedroom. */
  function DeleteCheck(d: Db, id: Id): (e: Option<LeaseError>)
    ensures e.None? ==> id in d.leases && d.leases[id].tenantId in d.users
    ensures e.None? && d.leases[id].status == Active ==> d.leases[id].unitId in d.units
    ensures e.None? && d.leases[id].status == Active && d.users[d.leases[id].tenantId].bedroomId.Some? ==>
      d.users[d.leases[id].tenantId].bedroomId.value in d.bedrooms
    ensures id !in d.leases ==> e == Some(LeaseNotFound)
  {
    if id !in d.leases then Some(LeaseNotFound)
    else
      var l := d.leases[id];
      if l.tenantId !in d.users then Some(MissingRecord)
      else
        var b := d.users[l.tenantId].bedroomId;
        if l.status == Active && (l.unitId !in d.units || (b.Some? && b.value !in d.bedrooms)) then Some(MissingRecord)
        else None
  }

  /** Releasing one bedroom: the unit turns Vacant once every bedroom is vacant, and is
      Occupied while any is occupied. */
  function ReleaseBedroom(d: Db, unitId: Id, bedroomId: Id): Db
    requires unitId in d.units && bedroomId in d.bedrooms
  {
    var rooms := d.bedrooms[bedroomId := d.bedrooms[bedroomId].(status := RoomVacant)];
    var units :=
      if AllBedroomsVacant(rooms, unitId) then SetUnitStatus(d.units, unitId, Vacant)
      else if AnyBedroomOccupied(rooms, unitId) then SetUnitStatus(d.units, unitId, Occupied)
      else d.units;
    d.(bedrooms := rooms, units := units)
  }

  /** The writes of deleting an Active lease: the occupancy it held is released, the tenant
      and the lease's residents are unlinked, and the row is deleted. */
  function DeleteActive(d: Db, id: Id): Db
    requires DeleteCheck(d, id).None? && d.leases[id].status == Active
  {
    var l := d.leases[id];
    var d1 := ReleaseHeld(d, l.unitId, d.users[l.tenantId].bedroomId);
    d1.(users := DetachResidents(ClearTenantRefs(d1.users, l.tenantId), id), leases := d1.leases - {id})
  }

  /** What an Active lease held: the whole unit, or the tenant's bedroom. */
  function ReleaseHeld(d: Db, unitId: Id, bedroomId: Option<Id>): Db
    requires unitId in d.units && (bedroomId.Some? ==> bedroomId.value in d.bedrooms)
  {
    if bedroomId.None? then VacateWholeUnit(d, unitId) else ReleaseBedroom(d, unitId, bedroomId.value)
  }

  /** A released bedroom is Vacant, and its unit is Vacant exactly when no bedroom is
      occupied any more, Occupied otherwise. */
  lemma BedroomReleased(d: Db, unitId: Id, bedroomId: Id)
    requires unitId in d.units && bedroomId in d.bedrooms
    ensures var r := ReleaseBedroom(d, unitId, bedroomId);
      BedroomIs(r, bedroomId, RoomVacant)
      && (UnitIs(r, unitId, Vacant) <==> AllBedroomsVacant(r.bedrooms, unitId))
      && (!AllBedroomsVacant(r.bedrooms, unitId) ==> UnitIs(r, unitId, Occupied))
  {
    SomeBedroomOccupied(d.bedrooms[bedroomId := d.bedrooms[bedroomId].(status := RoomVacant)], unitId);
  }

  /** The tenant loses its unit, bedroom and building; no resident still points at the lease. */
  lemma TenantUnlinked(users: map<Id, User>, tenantId: Id, leaseId: Id)
    requires tenantId in users
    ensures var r := DetachResidents(ClearTenantRefs(users, tenantId), leaseId);
      tenantId in r && r[tenantId].unitId.None? && r[tenantId].bedroomId.None? && r[tenantId].buildingId.None?
    ensures var r := DetachResidents(ClearTenantRefs(users, tenantId), leaseId);
      forall k :: k in r && r[k].kind == Resident ==> r[k].leaseId != Some(leaseId)
  {
  }

  /** DELETE /api/admin/leases/:id */
  function DeleteLeaseSpec(d: Db, id: Id): (r: (Result<Deletion, LeaseError>, Db))
    ensures r.0.Err? ==> r.1 == d
    ensures r.0.Ok? ==> id in d.leases && id !in r.1.leases
    ensures r.0 == Ok(StatusesReset) <==> (DeleteCheck(d, id).None? && d.leases[id].status == Active)
  {
    match DeleteCheck(d, id)
    case Some(e) => (Err(e), d)
    case None =>
      var l := d.leases[id];
      if l.status == Active then (Ok(StatusesReset), DeleteActive(d, id))
      else (Ok(DeletedPermanently), d.(users := ClearTenantRefs(d.users, l.tenantId), leases := d.leases - {id}))
  }

  method DeleteLease(db: Database, id: Id) returns (r: Result<Deletion, LeaseError>)
    modifies db`units, db`bedrooms, db`users, db`leases
    ensures (r, db.State()) == DeleteLeaseSpec(old(db.State()), id)
  {
    var err := DeleteCheck(db.State(), id);
    if err.Some? {
      return Err(err.value);
    }
    var l := db.leases[id];
    if l.status == Active {
      ReleaseOccupancy(db, l.unitId, db.users[l.tenantId].bedroomId);
      db.users := DetachResidents(ClearTenantRefs(db.users, l.tenantId), id);
      db.leases := db.leases - {id};
      r := Ok(StatusesReset);
    } else {
      db.users := ClearTenantRefs(db.users, l.tenantId);
      db.leases := db.leases - {id};
      r := Ok(DeletedPermanently);
    }
  }

  method ReleaseOccupancy(db: Database, unitId: Id, bedroomId: Option<Id>)
    requires unitId in db.units && (bedroomId.Some? ==> bedroomId.value in db.bedrooms)
    modifies db`units, db`bedrooms
    ensures db.State() == ReleaseHeld(old(db.State()), unitId, bedroomId)
  {
    if bedroomId.None? {
      db.bedrooms := SetUnitBedrooms(db.bedrooms, unitId, RoomVacant);
      db.units := SetUnitStatus(db.units, unitId, Vacant);
    } else {
      var bid := bedroomId.value;
      db.bedrooms := db.bedrooms[bid := db.bedrooms[bid].(status := RoomVacant)];
      if AllBedroomsVacant(db.bedrooms, unitId) {
        db.units := SetUnitStatus(db.units, unitId, Vacant);
      } else if AnyBedroomOccupied(db.bedrooms, unitId) {
        db.units := SetUnitStatus(db.units, unitId, Occupied);
      }
    }
  }

  /** Deleting an Active lease releases what it held: for a full-unit lease the unit and all
      its bedrooms become Vacant; for a bedroom lease the bedroom becomes Vacant and the unit
      is Vacant when no bedroom is occupied, Occupied otherwise. */
  lemma DeleteActiveReleases(d: Db, id: Id)
    requires DeleteCheck(d, id).None? && d.leases[id].status == Active
    ensures var r, l := DeleteActive(d, id), d.leases[id];
      d.users[l.tenantId].bedroomId.None? ==> UnitIs(r, l.unitId, Vacant) && AllBedroomsVacant(r.bedrooms, l.unitId)
    ensures var r, l := DeleteActive(d, id), d.leases[id];
      d.users[l.tenantId].bedroomId.Some? ==>
        BedroomIs(r, d.users[l.tenantId].bedroomId.value, RoomVacant)
        && (UnitIs(r, l.unitId, Vacant) <==> AllBedroomsVacant(r.bedrooms, l.unitId))
        && (!AllBedroomsVacant(r.bedrooms, l.unitId) ==> UnitIs(r, l.unitId, Occupied))
  {
    var l := d.leases[id];
    var b := d.users[l.tenantId].bedroomId;
    if b.None? {
      WholeUnitVacated(d, l.unitId);
    } else {
      BedroomReleased(d, l.unitId, b.value);
    }
  }

  /** Deleting an Active lease unlinks its tenant and residents and removes the row. */
  lemma DeleteActiveUnlinks(d: Db, id: Id)
    requires DeleteCheck(d, id).None? && d.leases[id].status == Active
    ensures var r, t := DeleteActive(d, id), d.leases[id].tenantId;
      t in r.users && r.users[t].unitId.None? && r.users[t].bedroomId.None? && r.users[t].buildingId.None?
    ensures var r := DeleteActive(d, id);
      forall k :: k in r.users && r.users[k].kind == Resident ==> r.users[k].leaseId != Some(id)
    ensures id !in DeleteActive(d, id).leases
  {
    var l := d.leases[id];
    TenantUnlinked(ReleaseHeld(d, l.unitId, d.users[l.tenantId].bedroomId).users, l.tenantId, id);
  }

  /** Deleting a lease that is not Active changes no unit or bedroom status. */
  lemma DeleteInactiveKeepsStatuses(d: Db, id: Id)
    requires DeleteLeaseSpec(d, id).0 == Ok(DeletedPermanently)
    ensures DeleteLeaseSpec(d, id).1.units == d.units && DeleteLeaseSpec(d, id).1.bedrooms == d.bedrooms
  {
  }

  // ---------------------------------------------------------------------------------
  // updateLease
  // ---------------------------------------------------------------------------------

  /** The request body of updateLease; an absent field is left alone. */
  datatype LeaseEdit = LeaseEdit(
    monthlyRent: Option<Parsed>, startDate: Option<Day>, endDate: Option<Day>,
    firstName: Option<string>, lastName: Option<string>)

  /** The tenant's new names; the display name is the two joined by a space, trimmed. */
  function Renamed(u: User, first: Option<string>, last: Option<string>): (r: User)
    ensures r.firstName == first.GetOr(u.firstName) && r.lastName == last.GetOr(u.lastName)
    ensures r.name == Text.Trim(r.firstName + " " + r.lastName)
    ensures r.(firstName := u.firstName, lastName := u.lastName, name := u.name) == u
  {
    var f, l := first.GetOr(u.firstName), last.GetOr(u.lastName);
    u.(firstName := f, lastName := l, name := Text.Trim(f + " " + l))
  }

  /** Invoices of the lease that are not paid and still have a zero amount take the new
      rent as rent, amount and balance; every other invoice is left as it was. */
  function SyncUnpaidInvoices(invoices: map<Id, Invoice>, leaseId: Id, rent: int): (r: map<Id, Invoice>)
    ensures r.Keys == invoices.Keys
    ensures forall k :: k in invoices && StaleUnpaid(invoices[k], leaseId) ==>
      r[k] == invoices[k].(rent := rent, amount := rent, balanceDue := rent)
    ensures forall k :: k in invoices && !StaleUnpaid(invoices[k], leaseId) ==> r[k] == invoices[k]
  {
    map k | k in invoices ::
      if StaleUnpaid(invoices[k], leaseId)
      then invoices[k].(rent := rent, amount := rent, balanceDue := rent)
      else invoices[k]
  }

  /** An invoice of the lease that is not paid and was written with a zero amount. */
  predicate StaleUnpaid(inv: Invoice, leaseId: Id) {
    inv.leaseId == Some(leaseId) && inv.status != "paid" && inv.amount == 0
  }

  predicate Renames(e: LeaseEdit) { e.firstName.Some? || e.lastName.Some? }

  /** A new rent must parse to a non-negative number. */
  predicate InvalidRentEdit(e: LeaseEdit) {
    e.monthlyRent.Some? && (e.monthlyRent.value.NaN? || e.monthlyRent.value.cents < 0)
  }

  function UpdateCheck(d: Db, id: Id, e: LeaseEdit): (err: Option<LeaseError>)
    ensures err.None? ==> id in d.leases && (Renames(e) ==> d.leases[id].tenantId in d.users) && !InvalidRentEdit(e)
    ensures id in d.leases && InvalidRentEdit(e) ==> err.Some?
    ensures id in d.leases && Renames(e) && d.leases[id].tenantId !in d.users ==>
      err == Some(if e.firstName.Some? && e.lastName.Some? then RowNotFound else MissingRecord)
  {
    if id !in d.leases then Some(LeaseNotFound)
    else if Renames(e) && d.leases[id].tenantId !in d.users then
      // Both names given: the update finds no row. One missing: reading it from the absent tenant throws.
      Some(if e.firstName.Some? && e.lastName.Some? then RowNotFound else MissingRecord)
    else if InvalidRentEdit(e) then Some(InvalidRent)
    else None
  }

  function EditedLease(l: Lease, e: LeaseEdit): Lease
    requires !InvalidRentEdit(e)
  {
    l.(monthlyRent := if e.monthlyRent.Some? then e.monthlyRent.value.cents else l.monthlyRent,
       startDate := if e.startDate.Some? then e.startDate else l.startDate,
       endDate := if e.endDate.Some? then e.endDate else l.endDate)
  }

  /** PUT /api/admin/leases/:id */
  function UpdateLeaseSpec(d: Db, id: Id, e: LeaseEdit): (r: (Result<Id, LeaseError>, Db))
    ensures r.0.Ok? <==> UpdateCheck(d, id, e).None?
    ensures r.0.Err? ==> r.1 == d
  {
    match UpdateCheck(d, id, e)
    case Some(err) => (Err(err), d)
    case None =>
      var l := d.leases[id];
      var users := if Renames(e) then d.users[l.tenantId := Renamed(d.users[l.tenantId], e.firstName, e.lastName)] else d.users;
      var invoices := if e.monthlyRent.Some? then SyncUnpaidInvoices(d.invoices, id, e.monthlyRent.value.cents) else d.invoices;
      (Ok(id), d.(users := users, leases := d.leases[id := EditedLease(l, e)], invoices := invoices))
  }

  method UpdateLease(db: Database, id: Id, e: LeaseEdit) returns (r: Result<Id, LeaseError>)
    modifies db`users, db`leases, db`invoices
    ensures (r, db.State()) == UpdateLeaseSpec(old(db.State()), id, e)
  {
    var err := UpdateCheck(db.State(), id, e);
    if err.Some? {
      return Err(err.value);
    }
    var l := db.leases[id];
    if Renames(e) {
      db.users := db.users[l.tenantId := Renamed(db.users[l.tenantId], e.firstName, e.lastName)];
    }
    db.leases := db.leases[id := EditedLease(l, e)];
    if e.monthlyRent.Some? {
      db.invoices := SyncUnpaidInvoices(db.invoices, id, e.monthlyRent.value.cents);
    }
    r := Ok(id);
  }

  /** A rent edit stores the new rent on the lease and leaves every unit and bedroom as it was. */
  lemma UpdateRentStored(d: Db, id: Id, e: LeaseEdit)
    requires UpdateLeaseSpec(d, id, e).0.Ok? && e.monthlyRent.Some?
    ensures var r := UpdateLeaseSpec(d, id, e).1;
      e.monthlyRent.value.Num? && e.monthlyRent.value.cents >= 0
      && id in r.leases && r.leases[id].monthlyRent == e.monthlyRent.value.cents
      && r.units == d.units && r.bedrooms == d.bedrooms
  {
  }

  // ---------------------------------------------------------------------------------
  // Rent catch-up and the deposit invoice (shared by createLease and activateLease)
  // ---------------------------------------------------------------------------------

  /** Who is billed, for which unit and lease, in which rental mode, from which day, how much a month. */
  datatype RentPlan = RentPlan(tenantId: Id, unitId: Id, leaseId: Id, mode: RentalMode, start: Day, rent: int)

  /** The first month's rent: pro-rated over the days left in the month, counting the start
      day, to the nearest cent; a lease starting on the 1st pays the whole month. */
  function FirstMonthRent(rent: int, start: Day): (r: int)
    ensures start.day == 1 ==> r == rent
    ensures start.day > 1 ==>
      var total := DaysInMonth(start.year, start.month);
      var remaining := total - start.day + 1;
      2 * r * total - total <= 2 * (rent * remaining) <= 2 * r * total + total
    ensures 0 <= rent ==> 0 <= r <= rent
  {
    var total := DaysInMonth(start.year, start.month);
    var remaining := total - start.day + 1;
    if remaining < total then
      var p := RoundCents(rent * remaining, total);
      ProRatedAtMost(rent, remaining, total, p);
      p
    else rent
  }

  /** Pro-rating never raises a non-negative rent. */
  lemma ProRatedAtMost(rent: int, remaining: int, total: int, p: int)
    requires 0 < remaining < total
    requires 2 * p * total - total <= 2 * (rent * remaining)
    requires rent >= 0 ==> p >= 0
    ensures 0 <= rent ==> p <= rent
  {
    if 0 <= rent {
      MulMonotone(rent, remaining, total);
      assert 2 * (p * total) < 2 * ((rent + 1) * total);
      MulCancel(p, rent + 1, total);
    }
  }

  /** The rent a month is billed: pro-rated in the start month, whole afterwards. */
  function MonthRent(p: RentPlan, ym: YearMonth): int {
    if ym == MonthOf(p.start) then FirstMonthRent(p.rent, p.start) else p.rent
  }

  predicate IsRentInvoiceFor(inv: Invoice, tenantId: Id, unitId: Id, ym: YearMonth) {
    inv.tenantId == tenantId && inv.unitId == unitId && inv.month == Some(ym) && inv.category == "RENT"
  }

  /** `invoice.findFirst({ where: { tenantId, unitId, month, category: 'RENT' } })` finds a row. */
  predicate HasRentInvoice(invoices: map<Id, Invoice>, tenantId: Id, unitId: Id, ym: YearMonth) {
    exists k :: k in invoices && IsRentInvoiceFor(invoices[k], tenantId, unitId, ym)
  }

  /** Every invoice of `before` is still in `after`, unchanged. */
  predicate Keeps(before: map<Id, Invoice>, after: map<Id, Invoice>) {
    forall k :: k in before ==> k in after && after[k] == before[k]
  }

  /** The rent invoice for one month. Its category is the column's default, "RENT". It is
      due on the first of the month, or on the start day in the start month. */
  function RentInvoice(count: nat, p: RentPlan, ym: YearMonth): (inv: Invoice)
    requires ValidMonth(ym)
    ensures IsRentInvoiceFor(inv, p.tenantId, p.unitId, ym)
    ensures inv.rent == inv.amount == inv.balanceDue == MonthRent(p, ym)
    ensures inv.paidAmount == 0 && inv.serviceFees == 0 && inv.status == "sent"
    ensures inv.leaseId == Some(p.leaseId)
  {
    var amount := MonthRent(p, ym);
    var first: Day := FirstDay(ym);
    Invoice(Text.Serial("INV-LEASE-", count), p.tenantId, p.unitId, Some(p.leaseId), p.mode,
            Some(ym), amount, 0, amount, 0, amount, "sent", "RENT", None,
            if Before(p.start, first) then first else p.start, None, None)
  }

  /** One month of the catch-up loop: an invoice only when the month has none. */
  function CatchUpMonth(invoices: map<Id, Invoice>, p: RentPlan, ym: YearMonth): (r: map<Id, Invoice>)
    requires ValidMonth(ym)
    ensures Keeps(invoices, r)
    ensures HasRentInvoice(r, p.tenantId, p.unitId, ym)
  {
    if HasRentInvoice(invoices, p.tenantId, p.unitId, ym) then invoices
    else
      var k := FreshKey(invoices.Keys);
      var r := invoices[k := RentInvoice(|invoices|, p, ym)];
      assert k in r && IsRentInvoiceFor(r[k], p.tenantId, p.unitId, ym);
      r
  }

  /** The catch-up loop from month `ym` to month `last`: it only adds invoices. */
  function CatchUp(invoices: map<Id, Invoice>, p: RentPlan, ym: YearMonth, last: YearMonth): (r: map<Id, Invoice>)
    requires ValidMonth(ym)
    ensures Keeps(invoices, r)
    decreases MonthIndex(last) - MonthIndex(ym)
  {
    if MonthIndex(last) < MonthIndex(ym) then invoices
    else CatchUp(CatchUpMonth(invoices, p, ym), p, NextMonth(ym), last)
  }

  method CatchUpInvoices(db: Database, p: RentPlan, today: Day)
    modifies db`invoices
    ensures db.invoices == CatchUp(old(db.invoices), p, MonthOf(p.start), MonthOf(today))
  {
    var ym, last := MonthOf(p.start), MonthOf(today);
    while MonthIndex(ym) <= MonthIndex(last)
      invariant ValidMonth(ym)
      invariant CatchUp(db.invoices, p, ym, last) == CatchUp(old(db.invoices), p, MonthOf(p.start), last)
      decreases MonthIndex(last) - MonthIndex(ym)
    {
      if !HasRentInvoice(db.invoices, p.tenantId, p.unitId, ym) {
        var count := |db.invoices|;
        db.invoices := db.invoices[FreshKey(db.invoices.Keys) := RentInvoice(count, p, ym)];
      }
      ym := NextMonth(ym);
    }
  }

  /** After the catch-up, every month from the first to the last has a rent invoice for the
      tenant and unit. */
  lemma {:induction false} CatchUpCovers(invoices: map<Id, Invoice>, p: RentPlan, ym: YearMonth, last: YearMonth, m: YearMonth)
    requires ValidMonth(ym) && ValidMonth(m)
    requires MonthIndex(ym) <= MonthIndex(m) <= MonthIndex(last)
    ensures HasRentInvoice(CatchUp(invoices, p, ym, last), p.tenantId, p.unitId, m)
    decreases MonthIndex(last) - MonthIndex(ym)
  {
    var i1 := CatchUpMonth(invoices, p, ym);
    if m == ym {
      var k := RentInvoiceKey(i1, p, ym);
      var r := CatchUp(i1, p, NextMonth(ym), last);
      assert k in r && IsRentInvoiceFor(r[k], p.tenantId, p.unitId, m);
    } else {
      assert m.month != ym.month || m.year != ym.year;
      CatchUpCovers(i1, p, NextMonth(ym), last, m);
    }
  }

  /** The invoice the month's step found or added. */
  lemma RentInvoiceKey(invoices: map<Id, Invoice>, p: RentPlan, ym: YearMonth) returns (k: Id)
    requires HasRentInvoice(invoices, p.tenantId, p.unitId, ym)
    ensures k in invoices && IsRentInvoiceFor(invoices[k], p.tenantId, p.unitId, ym)
  {
    k :| k in invoices && IsRentInvoiceFor(invoices[k], p.tenantId, p.unitId, ym);
  }

  predicate AddedForMonth(invoices: map<Id, Invoice>, p: RentPlan, inv: Invoice, ym: YearMonth, last: YearMonth) {
    inv.month.Some? && ValidMonth(inv.month.value)
    && MonthIndex(ym) <= MonthIndex(inv.month.value) <= MonthIndex(last)
    && !HasRentInvoice(invoices, p.tenantId, p.unitId, inv.month.value)
    && IsRentInvoiceFor(inv, p.tenantId, p.unitId, inv.month.value)
    && inv.leaseId == Some(p.leaseId)
    && inv.rent == inv.amount == inv.balanceDue == MonthRent(p, inv.month.value)
    && inv.paidAmount == 0 && inv.status == "sent"
  }

  /** Every invoice the catch-up adds is an unpaid rent invoice of the plan, at the month's
      rent, for a month in range that had no rent invoice before. */
  lemma {:induction false} CatchUpAddsOnlyMissing(invoices: map<Id, Invoice>, p: RentPlan, ym: YearMonth, last: YearMonth)
    requires ValidMonth(ym)
    ensures var r := CatchUp(invoices, p, ym, last);
      forall k :: k in r && k !in invoices ==> AddedForMonth(invoices, p, r[k], ym, last)
    decreases MonthIndex(last) - MonthIndex(ym)
  {
    if MonthIndex(ym) <= MonthIndex(last) {
      var i1 := CatchUpMonth(invoices, p, ym);
      var r := CatchUp(i1, p, NextMonth(ym), last);
      CatchUpAddsOnlyMissing(i1, p, NextMonth(ym), last);
      forall k | k in r && k !in invoices
        ensures AddedForMonth(invoices, p, r[k], ym, last)
      {
        if k in i1 {
          assert r[k] == i1[k];
        } else {
          assert AddedForMonth(i1, p, r[k], NextMonth(ym), last);
          NoRentInvoiceBefore(invoices, i1, p, r[k].month.value);
        }
      }
    }
  }

  /** No month receives two invoices from one catch-up. */
  lemma {:induction false} CatchUpOnePerMonth(invoices: map<Id, Invoice>, p: RentPlan, ym: YearMonth, last: YearMonth)
    requires ValidMonth(ym)
    ensures var r := CatchUp(invoices, p, ym, last);
      forall k1, k2 :: (k1 in r && k2 in r && k1 !in invoices && k2 !in invoices
        && r[k1].month == r[k2].month) ==> k1 == k2
    decreases MonthIndex(last) - MonthIndex(ym)
  {
    if MonthIndex(ym) <= MonthIndex(last) {
      var i1 := CatchUpMonth(invoices, p, ym);
      var r := CatchUp(i1, p, NextMonth(ym), last);
      CatchUpOnePerMonth(i1, p, NextMonth(ym), last);
      CatchUpAddsOnlyMissing(i1, p, NextMonth(ym), last);
      forall k1, k2 | k1 in r && k2 in r && k1 !in invoices && k2 !in invoices && r[k1].month == r[k2].month
        ensures k1 == k2
      {
        // A key added by this month's step carries month ym; a later one a later month.
        if k1 in i1 && k2 !in i1 {
          assert false;
        } else if k2 in i1 && k1 !in i1 {
          assert false;
        }
      }
    }
  }

  /** A month without a rent invoice after a step had none before it. */
  lemma NoRentInvoiceBefore(invoices: map<Id, Invoice>, i1: map<Id, Invoice>, p: RentPlan, m: YearMonth)
    requires Keeps(invoices, i1)
    requires !HasRentInvoice(i1, p.tenantId, p.unitId, m)
    ensures !HasRentInvoice(invoices, p.tenantId, p.unitId, m)
  {
    forall k | k in invoices ensures !IsRentInvoiceFor(invoices[k], p.tenantId, p.unitId, m) {
      assert i1[k] == invoices[k];
    }
  }

  predicate IsDepositFor(inv: Invoice, leaseId: Id) {
    inv.leaseId == Some(leaseId) && inv.category == "SERVICE" && inv.description == Some("Security Deposit")
  }

  predicate HasDepositInvoice(invoices: map<Id, Invoice>, leaseId: Id) {
    exists k :: k in invoices && IsDepositFor(invoices[k], leaseId)
  }

  /** A lease has at most one deposit invoice. */
  predicate SingleDeposit(invoices: map<Id, Invoice>, leaseId: Id) {
    forall k1, k2 :: (k1 in invoices && k2 in invoices
      && IsDepositFor(invoices[k1], leaseId) && IsDepositFor(invoices[k2], leaseId)) ==> k1 == k2
  }

  function DepositInvoice(count: nat, p: RentPlan, month: YearMonth, amount: int, due: Day): (inv: Invoice)
    ensures IsDepositFor(inv, p.leaseId)
    ensures inv.amount == inv.serviceFees == inv.balanceDue == amount && inv.rent == 0
  {
    Invoice(Text.Serial("INV-DEP-", count), p.tenantId, p.unitId, Some(p.leaseId), p.mode,
            Some(month), 0, amount, amount, 0, amount, "sent", "SERVICE", Some("Security Deposit"),
            due, None, None)
  }

  /** The deposit step: a deposit invoice is raised only for a positive deposit and only when
      the lease has none; existing invoices are kept, and a lease's deposit invoice stays unique. */
  function AddDeposit(invoices: map<Id, Invoice>, p: RentPlan, month: YearMonth, amount: int, due: Day): (r: map<Id, Invoice>)
    ensures Keeps(invoices, r)
    ensures r != invoices <==> amount > 0 && !HasDepositInvoice(invoices, p.leaseId)
    ensures amount > 0 ==> HasDepositInvoice(r, p.leaseId)
    ensures SingleDeposit(invoices, p.leaseId) ==> SingleDeposit(r, p.leaseId)
  {
    if amount > 0 && !HasDepositInvoice(invoices, p.leaseId) then
      var k := FreshKey(invoices.Keys);
      var r := invoices[k := DepositInvoice(|invoices|, p, month, amount, due)];
      assert k !in invoices && k in r;
      r
    else invoices
  }

  method AddDepositInvoice(db: Database, p: RentPlan, month: YearMonth, amount: int, due: Day)
    modifies db`invoices
    ensures db.invoices == AddDeposit(old(db.invoices), p, month, amount, due)
  {
    if amount > 0 && !HasDepositInvoice(db.invoices, p.leaseId) {
      var count := |db.invoices|;
      db.invoices := db.invoices[FreshKey(db.invoices.Keys) := DepositInvoice(count, p, month, amount, due)];
    }
  }
}
