/** The admin tenant handlers: creating a tenant (with its residents), deleting one with
    everything that refers to it, and editing one, which can replace its residents and move
    its lease to another unit. */
module TenantController {
  import opened Wrappers
  import opened Calendar
  import opened Keys
  import opened Store
  import Text
  import UnitController

  // ---------------------------------------------------------------------------------
  // Phone numbers
  // ---------------------------------------------------------------------------------

  /** The characters `/[\s-()]/g` removes. */
  predicate Separator(c: char) {
    Text.IsSpace(c) || c == '-' || c == '(' || c == ')'
  }

  function CleanPhone(phone: string): (r: string)
    ensures forall i :: 0 <= i < |r| ==> !Separator(r[i])
  {
    Text.Without(phone, Separator)
  }

  /** North American numbers in E.164 form: ten digits get "+1", eleven characters
      starting with 1 get "+", anything else is kept as cleaned. */
  function NormalizePhone(clean: string): string {
    if |clean| == 10 && Text.AllDigits(clean) then "+1" + clean
    else if |clean| == 11 && clean[0] == '1' then "+" + clean
    else clean
  }

  /** The phone a tenant is stored with, or None when it is missing or shorter than ten
      characters once normalised (a validation error on `phone`). */
  function TenantPhone(phone: Option<string>): (r: Option<string>)
    ensures r.Some? ==> |r.value| >= 10
  {
    if !Filled(phone) then None
    else
      var p := NormalizePhone(CleanPhone(phone.value));
      if |p| < 10 then None else Some(p)
  }

  /** A stored phone holds no space, dash or parenthesis. */
  lemma PhoneHasNoSeparators(phone: Option<string>)
    requires TenantPhone(phone).Some?
    ensures forall i :: 0 <= i < |TenantPhone(phone).value| ==> !Separator(TenantPhone(phone).value[i])
  {
    var c := CleanPhone(phone.value);
    var p := TenantPhone(phone).value;
    forall i | 0 <= i < |p|
      ensures !Separator(p[i])
    {
      if |c| == 10 && Text.AllDigits(c) {
        if i >= 2 { assert p[i] == c[i - 2]; }
      } else if |c| == 11 && c[0] == '1' {
        if i >= 1 { assert p[i] == c[i - 1]; }
      }
    }
  }

  /** A phone is accepted exactly when it has at least ten characters besides the
      separators: normalising never takes a number across that bound. */
  lemma PhoneAccepted(phone: string)
    ensures TenantPhone(Some(phone)).Some? <==> |CleanPhone(phone)| >= 10
  {
  }

  /** Ten digits, however they are punctuated, become "+1" and the digits. */
  lemma TenDigitPhone(digits: string, phone: string)
    requires |digits| == 10 && Text.AllDigits(digits) && CleanPhone(phone) == digits
    ensures TenantPhone(Some(phone)) == Some("+1" + digits)
  {
  }

  /** Eleven characters starting with 1 get only the "+". */
  lemma ElevenDigitPhone(number: string, phone: string)
    requires |number| == 11 && number[0] == '1' && CleanPhone(phone) == number
    ensures TenantPhone(Some(phone)) == Some("+" + number)
  {
  }

  /** Normalising a stored phone again leaves it as it is, so an edit that resubmits the
      stored number keeps it. */
  lemma PhoneStable(phone: Option<string>)
    requires TenantPhone(phone).Some?
    ensures TenantPhone(TenantPhone(phone)) == TenantPhone(phone)
  {
    var p := TenantPhone(phone).value;
    PhoneHasNoSeparators(phone);
    Text.WithoutNothing(p, Separator);
    assert CleanPhone(p) == p;
  }

  // ---------------------------------------------------------------------------------
  // Requests and errors
  // ---------------------------------------------------------------------------------

  /** One entry of the `residents` array. */
  datatype ResidentEntry = ResidentEntry(firstName: Option<string>, lastName: Option<string>)

  /** The request body of createTenant and updateTenant. An id that is missing or does
      not parse is None; `residents` is None when it is not an array. */
  datatype TenantRequest = TenantRequest(
    firstName: Option<string>, lastName: Option<string>, email: Option<string>,
    kind: Option<string>, phone: Option<string>, companyName: Option<string>,
    parentId: Option<Id>, propertyId: Option<Id>, unitId: Option<Id>, bedroomId: Option<Id>,
    leaseId: Option<Id>, residents: Option<seq<ResidentEntry>>)

  datatype TenantField = FirstName | LastName | CompanyName | ParentId | Phone

  datatype TenantError =
    | Invalid(fields: set<TenantField>)  // "Validation failed" with one message per field
    | InvalidId                          // the path id is not a number
    | EmailTaken                         // another user has the email
    | TenantNotFound                     // the update finds no such user
    | ServerError                        // the delete fails and is rolled back

  function HttpStatus(e: TenantError): (code: int)
    ensures code == 409 <==> e == EmailTaken
    ensures code == 404 <==> e == TenantNotFound
    ensures code == 500 <==> e == ServerError
    ensures code == 400 <==> e.Invalid? || e == InvalidId
  {
    match e
    case Invalid(_) => 400
    case InvalidId => 400
    case EmailTaken => 409
    case TenantNotFound => 404
    case ServerError => 500
  }

  /** `type.toUpperCase()` read as a tenant type; other text is stored as written. */
  function TypeNamed(upper: string): TenantType {
    if upper == "INDIVIDUAL" then Individual
    else if upper == "COMPANY" then Company
    else if upper == "RESIDENT" then Resident
    else UnlistedType(upper)
  }

  /** The type a request names, None when it names none. */
  function RequestedType(kind: Option<string>): Option<TenantType> {
    if Filled(kind) then Some(TypeNamed(Text.Upper(kind.value))) else None
  }

  /** An id JavaScript treats as present, else null. */
  function Sanitized(id: Option<Id>): Option<Id> {
    if Given(id) then id else None
  }

  /** `a || b` on ids. */
  function Either(a: Option<Id>, b: Option<Id>): Option<Id> {
    if Given(a) then a else b
  }

  /** `${first} ${last}`.trim() */
  function FullName(first: string, last: string): string {
    Text.Trim(first + " " + last)
  }

  /** Another user (not `except`) already has this email. */
  predicate EmailInUse(users: map<Id, User>, email: string, except: Option<Id>) {
    exists k :: k in users && users[k].email == email && Some(k) != except
  }

  /** The fields a create request fails validation on. */
  function CreateErrors(req: TenantRequest): (r: set<TenantField>)
    ensures Phone !in r ==> TenantPhone(req.phone).Some?
    ensures FirstName !in r ==> Filled(req.firstName)
    ensures LastName !in r ==> Filled(req.lastName)
    ensures CompanyName !in r ==> (CreateType(req.kind) == Company ==> Filled(req.companyName))
    ensures ParentId !in r ==> (CreateType(req.kind) == Resident ==> Given(req.parentId))
  {
    var t := CreateType(req.kind);
    (if Filled(req.firstName) then {} else {FirstName})
    + (if Filled(req.lastName) then {} else {LastName})
    + (if t == Company && !Filled(req.companyName) then {CompanyName} else {})
    + (if t == Resident && !Given(req.parentId) then {ParentId} else {})
    + (if TenantPhone(req.phone).Some? then {} else {Phone})
  }

  /** The fields an update request fails validation on. */
  function UpdateErrors(req: TenantRequest): (r: set<TenantField>)
    ensures Phone !in r ==> TenantPhone(req.phone).Some?
    ensures FirstName !in r ==> Filled(req.firstName)
    ensures LastName !in r ==> Filled(req.lastName)
  {
    (if Filled(req.firstName) then {} else {FirstName})
    + (if Filled(req.lastName) then {} else {LastName})
    + (if TenantPhone(req.phone).Some? then {} else {Phone})
  }

  // ---------------------------------------------------------------------------------
  // Residents and location
  // ---------------------------------------------------------------------------------

  /** A tenant's building, unit and bedroom. */
  datatype Place = Place(buildingId: Option<Id>, unitId: Option<Id>, bedroomId: Option<Id>)

  function RequestedPlace(req: TenantRequest): Place {
    Place(Sanitized(req.propertyId), Sanitized(req.unitId), Sanitized(req.bedroomId))
  }

  /** A resident takes each of building, unit and bedroom it was not given from its
      parent, when the parent exists. */
  function Inherit(users: map<Id, User>, parentId: Option<Id>, p: Place): Place {
    if Given(parentId) && parentId.value in users then
      var parent := users[parentId.value];
      Place(Either(p.buildingId, parent.buildingId), Either(p.unitId, parent.unitId), Either(p.bedroomId, parent.bedroomId))
    else p
  }

  /** The entries that name someone (`r.firstName || r.lastName`). */
  function Named(entries: seq<ResidentEntry>): (r: seq<ResidentEntry>)
    ensures forall e :: e in r <==> e in entries && (Filled(e.firstName) || Filled(e.lastName))
  {
    Keep(entries, (e: ResidentEntry) => Filled(e.firstName) || Filled(e.lastName))
  }

  /** The user row a resident entry becomes. */
  function ResidentUser(e: ResidentEntry, parentId: Id, leaseId: Option<Id>): User {
    var first, last := TextOr(e.firstName, ""), TextOr(e.lastName, "");
    User(first, last, FullName(first, last), "", "", Resident, "", Some(parentId), leaseId,
         None, None, None, None, None)
  }

  /** The rows `user.createMany` inserts for the named entries, with ids from `base` on. */
  function ResidentRows(named: seq<ResidentEntry>, parentId: Id, leaseId: Option<Id>, base: Id): (r: map<Id, User>)
    ensures forall j :: j in r <==> base <= j < base + |named|
    ensures forall j :: j in r ==> r[j] == ResidentUser(named[j - base], parentId, leaseId)
  {
    map j | j in Run(base, |named|) :: ResidentUser(named[j - base], parentId, leaseId)
  }

  /** The users whose responsible party is `id`. */
  function ResidentsOf(users: map<Id, User>, id: Id): set<Id> {
    set k | k in users && users[k].parentId == Some(id)
  }

  // ---------------------------------------------------------------------------------
  // createTenant
  // ---------------------------------------------------------------------------------

  /** The email a create request stores: trimmed, or None when it is blank. */
  function TrimmedEmail(email: Option<string>): (r: Option<string>)
    ensures r.Some? ==> r.value != ""
  {
    if email.Some? && Text.Trim(email.value) != "" then Some(Text.Trim(email.value)) else None
  }

  /** The type a create request gives the tenant: INDIVIDUAL when it names none. */
  function CreateType(kind: Option<string>): TenantType {
    RequestedType(kind).GetOr(Individual)
  }

  /** The user row createTenant inserts. A non-resident gets an invite token that expires
      seven days from today; a resident gets neither, nor a lease. */
  function NewTenant(users: map<Id, User>, req: TenantRequest, phone: string, token: string, today: Day): User
    requires Filled(req.firstName) && Filled(req.lastName)
  {
    var t := CreateType(req.kind);
    var place := if t == Resident then Inherit(users, Sanitized(req.parentId), RequestedPlace(req)) else RequestedPlace(req);
    User(req.firstName.value, req.lastName.value, FullName(req.firstName.value, req.lastName.value),
         TrimmedEmail(req.email).GetOr(""), phone, t,
         if t == Company then TextOr(req.companyName, "") else "",
         Sanitized(req.parentId),
         if t == Resident then None else Sanitized(req.leaseId),
         place.unitId, place.bedroomId, place.buildingId,
         if t != Resident then Some(token) else None,
         if t != Resident then Some(AddDays(today, 7)) else None)
  }

  /** The residents created along with a non-resident tenant. */
  function CreatedResidents(req: TenantRequest): seq<ResidentEntry> {
    if CreateType(req.kind) != Resident && req.residents.Some? then Named(req.residents.value) else []
  }

  /** POST /api/admin/tenants. `token` is the random invite token. The new tenant takes the
      next id and its residents the ids after it. */
  function CreateTenantSpec(users: map<Id, User>, req: TenantRequest, token: string, today: Day): (r: (Result<Id, TenantError>, map<Id, User>))
    ensures r.0.Err? ==> r.1 == users
  {
    var errs := CreateErrors(req);
    if errs != {} then (Err(Invalid(errs)), users)
    else if TrimmedEmail(req.email).Some? && EmailInUse(users, TrimmedEmail(req.email).value, None) then (Err(EmailTaken), users)
    else (Ok(FreshKey(users.Keys)), CreateWrites(users, req, token, today))
  }

  /** The users table after an accepted create: the tenant at the next id, then its
      residents. */
  function CreateWrites(users: map<Id, User>, req: TenantRequest, token: string, today: Day): map<Id, User>
    requires CreateErrors(req) == {}
  {
    var id := FreshKey(users.Keys);
    users[id := NewTenant(users, req, TenantPhone(req.phone).value, token, today)]
    + ResidentRows(CreatedResidents(req), id, None, id + 1)
  }

  method CreateTenant(db: Database, req: TenantRequest, token: string, today: Day) returns (r: Result<Id, TenantError>)
    modifies db`users
    ensures (r, db.users) == CreateTenantSpec(old(db.users), req, token, today)
  {
    var errs := CreateErrors(req);
    if errs != {} {
      return Err(Invalid(errs));
    }
    var email := TrimmedEmail(req.email);
    if email.Some? && EmailInUse(db.users, email.value, None) {
      return Err(EmailTaken);
    }
    r := Ok(FreshKey(db.users.Keys));
    db.users := CreateWrites(db.users, req, token, today);
  }

  /** A create is refused with the failing fields exactly when first name, last name or a
      valid phone is missing, a company has no company name, or a resident no responsible
      party; it is refused with 409 exactly when, besides, the trimmed email is taken. */
  lemma CreateValidation(users: map<Id, User>, req: TenantRequest, token: string, today: Day)
    ensures var r := CreateTenantSpec(users, req, token, today).0;
      var t := CreateType(req.kind);
      var invalid := !Filled(req.firstName) || !Filled(req.lastName) || TenantPhone(req.phone).None?
        || (t == Company && !Filled(req.companyName)) || (t == Resident && !Given(req.parentId));
      && (r.Err? && r.error.Invalid? <==> invalid)
      && (r.Err? && r.error.Invalid? ==>
            && (FirstName in r.error.fields <==> !Filled(req.firstName))
            && (Phone in r.error.fields <==> TenantPhone(req.phone).None?)
            && (ParentId in r.error.fields <==> t == Resident && !Given(req.parentId)))
      && (r == Err(EmailTaken) <==>
            !invalid && TrimmedEmail(req.email).Some?
            && exists k :: k in users && users[k].email == Text.Trim(req.email.value))
  {
    var t := CreateType(req.kind);
    var errs := CreateErrors(req);
    var invalid := !Filled(req.firstName) || !Filled(req.lastName) || TenantPhone(req.phone).None?
      || (t == Company && !Filled(req.companyName)) || (t == Resident && !Given(req.parentId));
    assert invalid ==> errs != {} by {
      if !Filled(req.firstName) { assert FirstName in errs; }
      if !Filled(req.lastName) { assert LastName in errs; }
      if TenantPhone(req.phone).None? { assert Phone in errs; }
      if t == Company && !Filled(req.companyName) { assert CompanyName in errs; }
      if t == Resident && !Given(req.parentId) { assert ParentId in errs; }
    }
  }

  /** The tenant a create inserts takes a fresh id and the normalised phone; no existing
      user changes. A resident has no lease and no invite; anyone else has an invite that
      expires after today, and the lease id the request gave. */
  lemma CreatedTenant(users: map<Id, User>, req: TenantRequest, token: string, today: Day)
    requires CreateTenantSpec(users, req, token, today).0.Ok?
    ensures var (r, after) := CreateTenantSpec(users, req, token, today);
      var id := r.value;
      && id !in users && id in after
      && (forall k :: k in users ==> k in after && after[k] == users[k])
      && after[id].phone == TenantPhone(req.phone).value && |after[id].phone| >= 10
      && after[id].firstName == req.firstName.value && after[id].lastName == req.lastName.value
      && after[id].kind == CreateType(req.kind)
      && (after[id].kind == Resident ==>
            after[id].leaseId.None? && after[id].inviteToken.None? && after[id].inviteExpires.None?
            && after[id].parentId == req.parentId)
      && (after[id].kind != Resident ==>
            after[id].leaseId == Sanitized(req.leaseId)
            && after[id].inviteToken == Some(token)
            && after[id].inviteExpires.Some? && Before(today, after[id].inviteExpires.value))
      && (after[id].kind == Company ==> after[id].companyName == req.companyName.value)
      && (after[id].kind != Company ==> after[id].companyName == "")
  {
    CreateShape(users, req, token, today);
    var id := FreshKey(users.Keys);
    var phone := TenantPhone(req.phone).value;
    var t := NewTenant(users, req, phone, token, today);
    ResidentsAfter(users, id, t, CreatedResidents(req));
    NewTenantFields(users, req, phone, token, today);
  }

  /** The fields of the row createTenant inserts, by the tenant's type. */
  lemma NewTenantFields(users: map<Id, User>, req: TenantRequest, phone: string, token: string, today: Day)
    requires Filled(req.firstName) && Filled(req.lastName)
    requires CreateType(req.kind) == Company ==> Filled(req.companyName)
    requires CreateType(req.kind) == Resident ==> Given(req.parentId)
    ensures var t := NewTenant(users, req, phone, token, today);
      && t.phone == phone && t.firstName == req.firstName.value && t.lastName == req.lastName.value
      && t.kind == CreateType(req.kind)
      && (t.kind == Resident ==>
            t.leaseId.None? && t.inviteToken.None? && t.inviteExpires.None? && t.parentId == req.parentId)
      && (t.kind != Resident ==>
            t.leaseId == Sanitized(req.leaseId) && t.inviteToken == Some(token)
            && t.inviteExpires.Some? && Before(today, t.inviteExpires.value))
      && (t.kind == Company ==> t.companyName == req.companyName.value)
      && (t.kind != Company ==> t.companyName == "")
  {
  }

  /** What an accepted create writes: the tenant row at the next id, then its residents. */
  lemma CreateShape(users: map<Id, User>, req: TenantRequest, token: string, today: Day)
    requires CreateTenantSpec(users, req, token, today).0.Ok?
    ensures var (r, after) := CreateTenantSpec(users, req, token, today);
      && CreateErrors(req) == {}
      && r.value == FreshKey(users.Keys)
      && after == CreateWrites(users, req, token, today)
  {
  }

  /** A resident takes each of building, unit and bedroom the request does not give from
      its responsible party, when that party exists, and the ones given otherwise. */
  lemma ResidentInheritsPlace(users: map<Id, User>, req: TenantRequest, token: string, today: Day)
    requires CreateTenantSpec(users, req, token, today).0.Ok?
    requires CreateType(req.kind) == Resident
    ensures var (r, after) := CreateTenantSpec(users, req, token, today);
      var u := after[r.value];
      && Given(req.parentId)
      && (req.parentId.value in users ==>
            var parent := users[req.parentId.value];
            && u.unitId == (if Given(req.unitId) then req.unitId else parent.unitId)
            && u.bedroomId == (if Given(req.bedroomId) then req.bedroomId else parent.bedroomId)
            && u.buildingId == (if Given(req.propertyId) then req.propertyId else parent.buildingId))
      && (req.parentId.value !in users ==>
            u.unitId == Sanitized(req.unitId) && u.bedroomId == Sanitized(req.bedroomId)
            && u.buildingId == Sanitized(req.propertyId))
  {
    CreateValidation(users, req, token, today);
  }

  /** A non-resident's named resident entries become residents with the ids after the
      tenant's: each has the new tenant as its responsible party, no lease, and the name of
      an entry that names someone; a resident tenant gets none. */
  lemma CreatedResidentRows(users: map<Id, User>, req: TenantRequest, token: string, today: Day)
    requires CreateTenantSpec(users, req, token, today).0.Ok?
    ensures var (r, after) := CreateTenantSpec(users, req, token, today);
      var id := r.value;
      var named := CreatedResidents(req);
      && (forall k :: k in after <==> k in users || id <= k <= id + |named|)
      && (forall k :: k in after && k !in users && k != id ==>
            && after[k].kind == Resident && after[k].parentId == Some(id) && after[k].leaseId.None?
            && exists e :: e in named && after[k] == ResidentUser(e, id, None))
      && (forall e :: e in named <==>
            CreateType(req.kind) != Resident && req.residents.Some? && e in req.residents.value
            && (Filled(e.firstName) || Filled(e.lastName)))
  {
    CreateShape(users, req, token, today);
    var id := FreshKey(users.Keys);
    ResidentsAfter(users, id, NewTenant(users, req, TenantPhone(req.phone).value, token, today), CreatedResidents(req));
  }

  /** The tenant at a fresh id followed by its resident rows: the keys are the old ones and
      the run from the tenant's id on, and every new key past the tenant's holds a resident
      of it made from one of the entries. */
  lemma ResidentsAfter(users: map<Id, User>, id: Id, t: User, named: seq<ResidentEntry>)
    requires forall k :: k in users ==> k < id
    ensures var after := users[id := t] + ResidentRows(named, id, None, id + 1);
      && id in after && after[id] == t
      && (forall k :: k in users ==> k in after && after[k] == users[k])
      && (forall k :: k in after <==> k in users || id <= k <= id + |named|)
      && (forall k :: k in after && k !in users && k != id ==>
            && after[k].kind == Resident && after[k].parentId == Some(id) && after[k].leaseId.None?
            && exists e :: e in named && after[k] == ResidentUser(e, id, None))
  {
    var rows := ResidentRows(named, id, None, id + 1);
    var after := users[id := t] + rows;
    forall k | k in after && k !in users && k != id
      ensures after[k] == ResidentUser(named[k - (id + 1)], id, None) && named[k - (id + 1)] in named
    {
      assert k in rows;
    }
  }

  // ---------------------------------------------------------------------------------
  // deleteTenant
  // ---------------------------------------------------------------------------------

  /** The leases of `tenantId` whose status is one of `statuses`. */
  function LeasesIn(leases: map<Id, Lease>, tenantId: Id, statuses: set<LeaseStatus>): set<Id> {
    set k | k in leases && leases[k].tenantId == tenantId && leases[k].status in statuses
  }

  /** `lease.findFirst({ where: { tenantId, status: { in: statuses } } })`: the lowest id. */
  function FirstLease(leases: map<Id, Lease>, tenantId: Id, statuses: set<LeaseStatus>): (r: Option<Id>)
    ensures r.None? <==> LeasesIn(leases, tenantId, statuses) == {}
    ensures r.Some? ==> IsMin(LeasesIn(leases, tenantId, statuses), r.value)
  {
    var open := LeasesIn(leases, tenantId, statuses);
    if open == {} then None else Some(MinKey(open))
  }

  /** The tables deleteTenant writes. */
  datatype Holdings = Holdings(
    units: map<Id, Unit>, bedrooms: map<Id, Bedroom>, users: map<Id, User>, leases: map<Id, Lease>,
    invoices: map<Id, Invoice>, payments: map<Id, Payment>, ledger: seq<LedgerEntry>,
    refunds: seq<Refund>, insurances: map<Id, Insurance>, messages: seq<Message>, commLogs: seq<CommLog>)

  function HoldingsOf(db: Database): Holdings
    reads db
  {
    Holdings(db.units, db.bedrooms, db.users, db.leases, db.invoices, db.payments, db.ledger,
             db.refunds, db.insurances, db.messages, db.commLogs)
  }

  /** The tenant and its residents. */
  function Household(users: map<Id, User>, id: Id): (r: set<Id>)
    ensures id in r && ResidentsOf(users, id) <= r
    ensures forall k :: k in r ==> k == id || k in ResidentsOf(users, id)
  {
    {id} + ResidentsOf(users, id)
  }

  /** The invoices billed to anyone in `gone`. */
  function InvoicesOf(invoices: map<Id, Invoice>, gone: set<Id>): set<Id> {
    set k | k in invoices && invoices[k].tenantId in gone
  }

  /** The payments made against the invoices `invs`. */
  function PaymentsOf(payments: map<Id, Payment>, invs: set<Id>): set<Id> {
    set k | k in payments && payments[k].invoiceId in invs
  }

  /** The leases held by anyone in `gone`. */
  function LeasesHeldBy(leases: map<Id, Lease>, gone: set<Id>): set<Id> {
    set k | k in leases && leases[k].tenantId in gone
  }

  /** The insurance policies of anyone in `gone`. */
  function PoliciesOf(insurances: map<Id, Insurance>, gone: set<Id>): set<Id> {
    set k | k in insurances && insurances[k].userId in gone
  }

  function RefundsWithout(refunds: seq<Refund>, gone: set<Id>): (r: seq<Refund>)
    ensures forall x :: x in r <==> x in refunds && x.tenantId !in gone
  {
    Keep(refunds, (x: Refund) => x.tenantId !in gone)
  }

  /** The messages left once those sent or received by anyone in `gone` are deleted. */
  function MessagesWithout(messages: seq<Message>, gone: set<Id>): (r: seq<Message>)
    ensures forall m :: m in r <==> m in messages && m.senderId !in gone && m.receiverId !in gone
  {
    Keep(messages, (m: Message) => m.senderId !in gone && m.receiverId !in gone)
  }

  /** The communication logs left once those addressed to anyone in `gone` are deleted. */
  function LogsWithout(commLogs: seq<CommLog>, gone: set<Id>): (r: seq<CommLog>)
    ensures forall c :: c in r <==> c in commLogs && !RefersTo(c.recipientId, gone)
  {
    Keep(commLogs, (c: CommLog) => !RefersTo(c.recipientId, gone))
  }

  /** Everything deleteTenant deletes: the tenant, its residents, and every lease,
      insurance, invoice (with its payments and ledger rows), refund, message and
      communication log of any of them. */
  function Purge(h: Holdings, id: Id): (r: Holdings)
    ensures r.units == h.units && r.bedrooms == h.bedrooms
  {
    var gone := Household(h.users, id);
    var invs := InvoicesOf(h.invoices, gone);
    var pays := PaymentsOf(h.payments, invs);
    h.(users := h.users - gone,
       leases := h.leases - LeasesHeldBy(h.leases, gone),
       invoices := h.invoices - invs,
       payments := h.payments - pays,
       ledger := LedgerWithout(h.ledger, invs, pays),
       refunds := RefundsWithout(h.refunds, gone),
       insurances := h.insurances - PoliciesOf(h.insurances, gone),
       messages := MessagesWithout(h.messages, gone),
       commLogs := LogsWithout(h.commLogs, gone))
  }

  /** The statuses deleteTenant looks for (`['Active', 'DRAFT']`). */
  const OpenStatuses: set<LeaseStatus> := {Active, Draft}

  /** DELETE /api/admin/tenants/:id, one transaction. The first Active or DRAFT lease of the
      tenant frees its unit: the unit and its occupied bedrooms become Vacant. Then the
      tenant, its residents and everything that refers to them are deleted. Any failure
      (an id that does not parse, a lease on a unit that is gone, no such tenant) rolls
      everything back: 500. */
  function DeleteTenantSpec(h: Holdings, id: Option<Id>): (r: (Result<Id, TenantError>, Holdings))
    ensures r.0.Err? ==> r.0 == Err(ServerError) && r.1 == h
  {
    if id.None? then (Err(ServerError), h)
    else
      var first := FirstLease(h.leases, id.value, OpenStatuses);
      if first.Some? && h.leases[first.value].unitId !in h.units then (Err(ServerError), h)
      else if id.value !in h.users then (Err(ServerError), h)
      else
        var freed := if first.Some? then FreeUnit(h, h.leases[first.value].unitId) else h;
        (Ok(id.value), Purge(freed, id.value))
  }

  /** `bedroom.updateMany({ where: { unitId, status: 'Occupied' }, data: { status: 'Vacant' } })`
      and `unit.update({ data: { status: 'Vacant' } })`. */
  function FreeUnit(h: Holdings, unitId: Id): (r: Holdings)
    requires unitId in h.units
    ensures r == h.(bedrooms := r.bedrooms, units := r.units)
  {
    h.(bedrooms := SetUnitBedrooms(h.bedrooms, unitId, RoomVacant), units := SetUnitStatus(h.units, unitId, Vacant))
  }

  method DeleteTenant(db: Database, id: Option<Id>) returns (r: Result<Id, TenantError>)
    modifies db`units, db`bedrooms, db`users, db`leases, db`invoices, db`payments, db`ledger,
             db`refunds, db`insurances, db`messages, db`commLogs
    ensures (r, HoldingsOf(db)) == DeleteTenantSpec(old(HoldingsOf(db)), id)
  {
    if id.None? {
      return Err(ServerError);
    }
    var first := FirstLease(db.leases, id.value, OpenStatuses);
    if first.Some? {
      var unitId := db.leases[first.value].unitId;
      if unitId !in db.units {
        return Err(ServerError);
      }
      if id.value !in db.users {
        return Err(ServerError);
      }
      db.bedrooms := SetUnitBedrooms(db.bedrooms, unitId, RoomVacant);
      db.units := SetUnitStatus(db.units, unitId, Vacant);
    } else if id.value !in db.users {
      return Err(ServerError);
    }
    RemoveHousehold(db, id.value);
    r := Ok(id.value);
  }

  /** The deletes, in the handler's order: dependents before the rows they refer to. */
  method RemoveHousehold(db: Database, id: Id)
    modifies db`users, db`leases, db`invoices, db`payments, db`ledger, db`refunds, db`insurances,
             db`messages, db`commLogs
    ensures HoldingsOf(db) == Purge(old(HoldingsOf(db)), id)
  {
    var gone := Household(db.users, id);
    var invs := InvoicesOf(db.invoices, gone);
    var pays := PaymentsOf(db.payments, invs);
    db.leases := db.leases - LeasesHeldBy(db.leases, gone);
    db.insurances := db.insurances - PoliciesOf(db.insurances, gone);
    db.ledger := LedgerWithout(db.ledger, invs, pays);
    db.payments := db.payments - pays;
    db.invoices := db.invoices - invs;
    db.refunds := RefundsWithout(db.refunds, gone);
    db.messages := MessagesWithout(db.messages, gone);
    db.commLogs := LogsWithout(db.commLogs, gone);
    db.users := db.users - gone;
  }

  /** A delete fails, writing nothing, exactly when the id does not parse, there is no
      such tenant, or its first open lease is on a unit that no longer exists. When it
      succeeds and the tenant had an Active or DRAFT lease, the first one's unit and all
      its bedrooms are Vacant; without one no unit or bedroom status changes. */
  lemma DeleteTenantFreesUnit(h: Holdings, id: Option<Id>)
    ensures var (r, after) := DeleteTenantSpec(h, id);
      && (r.Err? <==>
            id.None? || id.value !in h.users
            || (exists l :: l in h.leases && h.leases[l].tenantId == id.value && h.leases[l].status in OpenStatuses
                         && IsMin(LeasesIn(h.leases, id.value, OpenStatuses), l) && h.leases[l].unitId !in h.units))
      && (r.Ok? && LeasesIn(h.leases, id.value, OpenStatuses) != {} ==>
            var l := MinKey(LeasesIn(h.leases, id.value, OpenStatuses));
            var u := h.leases[l].unitId;
            && u in after.units && after.units[u].status == Vacant
            && AllBedroomsVacant(after.bedrooms, u)
            && (forall k :: k in h.units && k != u ==> k in after.units && after.units[k] == h.units[k]))
      && (r.Ok? && LeasesIn(h.leases, id.value, OpenStatuses) == {} ==>
            after.units == h.units && after.bedrooms == h.bedrooms)
  {
    if id.Some? {
      var open := LeasesIn(h.leases, id.value, OpenStatuses);
      if open != {} {
        var l := MinKey(open);
        assert l in h.leases && h.leases[l].tenantId == id.value && h.leases[l].status in OpenStatuses;
      }
    }
  }

  /** After a delete, nothing refers to the tenant or its residents: they are gone, with
      their leases, insurances, invoices, refunds, messages and logs, and so are the
      payments and ledger rows of those invoices. Every other row is kept as it was. */
  lemma DeleteTenantRemovesHousehold(h: Holdings, id: Id)
    requires DeleteTenantSpec(h, Some(id)).0.Ok?
    ensures var after := DeleteTenantSpec(h, Some(id)).1;
      var gone := Household(h.users, id);
      var invs := InvoicesOf(h.invoices, gone);
      && id !in after.users
      && (forall k :: k in after.users ==> after.users[k].parentId != Some(id))
      && (forall k :: k in h.users && k !in gone ==> k in after.users && after.users[k] == h.users[k])
      && (forall k :: k in after.leases ==> after.leases[k].tenantId !in gone)
      && (forall k :: k in h.leases && h.leases[k].tenantId !in gone ==> k in after.leases && after.leases[k] == h.leases[k])
      && (forall k :: k in after.invoices ==> after.invoices[k].tenantId !in gone)
      && (forall k :: k in h.invoices && h.invoices[k].tenantId !in gone ==> k in after.invoices)
      && (forall k :: k in after.payments ==> after.payments[k].invoiceId !in invs)
      && (forall e :: e in after.ledger ==> !RefersTo(e.invoiceId, invs))
      && (forall x :: x in after.refunds <==> x in h.refunds && x.tenantId !in gone)
      && (forall k :: k in after.insurances ==> after.insurances[k].userId !in gone)
      && (forall m :: m in after.messages <==> m in h.messages && m.senderId !in gone && m.receiverId !in gone)
      && (forall c :: c in after.commLogs ==> !RefersTo(c.recipientId, gone))
  {
    var first := FirstLease(h.leases, id, OpenStatuses);
    var freed := if first.Some? then FreeUnit(h, h.leases[first.value].unitId) else h;
    assert DeleteTenantSpec(h, Some(id)).1 == Purge(freed, id);
    PurgePeople(freed, id);
    PurgeBilling(freed, id);
    PurgeCorrespondence(freed, id);
  }

  lemma PurgePeople(h: Holdings, id: Id)
    ensures var after := Purge(h, id);
      var gone := Household(h.users, id);
      && id !in after.users
      && (forall k :: k in after.users ==> after.users[k].parentId != Some(id))
      && (forall k :: k in h.users && k !in gone ==> k in after.users && after.users[k] == h.users[k])
      && (forall k :: k in after.leases ==> after.leases[k].tenantId !in gone)
      && (forall k :: k in h.leases && h.leases[k].tenantId !in gone ==> k in after.leases && after.leases[k] == h.leases[k])
  {
  }

  lemma PurgeBilling(h: Holdings, id: Id)
    ensures var after := Purge(h, id);
      var gone := Household(h.users, id);
      var invs := InvoicesOf(h.invoices, gone);
      && (forall k :: k in after.invoices ==> after.invoices[k].tenantId !in gone)
      && (forall k :: k in h.invoices && h.invoices[k].tenantId !in gone ==> k in after.invoices)
      && (forall k :: k in after.payments ==> after.payments[k].invoiceId !in invs)
      && (forall e :: e in after.ledger ==> !RefersTo(e.invoiceId, invs))
      && (forall x :: x in after.refunds <==> x in h.refunds && x.tenantId !in gone)
  {
  }

  lemma PurgeCorrespondence(h: Holdings, id: Id)
    ensures var after := Purge(h, id);
      var gone := Household(h.users, id);
      && (forall k :: k in after.insurances ==> after.insurances[k].userId !in gone)
      && (forall m :: m in after.messages <==> m in h.messages && m.senderId !in gone && m.receiverId !in gone)
      && (forall c :: c in after.commLogs ==> !RefersTo(c.recipientId, gone))
  {
  }

  // ---------------------------------------------------------------------------------
  // updateTenant
  // ---------------------------------------------------------------------------------

  /** The tables updateTenant writes. */
  datatype TenantBooks = TenantBooks(
    users: map<Id, User>, leases: map<Id, Lease>, insurances: map<Id, Insurance>,
    messages: seq<Message>, commLogs: seq<CommLog>)

  function BooksOf(db: Database): TenantBooks
    reads db
  {
    TenantBooks(db.users, db.leases, db.insurances, db.messages, db.commLogs)
  }

  /** The statuses updateTenant looks for (`['ACTIVE', 'Active', 'DRAFT']`). */
  const CurrentStatuses: set<LeaseStatus> := {Unlisted("ACTIVE"), Active, Draft}

  /** `status === 'ACTIVE' || status === 'Active'` */
  predicate Live(s: LeaseStatus) {
    s == Unlisted("ACTIVE") || s == Active
  }

  /** The tenant row after an edit. An absent type or email leaves the stored one; the
      company name is cleared unless the type is COMPANY. A resident whose responsible
      party exists inherits the place it was not given from that party and loses its lease. */
  function EditedTenant(users: map<Id, User>, u: User, req: TenantRequest, phone: string): User
    requires Filled(req.firstName) && Filled(req.lastName)
  {
    var t := RequestedType(req.kind);
    var parentId := Sanitized(req.parentId);
    var inherits := t == Some(Resident) && Given(parentId) && parentId.value in users;
    var place := if t == Some(Resident) then Inherit(users, parentId, RequestedPlace(req)) else RequestedPlace(req);
    u.(firstName := req.firstName.value, lastName := req.lastName.value,
       name := FullName(req.firstName.value, req.lastName.value),
       email := req.email.GetOr(u.email), phone := phone, kind := t.GetOr(u.kind),
       companyName := if t == Some(Company) then req.companyName.GetOr(u.companyName) else "",
       buildingId := place.buildingId, unitId := place.unitId, bedroomId := place.bedroomId,
       parentId := parentId, leaseId := if inherits then None else Sanitized(req.leaseId))
  }

  /** The residents sync: the tenant's residents are deleted with their insurances,
      messages and logs, and the named entries are created in their place, on `leaseId`,
      with ids from `base` on. */
  function ReplaceResidents(b: TenantBooks, id: Id, named: seq<ResidentEntry>, leaseId: Option<Id>, base: Id): (r: TenantBooks)
    ensures r.leases == b.leases
  {
    var rs := ResidentsOf(b.users, id);
    b.(users := (b.users - rs) + ResidentRows(named, id, leaseId, base),
       insurances := b.insurances - PoliciesOf(b.insurances, rs),
       messages := MessagesWithout(b.messages, rs),
       commLogs := LogsWithout(b.commLogs, rs))
  }

  /** The lease a move creates; the columns the handler does not set take the table's
      defaults. */
  function NewLease(tenantId: Id, unitId: Id, bedroomId: Option<Id>, status: LeaseStatus): Lease {
    Lease(tenantId, unitId, bedroomId, status, FullUnitLease, None, None, 0, 0)
  }

  /** The unit an edit moves the tenant to: the chosen bedroom's unit when that bedroom
      exists, else the unit given. */
  function Destination(bedrooms: map<Id, Bedroom>, req: TenantRequest): Option<Id> {
    if Given(req.bedroomId) && req.bedroomId.value in bedrooms then Some(bedrooms[req.bedroomId.value].unitId)
    else Sanitized(req.unitId)
  }

  /** Moving the tenant's current lease to `unitId`. A live lease on another unit is closed
      with status `moved` and today's end date and a new lease with status `live` is
      created; a DRAFT is re-pointed; without a current lease one is created. */
  function MoveLease(leases: map<Id, Lease>, id: Id, unitId: Id, bedroomId: Option<Id>, today: Day,
                     live: LeaseStatus, moved: LeaseStatus): map<Id, Lease>
  {
    var cur := FirstLease(leases, id, CurrentStatuses);
    var added := FreshKey(leases.Keys);
    if cur.None? then leases[added := NewLease(id, unitId, bedroomId, live)]
    else if leases[cur.value].unitId == unitId then leases
    else if Live(leases[cur.value].status) then
      leases[cur.value := leases[cur.value].(status := moved, endDate := Some(today))][added := NewLease(id, unitId, bedroomId, live)]
    else leases[cur.value := leases[cur.value].(unitId := unitId, bedroomId := bedroomId)]
  }

  /** What an accepted edit writes: the tenant row and the residents sync in the
      transaction, then the lease move after it. */
  function UpdateWrites(b: TenantBooks, bedrooms: map<Id, Bedroom>, id: Id, req: TenantRequest, today: Day,
                        live: LeaseStatus, moved: LeaseStatus): TenantBooks
    requires UpdateErrors(req) == {} && id in b.users
  {
    var synced := EditedBooks(b, id, req);
    var dest := Destination(bedrooms, req);
    if Given(dest) && RequestedType(req.kind) != Some(Resident) then
      synced.(leases := MoveLease(b.leases, id, dest.value, Sanitized(req.bedroomId), today, live, moved))
    else synced
  }

  /** The transaction part of an edit: the tenant row, then the residents sync. */
  function EditedBooks(b: TenantBooks, id: Id, req: TenantRequest): (r: TenantBooks)
    requires UpdateErrors(req) == {} && id in b.users
    ensures r.leases == b.leases
  {
    var edited := b.(users := b.users[id := EditedTenant(b.users, b.users[id], req, TenantPhone(req.phone).value)]);
    if RequestedType(req.kind) != Some(Resident) && req.residents.Some? then
      ReplaceResidents(edited, id, Named(req.residents.value), FirstLease(b.leases, id, CurrentStatuses), FreshKey(b.users.Keys))
    else edited
  }

  /** PUT /api/admin/tenants/:id, with the statuses a move writes as parameters. */
  function UpdateTenantWith(b: TenantBooks, bedrooms: map<Id, Bedroom>, id: Option<Id>, req: TenantRequest, today: Day,
                            live: LeaseStatus, moved: LeaseStatus): (r: (Result<Id, TenantError>, TenantBooks))
    ensures r.0.Err? ==> r.1 == b
  {
    if id.None? then (Err(InvalidId), b)
    else
      var errs := UpdateErrors(req);
      if errs != {} then (Err(Invalid(errs)), b)
      else if Filled(req.email) && EmailInUse(b.users, req.email.value, id) then (Err(EmailTaken), b)
      else if id.value !in b.users then (Err(TenantNotFound), b)
      else (Ok(id.value), UpdateWrites(b, bedrooms, id.value, req, today, live, moved))
  }

  /** The handler as written: a move writes 'ACTIVE' and 'MOVED', which are not the
      statuses 'Active' and 'Moved' the rest of the system uses. */
  function UpdateTenantSpec(b: TenantBooks, bedrooms: map<Id, Bedroom>, id: Option<Id>, req: TenantRequest, today: Day): (r: (Result<Id, TenantError>, TenantBooks))
    ensures r.0.Err? ==> r.1 == b
  {
    UpdateTenantWith(b, bedrooms, id, req, today, Unlisted("ACTIVE"), Unlisted("MOVED"))
  }

  /** The handler with a move writing the Active and Moved statuses. */
  function CorrectedUpdateSpec(b: TenantBooks, bedrooms: map<Id, Bedroom>, id: Option<Id>, req: TenantRequest, today: Day): (r: (Result<Id, TenantError>, TenantBooks))
    ensures r.0.Err? ==> r.1 == b
  {
    UpdateTenantWith(b, bedrooms, id, req, today, Active, Moved)
  }

  method UpdateTenant(db: Database, id: Option<Id>, req: TenantRequest, today: Day) returns (r: Result<Id, TenantError>)
    modifies db`users, db`leases, db`insurances, db`messages, db`commLogs
    ensures (r, BooksOf(db)) == UpdateTenantSpec(old(BooksOf(db)), db.bedrooms, id, req, today)
  {
    r := EditTenant(db, id, req, today, Unlisted("ACTIVE"), Unlisted("MOVED"));
  }

  method CorrectedUpdateTenant(db: Database, id: Option<Id>, req: TenantRequest, today: Day) returns (r: Result<Id, TenantError>)
    modifies db`users, db`leases, db`insurances, db`messages, db`commLogs
    ensures (r, BooksOf(db)) == CorrectedUpdateSpec(old(BooksOf(db)), db.bedrooms, id, req, today)
  {
    r := EditTenant(db, id, req, today, Active, Moved);
  }

  method EditTenant(db: Database, id: Option<Id>, req: TenantRequest, today: Day, live: LeaseStatus, moved: LeaseStatus)
    returns (r: Result<Id, TenantError>)
    modifies db`users, db`leases, db`insurances, db`messages, db`commLogs
    ensures (r, BooksOf(db)) == UpdateTenantWith(old(BooksOf(db)), db.bedrooms, id, req, today, live, moved)
  {
    if id.None? {
      return Err(InvalidId);
    }
    var errs := UpdateErrors(req);
    if errs != {} {
      return Err(Invalid(errs));
    }
    if Filled(req.email) && EmailInUse(db.users, req.email.value, id) {
      return Err(EmailTaken);
    }
    if id.value !in db.users {
      return Err(TenantNotFound);
    }
    ApplyEdit(db, id.value, req, today, live, moved);
    r := Ok(id.value);
  }

  method ApplyEdit(db: Database, id: Id, req: TenantRequest, today: Day, live: LeaseStatus, moved: LeaseStatus)
    requires UpdateErrors(req) == {} && id in db.users
    modifies db`users, db`leases, db`insurances, db`messages, db`commLogs
    ensures BooksOf(db) == UpdateWrites(old(BooksOf(db)), db.bedrooms, id, req, today, live, moved)
  {
    EditRows(db, id, req);
    var dest := Destination(db.bedrooms, req);
    if Given(dest) && RequestedType(req.kind) != Some(Resident) {
      db.leases := MoveLease(db.leases, id, dest.value, Sanitized(req.bedroomId), today, live, moved);
    }
  }

  method EditRows(db: Database, id: Id, req: TenantRequest)
    requires UpdateErrors(req) == {} && id in db.users
    modifies db`users, db`insurances, db`messages, db`commLogs
    ensures BooksOf(db) == EditedBooks(old(BooksOf(db)), id, req)
  {
    var current := FirstLease(db.leases, id, CurrentStatuses);
    var base := FreshKey(db.users.Keys);
    db.users := db.users[id := EditedTenant(db.users, db.users[id], req, TenantPhone(req.phone).value)];
    if RequestedType(req.kind) != Some(Resident) && req.residents.Some? {
      SyncResidents(db, id, Named(req.residents.value), current, base);
    }
  }

  method SyncResidents(db: Database, id: Id, named: seq<ResidentEntry>, leaseId: Option<Id>, base: Id)
    modifies db`users, db`insurances, db`messages, db`commLogs
    ensures BooksOf(db) == ReplaceResidents(old(BooksOf(db)), id, named, leaseId, base)
  {
    var rs := ResidentsOf(db.users, id);
    db.insurances := db.insurances - PoliciesOf(db.insurances, rs);
    db.messages := MessagesWithout(db.messages, rs);
    db.commLogs := LogsWithout(db.commLogs, rs);
    db.users := db.users - rs;
    db.users := db.users + ResidentRows(named, id, leaseId, base);
  }

  /** An edit request passes validation: first name, last name and a valid phone. */
  predicate ValidEdit(req: TenantRequest) {
    Filled(req.firstName) && Filled(req.lastName) && TenantPhone(req.phone).Some?
  }

  /** An edit is refused, writing nothing: with 400 when the id does not parse or the
      request is invalid, with 409 when another user has the email, with 404 when there
      is no such tenant, in that order. */
  lemma UpdateValidation(b: TenantBooks, bedrooms: map<Id, Bedroom>, id: Option<Id>, req: TenantRequest, today: Day)
    ensures var r := UpdateTenantSpec(b, bedrooms, id, req, today).0;
      var taken := id.Some? && Filled(req.email) && exists k :: k in b.users && b.users[k].email == req.email.value && k != id.value;
      && (r == Err(InvalidId) <==> id.None?)
      && (r.Err? && r.error.Invalid? <==> id.Some? && !ValidEdit(req))
      && (r == Err(EmailTaken) <==> id.Some? && ValidEdit(req) && taken)
      && (r == Err(TenantNotFound) <==> id.Some? && ValidEdit(req) && !taken && id.value !in b.users)
      && (r.Ok? <==> id.Some? && ValidEdit(req) && !taken && id.value in b.users)
  {
    var errs := UpdateErrors(req);
    assert !ValidEdit(req) ==> errs != {} by {
      if !Filled(req.firstName) { assert FirstName in errs; }
      if !Filled(req.lastName) { assert LastName in errs; }
      if TenantPhone(req.phone).None? { assert Phone in errs; }
    }
  }

  /** The edited tenant row: the normalised phone, the names given, the type given (or the
      stored one), no company name unless a company, the responsible party given, the
      invite untouched. A resident whose party exists takes the place it was not given from
      the party and has no lease; anyone else has the place and lease the request gave. The
      row survives the edit unless the residents sync runs and the tenant named itself as
      its own responsible party. */
  lemma UpdatedTenantRow(b: TenantBooks, bedrooms: map<Id, Bedroom>, id: Id, req: TenantRequest, today: Day)
    requires UpdateTenantSpec(b, bedrooms, Some(id), req, today).0.Ok?
    ensures var after := UpdateTenantSpec(b, bedrooms, Some(id), req, today).1;
      var t := RequestedType(req.kind);
      var u := b.users[id];
      var sync := t != Some(Resident) && req.residents.Some?;
      && (id in after.users <==> !(sync && Sanitized(req.parentId) == Some(id)))
      && (id in after.users ==>
            var v := after.users[id];
            && v.phone == TenantPhone(req.phone).value && v.firstName == req.firstName.value && v.lastName == req.lastName.value
            && v.kind == (if t.Some? then t.value else u.kind)
            && (t != Some(Company) ==> v.companyName == "")
            && v.parentId == Sanitized(req.parentId)
            && v.inviteToken == u.inviteToken && v.inviteExpires == u.inviteExpires
            && (t == Some(Resident) && Given(req.parentId) && req.parentId.value in b.users ==>
                  var parent := b.users[req.parentId.value];
                  && v.leaseId.None?
                  && v.unitId == (if Given(req.unitId) then req.unitId else parent.unitId)
                  && v.bedroomId == (if Given(req.bedroomId) then req.bedroomId else parent.bedroomId)
                  && v.buildingId == (if Given(req.propertyId) then req.propertyId else parent.buildingId))
            && (!(t == Some(Resident) && Given(req.parentId) && req.parentId.value in b.users) ==>
                  v.leaseId == Sanitized(req.leaseId) && v.unitId == Sanitized(req.unitId)
                  && v.bedroomId == Sanitized(req.bedroomId) && v.buildingId == Sanitized(req.propertyId)))
  {
    assert UpdateErrors(req) == {} && id in b.users;
    var after := UpdateTenantSpec(b, bedrooms, Some(id), req, today).1;
    assert after == UpdateWrites(b, bedrooms, id, req, today, Unlisted("ACTIVE"), Unlisted("MOVED"));
    var v := EditedTenant(b.users, b.users[id], req, TenantPhone(req.phone).value);
    assert id in after.users ==> after.users[id] == v by {
      KeptEditedRow(b, bedrooms, id, req, today);
    }
    EditedTenantFields(b.users, b.users[id], req, TenantPhone(req.phone).value);
  }

  lemma KeptEditedRow(b: TenantBooks, bedrooms: map<Id, Bedroom>, id: Id, req: TenantRequest, today: Day)
    requires UpdateErrors(req) == {} && id in b.users
    ensures var after := UpdateWrites(b, bedrooms, id, req, today, Unlisted("ACTIVE"), Unlisted("MOVED"));
      var v := EditedTenant(b.users, b.users[id], req, TenantPhone(req.phone).value);
      && (id in after.users <==> !(RequestedType(req.kind) != Some(Resident) && req.residents.Some? && v.parentId == Some(id)))
      && (id in after.users ==> after.users[id] == v)
  {
    var after := UpdateWrites(b, bedrooms, id, req, today, Unlisted("ACTIVE"), Unlisted("MOVED"));
    var v := EditedTenant(b.users, b.users[id], req, TenantPhone(req.phone).value);
    var edited := b.(users := b.users[id := v]);
    if RequestedType(req.kind) != Some(Resident) && req.residents.Some? {
      var rows := ResidentRows(Named(req.residents.value), id, FirstLease(b.leases, id, CurrentStatuses), FreshKey(b.users.Keys));
      assert id !in rows;
      assert after.users == (edited.users - ResidentsOf(edited.users, id)) + rows;
      assert id in ResidentsOf(edited.users, id) <==> v.parentId == Some(id);
    }
  }

  lemma EditedTenantFields(users: map<Id, User>, u: User, req: TenantRequest, phone: string)
    requires Filled(req.firstName) && Filled(req.lastName)
    ensures var v := EditedTenant(users, u, req, phone);
      var t := RequestedType(req.kind);
      && v.phone == phone && v.firstName == req.firstName.value && v.lastName == req.lastName.value
      && v.kind == (if t.Some? then t.value else u.kind)
      && (t != Some(Company) ==> v.companyName == "")
      && v.parentId == Sanitized(req.parentId)
      && v.inviteToken == u.inviteToken && v.inviteExpires == u.inviteExpires
      && (t == Some(Resident) && Given(req.parentId) && req.parentId.value in users ==>
            var parent := users[req.parentId.value];
            && v.leaseId.None?
            && v.unitId == (if Given(req.unitId) then req.unitId else parent.unitId)
            && v.bedroomId == (if Given(req.bedroomId) then req.bedroomId else parent.bedroomId)
            && v.buildingId == (if Given(req.propertyId) then req.propertyId else parent.buildingId))
      && (!(t == Some(Resident) && Given(req.parentId) && req.parentId.value in users) ==>
            v.leaseId == Sanitized(req.leaseId) && v.unitId == Sanitized(req.unitId)
            && v.bedroomId == Sanitized(req.bedroomId) && v.buildingId == Sanitized(req.propertyId))
  {
  }

  /** The residents sync replaces the tenant's residents: afterwards every user whose
      responsible party is the tenant is new, a resident, and on the tenant's current lease,
      and one is created for each entry that names someone; every other user is kept. */
  lemma ReplacedResidents(b: TenantBooks, id: Id, named: seq<ResidentEntry>, leaseId: Option<Id>, base: Id)
    requires forall k :: k in b.users ==> k < base
    ensures var after := ReplaceResidents(b, id, named, leaseId, base);
      && (forall k :: k in after.users && after.users[k].parentId == Some(id) ==>
            k !in b.users && after.users[k].kind == Resident && after.users[k].leaseId == leaseId)
      && (forall k :: k in after.users && k !in b.users <==> base <= k < base + |named|)
      && (forall k :: k in b.users && k !in ResidentsOf(b.users, id) ==> k in after.users && after.users[k] == b.users[k])
  {
    var rows := ResidentRows(named, id, leaseId, base);
    var rs := ResidentsOf(b.users, id);
    var after := ReplaceResidents(b, id, named, leaseId, base);
    assert after.users == (b.users - rs) + rows;
    forall k | k in after.users && after.users[k].parentId == Some(id)
      ensures k !in b.users && after.users[k].kind == Resident && after.users[k].leaseId == leaseId
    {
      if k !in rows {
        assert false;
      }
    }
  }

  /** The k-th new resident is the k-th entry that names someone, under the tenant and
      on the tenant's current lease. */
  lemma ReplacedResidentAt(b: TenantBooks, id: Id, named: seq<ResidentEntry>, leaseId: Option<Id>, base: Id, k: Id)
    requires base <= k < base + |named|
    ensures var after := ReplaceResidents(b, id, named, leaseId, base);
      k in after.users && after.users[k] == ResidentUser(named[k - base], id, leaseId)
  {
    var rows := ResidentRows(named, id, leaseId, base);
    assert ReplaceResidents(b, id, named, leaseId, base).users[k] == rows[k];
    ResidentRowAt(named, id, leaseId, base, k);
  }

  lemma ResidentRowAt(named: seq<ResidentEntry>, id: Id, leaseId: Option<Id>, base: Id, k: Id)
    requires base <= k < base + |named|
    ensures ResidentRows(named, id, leaseId, base)[k] == ResidentUser(named[k - base], id, leaseId)
  {
    assert k in Run(base, |named|);
  }

  /** The sync deletes the old residents' insurances, messages and logs and keeps every
      other one. */
  lemma ReplacedResidentsRecords(b: TenantBooks, id: Id, named: seq<ResidentEntry>, leaseId: Option<Id>, base: Id)
    ensures var after := ReplaceResidents(b, id, named, leaseId, base);
      var rs := ResidentsOf(b.users, id);
      && (forall k :: k in after.insurances <==> k in b.insurances && b.insurances[k].userId !in rs)
      && (forall m :: m in after.messages <==> m in b.messages && m.senderId !in rs && m.receiverId !in rs)
      && (forall c :: c in after.commLogs <==> c in b.commLogs && !RefersTo(c.recipientId, rs))
  {
  }

  /** Where the move leaves the leases: only the tenant's current lease (the first Active,
      'ACTIVE' or DRAFT one) can change, and at most one lease is added. Without a current
      lease one is created with status `live`; a current lease on the destination stays; a
      live one elsewhere is closed with status `moved` and today's date and a `live` one is
      created; a DRAFT elsewhere is re-pointed. */
  lemma MoveLeaseEffect(leases: map<Id, Lease>, id: Id, unitId: Id, bedroomId: Option<Id>, today: Day,
                        live: LeaseStatus, moved: LeaseStatus)
    ensures var after := MoveLease(leases, id, unitId, bedroomId, today, live, moved);
      var cur := FirstLease(leases, id, CurrentStatuses);
      var added := FreshKey(leases.Keys);
      && (forall k :: k in leases && Some(k) != cur ==> k in after && after[k] == leases[k])
      && (cur.None? ==> after.Keys == leases.Keys + {added} && after[added] == NewLease(id, unitId, bedroomId, live))
      && (cur.Some? && leases[cur.value].unitId == unitId ==> after == leases)
      && (cur.Some? && leases[cur.value].unitId != unitId && Live(leases[cur.value].status) ==>
            && after.Keys == leases.Keys + {added} && after[added] == NewLease(id, unitId, bedroomId, live)
            && after[cur.value].status == moved && after[cur.value].endDate == Some(today)
            && after[cur.value].unitId == leases[cur.value].unitId)
      && (cur.Some? && leases[cur.value].unitId != unitId && !Live(leases[cur.value].status) ==>
            && after.Keys == leases.Keys && after[cur.value].status == Draft
            && after[cur.value].unitId == unitId && after[cur.value].bedroomId == bedroomId)
  {
    var cur := FirstLease(leases, id, CurrentStatuses);
    if cur.Some? {
      assert cur.value in LeasesIn(leases, id, CurrentStatuses);
    }
  }

  /** After a move the tenant holds a current lease on the destination unit, whatever it
      held before (provided `live` is itself a current status). */
  lemma MoveLeaseLands(leases: map<Id, Lease>, id: Id, unitId: Id, bedroomId: Option<Id>, today: Day,
                       live: LeaseStatus, moved: LeaseStatus)
    requires live in CurrentStatuses
    ensures var after := MoveLease(leases, id, unitId, bedroomId, today, live, moved);
      exists k :: k in after && after[k].tenantId == id && after[k].unitId == unitId && after[k].status in CurrentStatuses
  {
    var after := MoveLease(leases, id, unitId, bedroomId, today, live, moved);
    var cur := FirstLease(leases, id, CurrentStatuses);
    MoveLeaseEffect(leases, id, unitId, bedroomId, today, live, moved);
    if cur.None? || (Live(leases[cur.value].status) && leases[cur.value].unitId != unitId) {
      var k := FreshKey(leases.Keys);
      assert after[k].tenantId == id && after[k].unitId == unitId;
    } else {
      assert cur.value in LeasesIn(leases, id, CurrentStatuses);
      assert after[cur.value].tenantId == id && after[cur.value].unitId == unitId;
    }
  }

  /** The tables of `d` after an edit. */
  function WithBooks(d: Db, b: TenantBooks): Db {
    d.(users := b.users, leases := b.leases, insurances := b.insurances, messages := b.messages, commLogs := b.commLogs)
  }

  function TenantBooksOf(d: Db): TenantBooks {
    TenantBooks(d.users, d.leases, d.insurances, d.messages, d.commLogs)
  }

  /** The leases after an accepted edit that moves a non-resident: the move applied to the
      leases before it. */
  lemma EditMovesLease(b: TenantBooks, bedrooms: map<Id, Bedroom>, id: Id, req: TenantRequest, today: Day,
                       live: LeaseStatus, moved: LeaseStatus)
    requires UpdateTenantWith(b, bedrooms, Some(id), req, today, live, moved).0.Ok?
    ensures var after := UpdateTenantWith(b, bedrooms, Some(id), req, today, live, moved).1;
      var dest := Destination(bedrooms, req);
      && (Given(dest) && RequestedType(req.kind) != Some(Resident) ==>
            after.leases == MoveLease(b.leases, id, dest.value, Sanitized(req.bedroomId), today, live, moved))
      && (!(Given(dest) && RequestedType(req.kind) != Some(Resident)) ==> after.leases == b.leases)
  {
  }

  /** As written, a tenant without a current lease who is moved to a unit no Active lease
      holds gets an 'ACTIVE' lease there that the unit's guard does not see: the unit still
      counts as having no Active lease, and deleteUnit accepts deleting it, taking the
      tenant's new lease with it. */
  lemma AsWrittenMoveLeavesUnitUnguarded(d: Db, id: Id, req: TenantRequest, today: Day)
    requires UpdateTenantSpec(TenantBooksOf(d), d.bedrooms, Some(id), req, today).0.Ok?
    requires RequestedType(req.kind) != Some(Resident)
    requires Given(Destination(d.bedrooms, req)) && Destination(d.bedrooms, req).value in d.units
    requires LeasesIn(d.leases, id, CurrentStatuses) == {}
    requires !UnitController.HasActiveLeaseOn(d, Destination(d.bedrooms, req).value)
    ensures var after := WithBooks(d, UpdateTenantSpec(TenantBooksOf(d), d.bedrooms, Some(id), req, today).1);
      var u := Destination(d.bedrooms, req).value;
      && (exists k :: k in after.leases && after.leases[k].tenantId == id && after.leases[k].unitId == u
                      && after.leases[k].status == Unlisted("ACTIVE"))
      && !UnitController.HasActiveLeaseOn(after, u)
      && UnitController.DeleteUnitSpec(after, u).0.Ok?
  {
    var u := Destination(d.bedrooms, req).value;
    var b := TenantBooksOf(d);
    var after := WithBooks(d, UpdateTenantSpec(b, d.bedrooms, Some(id), req, today).1);
    EditMovesLease(b, d.bedrooms, id, req, today, Unlisted("ACTIVE"), Unlisted("MOVED"));
    MoveLeaseEffect(d.leases, id, u, Sanitized(req.bedroomId), today, Unlisted("ACTIVE"), Unlisted("MOVED"));
    var k := FreshKey(d.leases.Keys);
    assert after.leases[k].tenantId == id && after.leases[k].unitId == u;
    forall l | l in after.leases && after.leases[l].unitId == u
      ensures after.leases[l].status != Active
    {
      if l != k {
        assert l in d.leases && after.leases[l] == d.leases[l];
      }
    }
  }

  /** With the Active and Moved statuses, the same move leaves the unit with an Active
      lease, so deleteUnit refuses it. */
  lemma CorrectedMoveGuardsUnit(d: Db, id: Id, req: TenantRequest, today: Day)
    requires CorrectedUpdateSpec(TenantBooksOf(d), d.bedrooms, Some(id), req, today).0.Ok?
    requires RequestedType(req.kind) != Some(Resident)
    requires Given(Destination(d.bedrooms, req)) && Destination(d.bedrooms, req).value in d.units
    requires LeasesIn(d.leases, id, CurrentStatuses) == {}
    ensures var after := WithBooks(d, CorrectedUpdateSpec(TenantBooksOf(d), d.bedrooms, Some(id), req, today).1);
      var u := Destination(d.bedrooms, req).value;
      && (exists k :: k in after.leases && after.leases[k].tenantId == id && after.leases[k].unitId == u
                      && after.leases[k].status == Active)
      && UnitController.HasActiveLeaseOn(after, u)
      && UnitController.DeleteUnitSpec(after, u).0 == Err(UnitController.HasActiveLease)
  {
    var u := Destination(d.bedrooms, req).value;
    var b := TenantBooksOf(d);
    var after := WithBooks(d, CorrectedUpdateSpec(b, d.bedrooms, Some(id), req, today).1);
    EditMovesLease(b, d.bedrooms, id, req, today, Active, Moved);
    MoveLeaseEffect(d.leases, id, u, Sanitized(req.bedroomId), today, Active, Moved);
    var k := FreshKey(d.leases.Keys);
    assert after.leases[k].tenantId == id && after.leases[k].unitId == u && after.leases[k].status == Active;
  }
}
