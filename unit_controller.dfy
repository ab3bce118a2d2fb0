/** The admin unit handlers: the unit list's pagination, creating a unit with its bedrooms,
    editing a unit and bringing its bedroom rows in line with its bedroom count, deleting a
    unit with everything that refers to it, and the bedrooms offered as free. */
module UnitController {
  import opened Wrappers
  import opened Calendar
  import opened Keys
  import opened Store
  import Text

  datatype UnitError =
    | MissingProperty | PropertyNotFound | InvalidUnitType | UnitNotFound | HasActiveLease
    | ServerError  // an update the database refuses

  function HttpStatus(e: UnitError): (code: int)
    ensures code == 404 <==> e == PropertyNotFound || e == UnitNotFound
    ensures code == 500 <==> e == ServerError
    ensures code in {400, 404, 500}
  {
    match e
    case PropertyNotFound => 404
    case UnitNotFound => 404
    case ServerError => 500
    case _ => 400
  }

  // ---------------------------------------------------------------------------------
  // getAllUnits: pagination
  // ---------------------------------------------------------------------------------

  /** `parseInt(x) || fallback`: an absent, unparsable or zero value takes the fallback. */
  function IntOr(x: Option<int>, fallback: int): int {
    if x.Some? && x.value != 0 then x.value else fallback
  }

  datatype Window = Window(page: int, limit: int, skip: int)

  /** The page asked for (1 by default) and its size (10 by default), and how many units
      precede it. */
  function PageWindow(page: Option<int>, limit: Option<int>): (w: Window)
    ensures w.page != 0 && w.limit != 0
  {
    var p, l := IntOr(page, 1), IntOr(limit, 10);
    Window(p, l, (p - 1) * l)
  }

  /** `Math.ceil(total / limit)`. */
  function TotalPages(total: nat, limit: int): int
    requires limit != 0
  {
    if limit > 0 then CeilDiv(total, limit) else -(total / -limit)
  }

  /** With positive sizes, consecutive pages follow one another without gap or overlap,
      every unit lies on exactly one page no later than the last, and the page after the
      last starts past the end. */
  lemma PagesTile(total: nat, limit: nat, k: nat)
    requires limit > 0
    ensures var p := k / limit + 1;
      var w := PageWindow(Some(p), Some(limit));
      && w.skip <= k < w.skip + w.limit
      && PageWindow(Some(p + 1), Some(limit)).skip == w.skip + limit
      && (k < total ==> 1 <= p <= TotalPages(total, limit))
    ensures total <= PageWindow(Some(TotalPages(total, limit) + 1), Some(limit)).skip
  {
    var q := k / limit;
    PageOf(k, limit);
    SkipOf(q + 1, limit);
    SkipOf(q + 2, limit);
    var t := CeilDiv(total, limit);
    if k < total {
      MulCancel(q, t, limit);
    }
    SkipOf(t + 1, limit);
  }

  /** Unit `k` lies within page `k / limit` counted from 0. */
  lemma PageOf(k: nat, limit: int)
    requires limit > 0
    ensures var q := k / limit; 0 <= q && q * limit <= k < q * limit + limit
  {
  }

  /** The units before page `p`. */
  lemma SkipOf(p: int, limit: int)
    requires p > 0 && limit > 0
    ensures PageWindow(Some(p), Some(limit)).skip == p * limit - limit
  {
  }

  // ---------------------------------------------------------------------------------
  // Rental mode, bedroom count and bedroom names
  // ---------------------------------------------------------------------------------

  /** A request's rental mode: a number or a string, or absent. */
  datatype ModeInput = ModeNumber(n: int) | ModeText(s: string) | ModeAbsent

  /** On create: 3, "3", "Bedroom-wise" or "BEDROOM_WISE" mean bedroom-wise, anything
      else full unit. */
  function CreateMode(m: ModeInput): (mode: RentalMode)
    ensures mode == BedroomWise <==>
      m == ModeNumber(3) || m == ModeText("3") || m == ModeText("Bedroom-wise") || m == ModeText("BEDROOM_WISE")
  {
    match m
    case ModeNumber(n) => if n == 3 then BedroomWise else FullUnit
    case ModeText(s) => if s == "3" || s == "Bedroom-wise" || s == "BEDROOM_WISE" then BedroomWise else FullUnit
    case ModeAbsent => FullUnit
  }

  /** On update only the two spellings of each mode are recognised; anything else keeps the
      unit's mode. */
  function UpdateMode(m: ModeInput, current: RentalMode): (mode: RentalMode)
    ensures m == ModeText("BEDROOM_WISE") || m == ModeText("Bedroom-wise") ==> mode == BedroomWise
    ensures m == ModeText("FULL_UNIT") || m == ModeText("Full Unit") ==> mode == FullUnit
    ensures !(m.ModeText? && m.s in {"BEDROOM_WISE", "Bedroom-wise", "FULL_UNIT", "Full Unit"}) ==> mode == current
  {
    if m == ModeText("BEDROOM_WISE") || m == ModeText("Bedroom-wise") then BedroomWise
    else if m == ModeText("FULL_UNIT") || m == ModeText("Full Unit") then FullUnit
    else current
  }

  /** The bedroom count of a new unit: the number given, else 3 for a bedroom-wise unit
      and 1 for a full unit. */
  function NewBedroomCount(count: Option<int>, mode: RentalMode): (n: int)
    ensures count.Some? && count.value != 0 ==> n == count.value
    ensures !(count.Some? && count.value != 0) ==> n == (if mode == BedroomWise then 3 else 1)
  {
    IntOr(count, if mode == BedroomWise then 3 else 1)
  }

  /** The i-th bedroom's name: the custom identifier when one is given for it, otherwise
      `civic-unit-(i+1)`. */
  function BedroomName(civic: string, unitNumber: string, i: nat, identifiers: Option<seq<string>>): string {
    if identifiers.Some? && i < |identifiers.value| && identifiers.value[i] != "" then identifiers.value[i]
    else civic + "-" + unitNumber + "-" + Text.Decimal(i + 1)
  }

  /** Without custom identifiers, different positions give different names. */
  lemma BedroomNamesDistinct(civic: string, unitNumber: string, i: nat, j: nat)
    requires i != j
    ensures BedroomName(civic, unitNumber, i, None) != BedroomName(civic, unitNumber, j, None)
  {
    var p := civic + "-" + unitNumber + "-";
    assert BedroomName(civic, unitNumber, i, None) == p + Text.Decimal(i + 1);
    assert BedroomName(civic, unitNumber, j, None) == p + Text.Decimal(j + 1);
    if p + Text.Decimal(i + 1) == p + Text.Decimal(j + 1) {
      assert Text.Decimal(i + 1) == (p + Text.Decimal(i + 1))[|p|..];
      Text.DecimalRoundTrip(i + 1);
      Text.DecimalRoundTrip(j + 1);
    }
  }

  // ---------------------------------------------------------------------------------
  // createUnit
  // ---------------------------------------------------------------------------------

  datatype NewUnit = NewUnit(
    unitName: Option<string>, propertyId: Option<Id>, rentalMode: ModeInput, unitNumber: Option<string>,
    unitType: Option<string>, floor: Option<int>, bedrooms: Option<int>, identifiers: Option<seq<string>>)

  /** The tables the unit handlers write. */
  datatype UnitTables = UnitTables(units: map<Id, Unit>, bedrooms: map<Id, Bedroom>)

  /** A unit type must be one of the stored types when one is given. */
  predicate UnknownType(d: Db, unitType: Option<string>) {
    Filled(unitType) && unitType.value !in d.unitTypes
  }

  /** The `count` bedrooms a new unit receives in one insert, numbered from `base`. */
  function FreshBedrooms(unitId: Id, civic: string, unitNumber: string, count: nat, identifiers: Option<seq<string>>, base: Id): (r: map<Id, Bedroom>)
    ensures forall j :: j in r <==> base <= j < base + count
    ensures forall j :: j in r ==> r[j] == Bedroom(unitId, BedroomName(civic, unitNumber, j - base, identifiers), j - base + 1, RoomVacant)
  {
    map j | j in Run(base, count) :: Bedroom(unitId, BedroomName(civic, unitNumber, j - base, identifiers), j - base + 1, RoomVacant)
  }

  /** POST /api/admin/units. The unit is Vacant; it is named and numbered after whichever
      of name and number is given; when its bedroom count is positive it receives that
      many Vacant bedrooms numbered 1 to n. */
  function CreateUnitSpec(d: Db, req: NewUnit): (r: (Result<Id, UnitError>, UnitTables))
    ensures r.0.Err? ==> r.1 == UnitTables(d.units, d.bedrooms)
  {
    if !Given(req.propertyId) then (Err(MissingProperty), UnitTables(d.units, d.bedrooms))
    else if req.propertyId.value !in d.properties then (Err(PropertyNotFound), UnitTables(d.units, d.bedrooms))
    else if UnknownType(d, req.unitType) then (Err(InvalidUnitType), UnitTables(d.units, d.bedrooms))
    else
      var mode := CreateMode(req.rentalMode);
      var n := NewBedroomCount(req.bedrooms, mode);
      var name := TextOr(req.unitName, TextOr(req.unitNumber, ""));
      var number := TextOr(req.unitNumber, TextOr(req.unitName, ""));
      var k := FreshKey(d.units.Keys);
      var u := Unit(req.propertyId.value, name, number, TextOr(req.unitType, ""), req.floor, Vacant, mode, n);
      var civic := d.properties[req.propertyId.value].civicNumber.GetOr("");
      var bedrooms := if n > 0 then d.bedrooms + FreshBedrooms(k, civic, if number != "" then number else name, n, req.identifiers, FreshKey(d.bedrooms.Keys))
                      else d.bedrooms;
      (Ok(k), UnitTables(d.units[k := u], bedrooms))
  }

  method CreateUnit(db: Database, req: NewUnit) returns (r: Result<Id, UnitError>)
    modifies db`units, db`bedrooms
    ensures (r, UnitTables(db.units, db.bedrooms)) == CreateUnitSpec(old(db.State()), req)
  {
    if !Given(req.propertyId) {
      return Err(MissingProperty);
    }
    var propertyId := req.propertyId.value;
    if propertyId !in db.properties {
      return Err(PropertyNotFound);
    }
    if Filled(req.unitType) && req.unitType.value !in db.unitTypes {
      return Err(InvalidUnitType);
    }
    var mode := CreateMode(req.rentalMode);
    var n := NewBedroomCount(req.bedrooms, mode);
    var k := FreshKey(db.units.Keys);
    var u := Unit(propertyId, TextOr(req.unitName, TextOr(req.unitNumber, "")), TextOr(req.unitNumber, TextOr(req.unitName, "")),
                  TextOr(req.unitType, ""), req.floor, Vacant, mode, n);
    db.units := db.units[k := u];
    if n > 0 {
      var unitNumber := if u.unitNumber != "" then u.unitNumber else u.name;
      db.bedrooms := db.bedrooms + FreshBedrooms(k, db.properties[propertyId].civicNumber.GetOr(""), unitNumber, n, req.identifiers, FreshKey(db.bedrooms.Keys));
    }
    r := Ok(k);
  }

  /** Every bedroom belongs to a unit that exists. */
  predicate BedroomsOnUnits(d: Db) {
    forall b :: b in d.bedrooms ==> d.bedrooms[b].unitId in d.units
  }

  /** The new unit is Vacant and its bedrooms are exactly the new rows: for each position i
      below its count one Vacant bedroom numbered i + 1 under its name; none when the count
      is not positive. No earlier unit or bedroom changes. */
  lemma CreatedUnitBedrooms(d: Db, req: NewUnit)
    requires BedroomsOnUnits(d) && CreateUnitSpec(d, req).0.Ok?
    ensures var (r, t) := CreateUnitSpec(d, req);
      var k, n, base := r.value, t.units[r.value].bedrooms, FreshKey(d.bedrooms.Keys);
      && k !in d.units && t.units == d.units[k := t.units[k]] && t.units[k].status == Vacant
      && t.units[k].rentalMode == CreateMode(req.rentalMode) && n == NewBedroomCount(req.bedrooms, t.units[k].rentalMode)
      && (forall b :: b in d.bedrooms ==> b in t.bedrooms && t.bedrooms[b] == d.bedrooms[b])
      && (forall b :: b in t.bedrooms && t.bedrooms[b].unitId == k <==> b in t.bedrooms && b !in d.bedrooms)
      && (forall b :: b in t.bedrooms && b !in d.bedrooms <==> base <= b < base + n)
      && (forall j :: base <= j < base + n ==>
            j in t.bedrooms && t.bedrooms[j].roomNumber == j - base + 1 && t.bedrooms[j].status == RoomVacant)
  {
    var (r, t) := CreateUnitSpec(d, req);
    var k := r.value;
    assert k !in d.units;
    forall b | b in d.bedrooms
      ensures d.bedrooms[b].unitId != k
    {
      assert d.bedrooms[b].unitId in d.units;
    }
  }

  // ---------------------------------------------------------------------------------
  // updateUnit
  // ---------------------------------------------------------------------------------

  datatype UnitEdit = UnitEdit(
    unitNumber: Option<string>, unitType: Option<string>, floor: Option<int>, bedrooms: Option<int>,
    rentalMode: ModeInput, status: Option<UnitStatus>, propertyId: Option<Id>, identifiers: Option<seq<string>>)

  /** The unit's fields after the edit: each given field replaces the stored one. */
  function EditedUnit(u: Unit, e: UnitEdit): (r: Unit)
    ensures r.name == u.name
    ensures r.bedrooms == (if e.bedrooms.Some? && e.bedrooms.value != 0 then e.bedrooms.value else u.bedrooms)
    ensures r.unitNumber == (if Filled(e.unitNumber) then e.unitNumber.value else u.unitNumber)
    ensures r.status == (if e.status.Some? then e.status.value else u.status)
    ensures r.floor == (if e.floor.Some? then e.floor else u.floor)
  {
    u.(unitNumber := TextOr(e.unitNumber, u.unitNumber), unitType := TextOr(e.unitType, u.unitType),
       floor := if e.floor.Some? then e.floor else u.floor, bedrooms := IntOr(e.bedrooms, u.bedrooms),
       rentalMode := UpdateMode(e.rentalMode, u.rentalMode), status := e.status.GetOr(u.status),
       propertyId := if Given(e.propertyId) then e.propertyId.value else u.propertyId)
  }

  function RoomsOf(bedrooms: map<Id, Bedroom>, unitId: Id): set<Id> {
    set b | b in bedrooms && bedrooms[b].unitId == unitId
  }

  /** The unit's bedrooms as the handler reads them: each once, by room number. */
  predicate RoomOrder(bedrooms: map<Id, Bedroom>, unitId: Id, order: seq<Id>) {
    && Enumerates(order, RoomsOf(bedrooms, unitId))
    && forall i, j :: 0 <= i < j < |order| ==> bedrooms[order[i]].roomNumber <= bedrooms[order[j]].roomNumber
  }

  predicate Distinct(order: seq<Id>) {
    forall p, q :: 0 <= p < q < |order| ==> order[p] != order[q]
  }

  /** An existing bedroom given the name of position i: renamed and renumbered i + 1 only
      when its name differs. */
  function Renamed(b: Bedroom, i: nat, name: string): Bedroom {
    if b.bedroomNumber != name then b.(bedroomNumber := name, roomNumber := i + 1) else b
  }

  /** Names bedrooms `civic-unit-(i+1)` unless custom identifiers are given. */
  datatype Naming = Naming(unitId: Id, civic: string, unitNumber: string, identifiers: Option<seq<string>>)

  function NameAt(nm: Naming, i: nat): string {
    BedroomName(nm.civic, nm.unitNumber, i, nm.identifiers)
  }

  /** The names of positions 0 to n - 1. */
  function Names(nm: Naming, n: nat): (r: seq<string>)
    ensures |r| == n && forall i :: 0 <= i < n ==> r[i] == NameAt(nm, i)
  {
    seq(n, i requires 0 <= i => NameAt(nm, i))
  }

  /** The names an edited unit's bedrooms receive: after its building's civic number and its
      number (its name when it has none). */
  function NamingOf(d: Db, id: Id, u: Unit, identifiers: Option<seq<string>>): Naming
    requires u.propertyId in d.properties
  {
    Naming(id, d.properties[u.propertyId].civicNumber.GetOr(""), if u.unitNumber != "" then u.unitNumber else u.name, identifiers)
  }

  /** Step i of the loop: rename the i-th existing bedroom, or create one past the last. */
  function SyncStep(b0: map<Id, Bedroom>, b: map<Id, Bedroom>, order: seq<Id>, unitId: Id, names: seq<string>, i: nat): (r: map<Id, Bedroom>)
    requires (forall j :: 0 <= j < |order| ==> order[j] in b0) && i < |names|
    ensures b.Keys <= r.Keys
  {
    if i < |order| then b[order[i] := Renamed(b0[order[i]], i, names[i])]
    else b[FreshKey(b.Keys) := Bedroom(unitId, names[i], i + 1, RoomVacant)]
  }

  /** The bedrooms after the first k steps of the loop. */
  function SyncUpTo(b0: map<Id, Bedroom>, order: seq<Id>, unitId: Id, names: seq<string>, k: nat): (r: map<Id, Bedroom>)
    requires (forall j :: 0 <= j < |order| ==> order[j] in b0) && k <= |names|
    ensures b0.Keys <= r.Keys
    decreases k
  {
    if k == 0 then b0 else SyncStep(b0, SyncUpTo(b0, order, unitId, names, k - 1), order, unitId, names, k - 1)
  }

  /** `existingBedrooms.slice(n)` once there are more than n: JavaScript counts a negative
      start from the end. */
  function Excess(order: seq<Id>, n: int): seq<Id> {
    if |order| <= n then []
    else if n >= 0 then order[n..]
    else if |order| + n > 0 then order[|order| + n..]
    else order
  }

  /** A bedroom a user or a lease still refers to. */
  predicate InUse(users: map<Id, User>, leases: map<Id, Lease>, b: Id) {
    (exists u :: u in users && users[u].bedroomId == Some(b))
    || (exists l :: l in leases && leases[l].bedroomId == Some(b))
  }

  /** The excess bedrooms are deleted in one statement, which fails as a whole, and is
      ignored, when one of them is still referred to. */
  function Prune(users: map<Id, User>, leases: map<Id, Lease>, b: map<Id, Bedroom>, excess: seq<Id>): map<Id, Bedroom> {
    if exists x :: x in excess && InUse(users, leases, x) then b
    else map k | k in b && k !in excess :: b[k]
  }

  /** The bedroom rows after an edit: synchronised when custom identifiers are given or the
      count differs from the number of rows, untouched otherwise. */
  function Resync(bedrooms: map<Id, Bedroom>, users: map<Id, User>, leases: map<Id, Lease>, nm: Naming, n: int, order: seq<Id>): map<Id, Bedroom>
    requires forall j :: 0 <= j < |order| ==> order[j] in bedrooms
  {
    if nm.identifiers.Some? || n != |order| then
      var k := if n < 0 then 0 else n;
      Prune(users, leases, SyncUpTo(bedrooms, order, nm.unitId, Names(nm, k), k), Excess(order, n))
    else bedrooms
  }

  /** PUT /api/admin/units/:id. The unit's row is updated; then, when custom identifiers
      are given or the count differs from the bedroom rows, the first bedrooms are renamed,
      missing ones created Vacant up to the count, and the excess deleted. */
  function UpdateUnitSpec(d: Db, id: Id, e: UnitEdit, order: seq<Id>): (r: (Result<Id, UnitError>, UnitTables))
    requires RoomOrder(d.bedrooms, id, order)
    ensures r.0.Err? ==> r.1 == UnitTables(d.units, d.bedrooms)
  {
    if id !in d.units then (Err(UnitNotFound), UnitTables(d.units, d.bedrooms))
    else if UnknownType(d, e.unitType) then (Err(InvalidUnitType), UnitTables(d.units, d.bedrooms))
    else
      var u := EditedUnit(d.units[id], e);
      if u.propertyId !in d.properties then (Err(ServerError), UnitTables(d.units, d.bedrooms))
      else (Ok(id), UnitTables(d.units[id := u], Resync(d.bedrooms, d.users, d.leases, NamingOf(d, id, u, e.identifiers), u.bedrooms, order)))
  }

  method UpdateUnit(db: Database, id: Id, e: UnitEdit, order: seq<Id>) returns (r: Result<Id, UnitError>)
    requires RoomOrder(db.bedrooms, id, order)
    modifies db`units, db`bedrooms
    ensures (r, UnitTables(db.units, db.bedrooms)) == UpdateUnitSpec(old(db.State()), id, e, order)
  {
    if id !in db.units {
      return Err(UnitNotFound);
    }
    if Filled(e.unitType) && e.unitType.value !in db.unitTypes {
      return Err(InvalidUnitType);
    }
    var u := EditedUnit(db.units[id], e);
    if u.propertyId !in db.properties {
      return Err(ServerError);
    }
    var nm := Naming(id, db.properties[u.propertyId].civicNumber.GetOr(""), if u.unitNumber != "" then u.unitNumber else u.name, e.identifiers);
    db.units := db.units[id := u];
    ResyncBedrooms(db, order, nm, u.bedrooms);
    r := Ok(id);
  }

  method ResyncBedrooms(db: Database, order: seq<Id>, nm: Naming, n: int)
    requires (forall j :: 0 <= j < |order| ==> order[j] in db.bedrooms) && Distinct(order)
    modifies db`bedrooms
    ensures db.bedrooms == Resync(old(db.bedrooms), db.users, db.leases, nm, n, order)
  {
    if nm.identifiers.Some? || n != |order| {
      SyncBedrooms(db, order, nm, if n < 0 then 0 else n);
      DeleteExcess(db, Excess(order, n));
    }
  }

  /** The loop over positions 0 to n - 1. */
  method SyncBedrooms(db: Database, order: seq<Id>, nm: Naming, n: nat)
    requires (forall j :: 0 <= j < |order| ==> order[j] in db.bedrooms) && Distinct(order)
    modifies db`bedrooms
    ensures db.bedrooms == SyncUpTo(old(db.bedrooms), order, nm.unitId, Names(nm, n), n)
  {
    var existing := db.bedrooms;
    for i := 0 to n
      invariant db.bedrooms == SyncUpTo(existing, order, nm.unitId, Names(nm, n), i)
    {
      var name := NameAt(nm, i);
      if i < |order| {
        if existing[order[i]].bedroomNumber != name {
          db.bedrooms := db.bedrooms[order[i] := existing[order[i]].(bedroomNumber := name, roomNumber := i + 1)];
        } else {
          SyncUntouched(existing, order, nm.unitId, Names(nm, n), i, i);
          assert db.bedrooms == db.bedrooms[order[i] := Renamed(existing[order[i]], i, name)];
        }
      } else {
        db.bedrooms := db.bedrooms[FreshKey(db.bedrooms.Keys) := Bedroom(nm.unitId, name, i + 1, RoomVacant)];
      }
    }
  }

  method DeleteExcess(db: Database, excess: seq<Id>)
    modifies db`bedrooms
    ensures db.bedrooms == Prune(db.users, db.leases, old(db.bedrooms), excess)
  {
    if exists x :: x in excess && InUse(db.users, db.leases, x) {
      return;
    }
    db.bedrooms := map k | k in db.bedrooms && k !in excess :: db.bedrooms[k];
  }

  /** Ids handed out one after another from the next free id: the next one after m of
      them is m above the first. */
  lemma FreshAfter(k0: set<Id>, keys: set<Id>, m: nat)
    requires forall x :: x in keys <==> x in k0 || FreshKey(k0) <= x < FreshKey(k0) + m
    ensures FreshKey(keys) == FreshKey(k0) + m
  {
    var f := FreshKey(k0);
    if m == 0 {
      forall x
        ensures x in keys <==> x in k0
      {
      }
      assert keys == k0;
    } else {
      assert f + m - 1 in keys;
      assert IsMax(keys, f + m - 1);
      assert MaxKey(keys) == f + m - 1;
    }
  }

  /** How many bedrooms the first k steps create. */
  function Made(order: seq<Id>, k: nat): nat {
    if k > |order| then k - |order| else 0
  }

  /** One step keeps every id and adds the next free one when it creates a bedroom; it
      changes no row but the one it writes. */
  lemma StepEffect(b0: map<Id, Bedroom>, b: map<Id, Bedroom>, order: seq<Id>, unitId: Id, names: seq<string>, i: nat)
    requires i < |names|
    requires forall j :: 0 <= j < |order| ==> order[j] in b0
    requires b0.Keys <= b.Keys
    ensures var r, w := SyncStep(b0, b, order, unitId, names, i), if i < |order| then order[i] else FreshKey(b.Keys);
      && r.Keys == b.Keys + {w}
      && (i < |order| ==> r.Keys == b.Keys)
      && (forall x :: x in b && x != w ==> r[x] == b[x])
  {
  }

  /** After k steps the ids are the existing ones and a run of new ones from the next free
      id. */
  lemma {:induction false} SyncKeys(b0: map<Id, Bedroom>, order: seq<Id>, unitId: Id, names: seq<string>, k: nat)
    requires k <= |names|
    requires forall j :: 0 <= j < |order| ==> order[j] in b0
    ensures forall x :: x in SyncUpTo(b0, order, unitId, names, k) <==> x in b0 || FreshKey(b0.Keys) <= x < FreshKey(b0.Keys) + Made(order, k)
    decreases k
  {
    if k > 0 {
      var prev := SyncUpTo(b0, order, unitId, names, k - 1);
      SyncKeys(b0, order, unitId, names, k - 1);
      StepEffect(b0, prev, order, unitId, names, k - 1);
      if k - 1 >= |order| {
        FreshAfter(b0.Keys, prev.Keys, Made(order, k - 1));
      }
    }
  }

  /** Until step i has run, the i-th existing bedroom is as it was. */
  lemma {:induction false} SyncUntouched(b0: map<Id, Bedroom>, order: seq<Id>, unitId: Id, names: seq<string>, k: nat, i: nat)
    requires k <= |names|
    requires (forall j :: 0 <= j < |order| ==> order[j] in b0) && Distinct(order)
    requires k <= i < |order|
    ensures order[i] in SyncUpTo(b0, order, unitId, names, k) && SyncUpTo(b0, order, unitId, names, k)[order[i]] == b0[order[i]]
    decreases k
  {
    if k > 0 {
      SyncUntouched(b0, order, unitId, names, k - 1, i);
      SyncKeys(b0, order, unitId, names, k - 1);
    }
  }

  /** Once step i has run, the i-th existing bedroom carries the name of position i. */
  lemma {:induction false} SyncRenames(b0: map<Id, Bedroom>, order: seq<Id>, unitId: Id, names: seq<string>, k: nat, i: nat)
    requires k <= |names|
    requires (forall j :: 0 <= j < |order| ==> order[j] in b0) && Distinct(order)
    requires i < k && i < |order|
    ensures order[i] in SyncUpTo(b0, order, unitId, names, k)
    ensures SyncUpTo(b0, order, unitId, names, k)[order[i]] == Renamed(b0[order[i]], i, names[i])
    decreases k
  {
    if k - 1 > i {
      SyncRenames(b0, order, unitId, names, k - 1, i);
      SyncKeys(b0, order, unitId, names, k - 1);
    } else {
      SyncKeys(b0, order, unitId, names, k - 1);
    }
  }

  /** A bedroom not in the list is never touched. */
  lemma {:induction false} SyncOthers(b0: map<Id, Bedroom>, order: seq<Id>, unitId: Id, names: seq<string>, k: nat, x: Id)
    requires k <= |names|
    requires forall j :: 0 <= j < |order| ==> order[j] in b0
    requires x in b0 && x !in order
    ensures x in SyncUpTo(b0, order, unitId, names, k) && SyncUpTo(b0, order, unitId, names, k)[x] == b0[x]
    decreases k
  {
    if k > 0 {
      SyncOthers(b0, order, unitId, names, k - 1, x);
      SyncKeys(b0, order, unitId, names, k - 1);
    }
  }

  /** The bedroom step k - 1 creates, when it creates one, takes the next id of the run. */
  lemma SyncCreatesLast(b0: map<Id, Bedroom>, order: seq<Id>, unitId: Id, names: seq<string>, k: nat)
    requires k <= |names|
    requires forall p :: 0 <= p < |order| ==> order[p] in b0
    requires k > |order|
    ensures var r, base := SyncUpTo(b0, order, unitId, names, k), FreshKey(b0.Keys);
      r == SyncUpTo(b0, order, unitId, names, k - 1)[base + Made(order, k - 1) := Bedroom(unitId, names[k - 1], k, RoomVacant)]
  {
    var prev := SyncUpTo(b0, order, unitId, names, k - 1);
    SyncKeys(b0, order, unitId, names, k - 1);
    FreshAfter(b0.Keys, prev.Keys, Made(order, k - 1));
    assert SyncUpTo(b0, order, unitId, names, k) == SyncStep(b0, prev, order, unitId, names, k - 1);
  }

  /** The j-th bedroom created is the Vacant bedroom of position |order| + j. */
  lemma {:induction false} SyncCreates(b0: map<Id, Bedroom>, order: seq<Id>, unitId: Id, names: seq<string>, k: nat, j: nat)
    requires k <= |names|
    requires forall p :: 0 <= p < |order| ==> order[p] in b0
    requires j < Made(order, k)
    ensures var r, base := SyncUpTo(b0, order, unitId, names, k), FreshKey(b0.Keys);
      base + j in r && r[base + j] == Bedroom(unitId, names[|order| + j], |order| + j + 1, RoomVacant)
    decreases k
  {
    SyncCreatesLast(b0, order, unitId, names, k);
    var base := FreshKey(b0.Keys);
    if j < Made(order, k - 1) {
      SyncCreates(b0, order, unitId, names, k - 1, j);
      assert base + j != base + Made(order, k - 1);
    } else {
      assert j == Made(order, k - 1) && |order| + j == k - 1;
    }
  }

  // The effects of an edit that resynchronises the bedroom rows (custom identifiers given,
  // or a count other than the number of rows), for a count that is not negative.

  /** The existing bedrooms up to the count keep their rows and status and carry the names
      of positions 1 to n, each renumbered only when its name changed. */
  lemma UpdateRenamesBedroom(d: Db, id: Id, e: UnitEdit, order: seq<Id>, i: nat)
    requires RoomOrder(d.bedrooms, id, order) && UpdateUnitSpec(d, id, e, order).0.Ok?
    requires var u := EditedUnit(d.units[id], e); (e.identifiers.Some? || u.bedrooms != |order|) && i < u.bedrooms && i < |order|
    ensures var (_, t) := UpdateUnitSpec(d, id, e, order);
      var u := t.units[id];
      var was := d.bedrooms[order[i]];
      && order[i] in t.bedrooms && t.bedrooms[order[i]] == Renamed(was, i, NameAt(NamingOf(d, id, u, e.identifiers), i))
      && t.bedrooms[order[i]].unitId == id && t.bedrooms[order[i]].status == was.status
  {
    var u := EditedUnit(d.units[id], e);
    var n := u.bedrooms;
    SyncRenames(d.bedrooms, order, id, Names(NamingOf(d, id, u, e.identifiers), n), n, i);
    if n < |order| {
      forall j | 0 <= j < |order| - n
        ensures order[n..][j] != order[i]
      {
        assert order[n..][j] == order[n + j];
      }
    }
  }

  /** The missing bedrooms up to the count are created Vacant, numbered on from the last
      existing one, with consecutive ids from the next free id. */
  lemma UpdateCreatesBedroom(d: Db, id: Id, e: UnitEdit, order: seq<Id>, j: nat)
    requires RoomOrder(d.bedrooms, id, order) && UpdateUnitSpec(d, id, e, order).0.Ok?
    requires |order| + j < EditedUnit(d.units[id], e).bedrooms
    ensures var (_, t) := UpdateUnitSpec(d, id, e, order);
      var k := FreshKey(d.bedrooms.Keys) + j;
      && k !in d.bedrooms && k in t.bedrooms
      && t.bedrooms[k] == Bedroom(id, NameAt(NamingOf(d, id, t.units[id], e.identifiers), |order| + j), |order| + j + 1, RoomVacant)
  {
    var u := EditedUnit(d.units[id], e);
    SyncCreates(d.bedrooms, order, id, Names(NamingOf(d, id, u, e.identifiers), u.bedrooms), u.bedrooms, j);
    var k := FreshKey(d.bedrooms.Keys) + j;
    assert k !in Excess(order, u.bedrooms);
  }

  /** The excess bedrooms past the count are all deleted, or all kept unchanged when one of
      them is still referred to by a user or a lease. */
  lemma UpdatePrunesBedroom(d: Db, id: Id, e: UnitEdit, order: seq<Id>, i: nat)
    requires RoomOrder(d.bedrooms, id, order) && UpdateUnitSpec(d, id, e, order).0.Ok?
    requires var n := EditedUnit(d.units[id], e).bedrooms; 0 <= n <= i < |order|
    ensures var (_, t) := UpdateUnitSpec(d, id, e, order);
      var n := t.units[id].bedrooms;
      var used := exists x :: x in order[n..] && InUse(d.users, d.leases, x);
      && (!used ==> order[i] !in t.bedrooms)
      && (used ==> order[i] in t.bedrooms && t.bedrooms[order[i]] == d.bedrooms[order[i]])
  {
    var u := EditedUnit(d.units[id], e);
    SyncUntouched(d.bedrooms, order, id, Names(NamingOf(d, id, u, e.identifiers), u.bedrooms), u.bedrooms, i);
    assert order[u.bedrooms..][i - u.bedrooms] == order[i];
  }

  /** Other units' bedrooms are not touched. */
  lemma UpdateKeepsOtherUnits(d: Db, id: Id, e: UnitEdit, order: seq<Id>, x: Id)
    requires RoomOrder(d.bedrooms, id, order) && UpdateUnitSpec(d, id, e, order).0.Ok?
    requires x in d.bedrooms && d.bedrooms[x].unitId != id
    ensures var t := UpdateUnitSpec(d, id, e, order).1; x in t.bedrooms && t.bedrooms[x] == d.bedrooms[x]
  {
    var u := EditedUnit(d.units[id], e);
    var n := if u.bedrooms < 0 then 0 else u.bedrooms;
    assert x !in order;
    SyncOthers(d.bedrooms, order, id, Names(NamingOf(d, id, u, e.identifiers), n), n, x);
    assert x !in Excess(order, u.bedrooms);
  }

  // ---------------------------------------------------------------------------------
  // deleteUnit
  // ---------------------------------------------------------------------------------

  /** The tables deleteUnit writes. */
  datatype Cascade = Cascade(
    invoices: map<Id, Invoice>, refunds: seq<Refund>, bedrooms: map<Id, Bedroom>, leases: map<Id, Lease>, units: map<Id, Unit>)

  function CascadeOf(d: Db): Cascade {
    Cascade(d.invoices, d.refunds, d.bedrooms, d.leases, d.units)
  }

  predicate HasActiveLeaseOn(d: Db, unitId: Id) {
    exists l :: l in d.leases && d.leases[l].unitId == unitId && d.leases[l].status == Active
  }

  /** The refunds left once those on the unit are deleted. */
  function RefundsNotOn(refunds: seq<Refund>, unitId: Id): (r: seq<Refund>)
    ensures forall x :: x in r <==> x in refunds && x.unitId != unitId
  {
    Keep(refunds, (x: Refund) => x.unitId != unitId)
  }

  /** DELETE /api/admin/units/:id. Refused while an Active lease is on the unit; otherwise
      one transaction deletes the unit's invoices, refunds, bedrooms and leases, then the
      unit. */
  function DeleteUnitSpec(d: Db, id: Id): (r: (Result<Id, UnitError>, Cascade))
    ensures r.0.Err? ==> r.1 == CascadeOf(d)
  {
    if id !in d.units then (Err(UnitNotFound), CascadeOf(d))
    else if HasActiveLeaseOn(d, id) then (Err(HasActiveLease), CascadeOf(d))
    else
      (Ok(id), Cascade(
        map k | k in d.invoices && d.invoices[k].unitId != id :: d.invoices[k],
        RefundsNotOn(d.refunds, id),
        map k | k in d.bedrooms && d.bedrooms[k].unitId != id :: d.bedrooms[k],
        map k | k in d.leases && d.leases[k].unitId != id :: d.leases[k],
        d.units - {id}))
  }

  method DeleteUnit(db: Database, id: Id) returns (r: Result<Id, UnitError>)
    modifies db`invoices, db`refunds, db`bedrooms, db`leases, db`units
    ensures (r, Cascade(db.invoices, db.refunds, db.bedrooms, db.leases, db.units)) == DeleteUnitSpec(old(db.State()), id)
  {
    if id !in db.units {
      return Err(UnitNotFound);
    }
    if exists l :: l in db.leases && db.leases[l].unitId == id && db.leases[l].status == Active {
      return Err(HasActiveLease);
    }
    db.invoices := map k | k in db.invoices && db.invoices[k].unitId != id :: db.invoices[k];
    db.refunds := RefundsNotOn(db.refunds, id);
    db.bedrooms := map k | k in db.bedrooms && db.bedrooms[k].unitId != id :: db.bedrooms[k];
    db.leases := map k | k in db.leases && db.leases[k].unitId != id :: db.leases[k];
    db.units := db.units - {id};
    r := Ok(id);
  }

  /** A unit with an Active lease is never deleted; a deleted unit leaves no invoice,
      refund, bedroom or lease that refers to it, and every row of another unit stays. */
  lemma DeleteUnitGuard(d: Db, id: Id)
    ensures var (r, c) := DeleteUnitSpec(d, id);
      && (r.Ok? <==> id in d.units && !HasActiveLeaseOn(d, id))
      && (r.Ok? ==>
            && id !in c.units && c.units == d.units - {id}
            && (forall k :: k in c.invoices ==> c.invoices[k].unitId != id)
            && (forall k :: k in d.invoices && d.invoices[k].unitId != id ==> k in c.invoices && c.invoices[k] == d.invoices[k])
            && (forall x :: x in c.refunds ==> x.unitId != id)
            && (forall x :: x in d.refunds && x.unitId != id ==> x in c.refunds)
            && (forall k :: k in c.bedrooms ==> c.bedrooms[k].unitId != id)
            && (forall k :: k in d.bedrooms && d.bedrooms[k].unitId != id ==> k in c.bedrooms)
            && (forall k :: k in c.leases ==> c.leases[k].unitId != id)
            && (forall k :: k in d.leases && d.leases[k].unitId != id ==> k in c.leases))
  {
  }

  // ---------------------------------------------------------------------------------
  // getVacantBedrooms
  // ---------------------------------------------------------------------------------

  /** Bedrooms a user holds or an Active or Draft lease is on, except `includeId`. */
  function TakenBedrooms(d: Db, includeId: Option<Id>): (r: set<Id>)
    ensures forall u :: u in d.users && d.users[u].bedroomId.Some? ==>
      d.users[u].bedroomId.value in r || (Given(includeId) && d.users[u].bedroomId.value == includeId.value)
    ensures forall l :: l in d.leases && d.leases[l].bedroomId.Some? && d.leases[l].status in {Active, Draft} ==>
      d.leases[l].bedroomId.value in r || (Given(includeId) && d.leases[l].bedroomId.value == includeId.value)
    ensures forall x :: x in r ==> !Given(includeId) || x != includeId.value
  {
    var taken := (set u | u in d.users && d.users[u].bedroomId.Some? :: d.users[u].bedroomId.value)
               + (set l | l in d.leases && d.leases[l].bedroomId.Some? && d.leases[l].status in {Active, Draft} :: d.leases[l].bedroomId.value);
    if Given(includeId) then taken - {includeId.value} else taken
  }

  predicate HasCompanyLease(d: Db, unitId: Id) {
    exists l :: l in d.leases && d.leases[l].unitId == unitId && d.leases[l].status == Active && IsTenantType(d, d.leases[l].tenantId, Company)
  }

  /** GET /api/admin/units/bedrooms/vacant: untaken bedrooms in the requested building and
      unit that are Vacant, or on a unit a company holds, or on the unit asked for. */
  function VacantBedrooms(d: Db, propertyId: Option<Id>, unitId: Option<Id>, includeId: Option<Id>): set<Id> {
    var taken := TakenBedrooms(d, includeId);
    set b | b in d.bedrooms && b !in taken && d.bedrooms[b].unitId in d.units
      && (Given(propertyId) ==> d.units[d.bedrooms[b].unitId].propertyId == propertyId.value)
      && (Given(unitId) ==> d.bedrooms[b].unitId == unitId.value)
      && (d.bedrooms[b].status == RoomVacant || HasCompanyLease(d, d.bedrooms[b].unitId)
          || d.bedrooms[b].unitId == (if Given(unitId) then unitId.value else -1))
  }

  /** No bedroom a user or an Active or Draft lease holds is offered, except the one being
      edited; with a unit given, the offer is every other bedroom of that unit whatever its
      status; without one, an offered bedroom is Vacant or on a company's unit. */
  lemma VacantBedroomsOffer(d: Db, propertyId: Option<Id>, unitId: Option<Id>, includeId: Option<Id>, b: Id)
    requires forall u :: u in d.units ==> u >= 1
    ensures var offered := VacantBedrooms(d, propertyId, unitId, includeId);
      && (b in offered && (!Given(includeId) || b != includeId.value) ==>
            (forall u :: u in d.users ==> d.users[u].bedroomId != Some(b))
            && (forall l :: l in d.leases && d.leases[l].status in {Active, Draft} ==> d.leases[l].bedroomId != Some(b)))
      && (Given(unitId) && !Given(propertyId) ==>
            (b in offered <==> b in d.bedrooms && d.bedrooms[b].unitId == unitId.value && unitId.value in d.units
                               && b !in TakenBedrooms(d, includeId)))
      && (!Given(unitId) && b in offered ==> d.bedrooms[b].status == RoomVacant || HasCompanyLease(d, d.bedrooms[b].unitId))
  {
  }
}
