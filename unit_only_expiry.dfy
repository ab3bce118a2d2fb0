/** The daily lease-expiry sweep of the property backend (`initLeaseCron`): every Active
    lease whose end date has passed is set Expired and its unit is set Vacant unless the
    unit (as read when the leases were selected) is Under Maintenance or another Active or
    Draft lease is on it. Users and bedrooms are not touched. */
module UnitOnlyExpiry {
  import opened Wrappers
  import opened Calendar
  import opened Keys
  import opened Store
  import opened LeaseExpiry

  /** The lease and unit tables after one lease's writes, and whether they went through. */
  datatype UnitRows = UnitRows(leases: map<Id, Lease>, units: map<Id, Unit>, ok: bool)

  /** The lease is set Expired; reading the status of a unit that is gone throws. */
  function ExpireUnitRows(units0: map<Id, Unit>, leases: map<Id, Lease>, units: map<Id, Unit>, id: Id): (t: UnitRows)
    requires units0.Keys == units.Keys && id in leases
    ensures t.units.Keys == units.Keys
  {
    var l := leases[id];
    var expired := leases[id := l.(status := Expired)];
    var u := l.unitId;
    if u !in units0 then UnitRows(expired, units, false)
    else if units0[u].status != UnderMaintenance && !UnitHasOtherLease(leases, u, id) then
      UnitRows(expired, SetUnitStatus(units, u, Vacant), true)
    else UnitRows(expired, units, true)
  }

  function ExpireOne(units0: map<Id, Unit>, d: Db, id: Id): (s: Step)
    requires units0.Keys == d.units.Keys
    ensures s.db.units.Keys == d.units.Keys
  {
    if id !in d.leases then Step(d, false)
    else
      var t := ExpireUnitRows(units0, d.leases, d.units, id);
      Step(d.(leases := t.leases, units := t.units), t.ok)
  }

  function Sweep(units0: map<Id, Unit>, d: Db, order: seq<Id>): (r: (Db, nat, nat))
    requires units0.Keys == d.units.Keys
    ensures r.1 + r.2 == |order|
    decreases |order|
  {
    if order == [] then (d, 0, 0)
    else
      var s := ExpireOne(units0, d, order[0]);
      var rest := Sweep(units0, s.db, order[1..]);
      (rest.0, rest.1 + (if s.ok then 1 else 0), rest.2 + (if s.ok then 0 else 1))
  }

  lemma SweepUnfolds(units0: map<Id, Unit>, d: Db, order: seq<Id>, after: Db, ok: bool)
    requires order != [] && units0.Keys == d.units.Keys
    requires Step(after, ok) == ExpireOne(units0, d, order[0])
    ensures units0.Keys == after.units.Keys
    ensures var r, rest := Sweep(units0, d, order), Sweep(units0, after, order[1..]);
      r.0 == rest.0 && r.1 == rest.1 + (if ok then 1 else 0) && r.2 == rest.2 + (if ok then 0 else 1)
  {
    var s := ExpireOne(units0, d, order[0]);
    assert s.db == after && s.ok == ok;
  }

  method ExpireLeases(db: Database, today: Day, order: seq<Id>) returns (processed: nat, failed: nat)
    requires Enumerates(order, Selected(db.State(), today))
    modifies db
    ensures var r := Sweep(old(db.units), old(db.State()), order);
      db.State() == r.0 && processed == r.1 && failed == r.2
  {
    var units0 := db.units;
    processed, failed := 0, 0;
    for i := 0 to |order|
      invariant units0.Keys == db.units.Keys
      invariant var rest, all := Sweep(units0, db.State(), order[i..]), Sweep(units0, old(db.State()), order);
        rest.0 == all.0 && processed + rest.1 == all.1 && failed + rest.2 == all.2
    {
      ghost var before := db.State();
      var ok := ExpireLease(db, units0, order[i]);
      SweepUnfolds(units0, before, order[i..], db.State(), ok);
      assert order[i..][1..] == order[i + 1..];
      if ok {
        processed := processed + 1;
      } else {
        failed := failed + 1;
      }
    }
  }

  method ExpireLease(db: Database, units0: map<Id, Unit>, id: Id) returns (ok: bool)
    requires units0.Keys == db.units.Keys
    modifies db
    ensures Step(db.State(), ok) == ExpireOne(units0, old(db.State()), id)
  {
    if id !in db.leases {
      return false;
    }
    ok := ExpireLeaseUnit(db, units0, id);
  }

  method ExpireLeaseUnit(db: Database, units0: map<Id, Unit>, id: Id) returns (ok: bool)
    requires units0.Keys == db.units.Keys && id in db.leases
    modifies db`leases, db`units
    ensures UnitRows(db.leases, db.units, ok) == ExpireUnitRows(units0, old(db.leases), old(db.units), id)
  {
    var l := db.leases[id];
    var before := db.leases;
    db.leases := db.leases[id := l.(status := Expired)];
    var u := l.unitId;
    if u !in units0 {
      return false;
    }
    if units0[u].status != UnderMaintenance && !UnitHasOtherLease(before, u, id) {
      db.units := SetUnitStatus(db.units, u, Vacant);
    }
    ok := true;
  }

  // ---------------------------------------------------------------------------------
  // Properties
  // ---------------------------------------------------------------------------------

  /** The unit becomes Vacant exactly when it was not Under Maintenance and no other Active
      or Draft lease is on it; otherwise the unit table is left as it was. */
  lemma UnitRelease(units0: map<Id, Unit>, leases: map<Id, Lease>, units: map<Id, Unit>, id: Id)
    requires units0.Keys == units.Keys && id in leases && leases[id].unitId in units0
    ensures var t, u := ExpireUnitRows(units0, leases, units, id), leases[id].unitId;
      t.ok
      && (units0[u].status != UnderMaintenance && !UnitHasOtherLease(leases, u, id) ==>
            t.units == units[u := units[u].(status := Vacant)])
      && (units0[u].status == UnderMaintenance || UnitHasOtherLease(leases, u, id) ==> t.units == units)
  {
  }

  /** One lease's writes touch no user and no bedroom. */
  lemma ExpireOneFrame(units0: map<Id, Unit>, d: Db, id: Id)
    requires units0.Keys == d.units.Keys
    ensures var s := ExpireOne(units0, d, id);
      s.db.bedrooms == d.bedrooms && s.db.users == d.users
      && s.db.leases == if id in d.leases then d.leases[id := d.leases[id].(status := Expired)] else d.leases
  {
  }

  lemma ExpireOneMaintenance(units0: map<Id, Unit>, d: Db, id: Id)
    requires MaintenanceAgrees(units0, d.units)
    ensures MaintenanceAgrees(units0, ExpireOne(units0, d, id).db.units)
  {
  }

  /** The whole sweep never modifies a bedroom or a user, sets exactly the visited leases
      Expired, and leaves Under Maintenance units as they are. */
  lemma {:induction false} SweepFrame(units0: map<Id, Unit>, d: Db, order: seq<Id>)
    requires MaintenanceAgrees(units0, d.units)
    ensures var r := Sweep(units0, d, order).0;
      r.bedrooms == d.bedrooms && r.users == d.users && MaintenanceAgrees(units0, r.units)
    ensures var r := Sweep(units0, d, order).0;
      r.leases.Keys == d.leases.Keys
      && forall k :: k in d.leases ==>
           r.leases[k] == if k in order then d.leases[k].(status := Expired) else d.leases[k]
    decreases |order|
  {
    if order != [] {
      var s := ExpireOne(units0, d, order[0]);
      ExpireOneFrame(units0, d, order[0]);
      ExpireOneMaintenance(units0, d, order[0]);
      SweepFrame(units0, s.db, order[1..]);
      forall k | k in d.leases
        ensures Sweep(units0, d, order).0.leases[k]
          == if k in order then d.leases[k].(status := Expired) else d.leases[k]
      {
        assert k in order <==> k == order[0] || k in order[1..];
      }
    }
  }

  /** A Vacant unit over an Occupied bedroom: one Active bedroom lease, the only lease on
      its unit, expires; the unit is set Vacant while its bedroom stays Occupied. */
  lemma VacantUnitOverOccupiedBedroom()
    ensures var d := OneBedroomLease();
      var r := ExpireOne(d.units, d, 1).db;
      UnitIs(r, 1, Vacant) && BedroomIs(r, 1, RoomOccupied) && !AllBedroomsVacant(r.bedrooms, 1)
  {
    var d := OneBedroomLease();
    assert !UnitHasOtherLease(d.leases, 1, 1);
    var r := ExpireOne(d.units, d, 1).db;
    assert r.bedrooms[1].unitId == 1 && r.bedrooms[1].status == RoomOccupied;
  }

  /** The main backend's sweep on the same lease frees the bedroom with the unit. */
  lemma MainSweepFreesBedroom()
    ensures var d := OneBedroomLease();
      var r := LeaseExpiry.ExpireOne(d.units, d, 1).db;
      UnitIs(r, 1, Vacant) && BedroomIs(r, 1, RoomVacant) && AllBedroomsVacant(r.bedrooms, 1)
  {
    var d := OneBedroomLease();
    assert d.leases.Keys == {1};
    assert !UnitHasOtherLease(d.leases, 1, 1);
    assert !TenantHasOtherActive(d.leases, 1, 1);
    var rooms := d.bedrooms[1 := d.bedrooms[1].(status := RoomVacant)];
    assert 1 in rooms && rooms[1].unitId == 1;
    assert HasBedrooms(rooms, 1);
  }

  /** A unit with one occupied bedroom held by an Active bedroom lease that ended
      2026-01-31. */
  function OneBedroomLease(): Db {
    Db(map[], map[1 := Unit(1, "101", "101", "", Some(1), Occupied, BedroomWise, 1)],
       map[1 := Bedroom(1, "101-1", 1, RoomOccupied)],
       map[1 := User("Ada", "Roy", "Ada Roy", "ada@example.com", "+15145550000", Individual, "", None,
                     Some(1), Some(1), Some(1), Some(1), None, None)],
       map[1 := Lease(1, 1, Some(1), Active, BedroomLease, Some(Date(2025, 2, 1)), Some(Date(2026, 1, 31)), 100000, 0)],
       map[], map[], [], map[], [], [], map[], [], {}, map[], [])
  }
}
