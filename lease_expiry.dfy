/** The daily lease-expiry sweep of the main backend (`initLeaseCron`): every Active lease
    whose end date has passed is set Expired, its residents and (unless it holds another
    Active lease) its tenant are unlinked, and what it held is released: a whole unit with
    its bedrooms, or one bedroom after which the unit is recomputed from its bedrooms.
    A lease whose writes throw is counted as failed and the sweep goes on with the next. */
module LeaseExpiry {
  import opened Wrappers
  import opened Calendar
  import opened Keys
  import opened Store

  /** `status: 'Active', endDate: { lt: today }`; a lease without an end date is not selected. */
  predicate Expiring(l: Lease, today: Day) {
    l.status == Active && l.endDate.Some? && Before(l.endDate.value, today)
  }

  function Selected(d: Db, today: Day): set<Id> {
    set id | id in d.leases && Expiring(d.leases[id], today)
  }

  /** The state after one lease's writes and whether they went through (`processedCount`)
      or threw (`failedCount`); writes made before a throw are kept. */
  datatype Step = Step(db: Db, ok: bool)

  predicate TenantHasOtherActive(leases: map<Id, Lease>, tenantId: Id, leaseId: Id) {
    exists k :: k in leases && k != leaseId && leases[k].tenantId == tenantId && leases[k].status == Active
  }

  /** Another Active or Draft lease on the unit. */
  predicate UnitHasOtherLease(leases: map<Id, Lease>, unitId: Id, leaseId: Id) {
    exists k :: k in leases && k != leaseId && leases[k].unitId == unitId
      && (leases[k].status == Active || leases[k].status == Draft)
  }

  predicate HasBedrooms(bedrooms: map<Id, Bedroom>, unitId: Id) {
    exists b :: b in bedrooms && bedrooms[b].unitId == unitId
  }

  /** The unit's status once one of its bedrooms was released: Vacant when it has bedrooms,
      all vacant, and no other lease; Occupied when a bedroom is occupied; Vacant when no
      bedroom is occupied and there is no other lease; otherwise as it was. */
  function RecomputedStatus(bedrooms: map<Id, Bedroom>, unitId: Id, current: UnitStatus, others: bool): (s: UnitStatus)
    ensures s == current || s == Vacant || s == Occupied
    ensures s == Vacant && current != Vacant ==> AllBedroomsVacant(bedrooms, unitId)
  {
    SomeBedroomOccupied(bedrooms, unitId);
    if HasBedrooms(bedrooms, unitId) && AllBedroomsVacant(bedrooms, unitId) && !others then Vacant
    else if AnyBedroomOccupied(bedrooms, unitId) then Occupied
    else if !others then Vacant
    else current
  }

  /** The unit and bedroom tables after a lease's release, and whether it went through. */
  datatype Held = Held(units: map<Id, Unit>, bedrooms: map<Id, Bedroom>, ok: bool)

  /** A full-unit lease frees the unit and its bedrooms unless the unit (as read when the
      leases were selected) is Under Maintenance or holds another Active or Draft lease.
      A bedroom lease frees its bedroom; then, unless the unit is Under Maintenance, the
      unit's status is recomputed. Reading the unit of a lease whose unit is gone throws,
      and so does writing a bedroom that is gone. */
  function ReleaseHeld(units0: map<Id, Unit>, units: map<Id, Unit>, bedrooms: map<Id, Bedroom>,
                       leases: map<Id, Lease>, l: Lease, id: Id): (h: Held)
    requires units0.Keys == units.Keys
    ensures h.units.Keys == units.Keys
  {
    var u := l.unitId;
    if l.bedroomId.None? then
      if u !in units0 then Held(units, bedrooms, false)
      else if units0[u].status == UnderMaintenance || UnitHasOtherLease(leases, u, id) then Held(units, bedrooms, true)
      else Held(SetUnitStatus(units, u, Vacant), SetUnitBedrooms(bedrooms, u, RoomVacant), true)
    else
      var b := l.bedroomId.value;
      if b !in bedrooms then Held(units, bedrooms, false)
      else
        var rooms := bedrooms[b := bedrooms[b].(status := RoomVacant)];
        if u !in units0 then Held(units, rooms, false)
        else if units0[u].status == UnderMaintenance then Held(units, rooms, true)
        else
          var s := RecomputedStatus(rooms, u, units[u].status, UnitHasOtherLease(leases, u, id));
          Held(SetUnitStatus(units, u, s), rooms, true)
  }

  /** The user table after a lease's unlinking, and whether it went through. */
  datatype Unlinked = Unlinked(users: map<Id, User>, ok: bool)

  /** The lease's residents are detached; then, unless the tenant holds another Active
      lease, the tenant loses its unit, bedroom and building, which throws when the tenant
      row is missing. */
  function UnlinkedUsers(users: map<Id, User>, leases: map<Id, Lease>, tenantId: Id, id: Id): Unlinked {
    var detached := DetachResidents(users, id);
    if TenantHasOtherActive(leases, tenantId, id) then Unlinked(detached, true)
    else if tenantId !in detached then Unlinked(detached, false)
    else Unlinked(ClearTenantRefs(detached, tenantId), true)
  }

  /** The four tables the sweep writes, and whether the lease's writes went through. */
  datatype Tables = Tables(
    leases: map<Id, Lease>, users: map<Id, User>, units: map<Id, Unit>, bedrooms: map<Id, Bedroom>, ok: bool)

  /** One selected lease's writes, in order: Expired, unlinking, release. */
  function ExpireRows(units0: map<Id, Unit>, leases: map<Id, Lease>, users: map<Id, User>,
                      units: map<Id, Unit>, bedrooms: map<Id, Bedroom>, id: Id): (t: Tables)
    requires units0.Keys == units.Keys && id in leases
    ensures t.units.Keys == units.Keys
  {
    var l := leases[id];
    var expired := leases[id := l.(status := Expired)];
    var u := UnlinkedUsers(users, leases, l.tenantId, id);
    if !u.ok then Tables(expired, u.users, units, bedrooms, false)
    else
      var h := ReleaseHeld(units0, units, bedrooms, leases, l, id);
      Tables(expired, u.users, h.units, h.bedrooms, h.ok)
  }

  /** The body of the loop for one selected lease; a lease that is gone fails its update. */
  function ExpireOne(units0: map<Id, Unit>, d: Db, id: Id): (s: Step)
    requires units0.Keys == d.units.Keys
    ensures s.db.units.Keys == d.units.Keys
  {
    if id !in d.leases then Step(d, false)
    else
      var t := ExpireRows(units0, d.leases, d.users, d.units, d.bedrooms, id);
      Step(d.(leases := t.leases, users := t.users, units := t.units, bedrooms := t.bedrooms), t.ok)
  }

  /** The sweep over the selected leases in the order given: the final state, and the
      processed and failed counts. */
  function Sweep(units0: map<Id, Unit>, d: Db, order: seq<Id>): (r: (Db, nat, nat))
    requires units0.Keys == d.units.Keys
    ensures r.1 + r.2 == |order|
    decreases |order|
  {
    if order == [] then (d, 0, 0)
    else
      var s := ExpireOne(units0, d, order[0]);
      var rest := Sweep(units0, s.db, order[1..]);
      (rest.0, rest.1 + (if s.ok then 1 else 0), rest.2 + (if s.ok then 0 else 1))
  }

  /** One turn of the sweep: the first lease, then the rest. */
  lemma SweepUnfolds(units0: map<Id, Unit>, d: Db, order: seq<Id>, after: Db, ok: bool)
    requires order != [] && units0.Keys == d.units.Keys
    requires Step(after, ok) == ExpireOne(units0, d, order[0])
    ensures units0.Keys == after.units.Keys
    ensures var r, rest := Sweep(units0, d, order), Sweep(units0, after, order[1..]);
      r.0 == rest.0 && r.1 == rest.1 + (if ok then 1 else 0) && r.2 == rest.2 + (if ok then 0 else 1)
  {
    var s := ExpireOne(units0, d, order[0]);
    assert s.db == after && s.ok == ok;
  }

  method ExpireLeases(db: Database, today: Day, order: seq<Id>) returns (processed: nat, failed: nat)
    requires Enumerates(order, Selected(db.State(), today))
    modifies db
    ensures var r := Sweep(old(db.units), old(db.State()), order);
      db.State() == r.0 && processed == r.1 && failed == r.2
  {
    var units0 := db.units;
    processed, failed := 0, 0;
    for i := 0 to |order|
      invariant units0.Keys == db.units.Keys
      invariant var rest, all := Sweep(units0, db.State(), order[i..]), Sweep(units0, old(db.State()), order);
        rest.0 == all.0 && processed + rest.1 == all.1 && failed + rest.2 == all.2
    {
      ghost var before := db.State();
      var ok := ExpireLease(db, units0, order[i]);
      SweepUnfolds(units0, before, order[i..], db.State(), ok);
      assert order[i..][1..] == order[i + 1..];
      if ok {
        processed := processed + 1;
      } else {
        failed := failed + 1;
      }
    }
  }

  method ExpireLease(db: Database, units0: map<Id, Unit>, id: Id) returns (ok: bool)
    requires units0.Keys == db.units.Keys
    modifies db
    ensures Step(db.State(), ok) == ExpireOne(units0, old(db.State()), id)
  {
    if id !in db.leases {
      return false;
    }
    ok := ExpireLeaseRows(db, units0, id);
  }

  method ExpireLeaseRows(db: Database, units0: map<Id, Unit>, id: Id) returns (ok: bool)
    requires units0.Keys == db.units.Keys && id in db.leases
    modifies db`leases, db`users, db`units, db`bedrooms
    ensures Tables(db.leases, db.users, db.units, db.bedrooms, ok)
      == ExpireRows(units0, old(db.leases), old(db.users), old(db.units), old(db.bedrooms), id)
  {
    var l := db.leases[id];
    var before := db.leases;
    db.leases := db.leases[id := l.(status := Expired)];
    ok := UnlinkUsers(db, before, l.tenantId, id);
    if ok {
      ok := ReleaseLeaseHolding(db, units0, before, l, id);
    }
  }

  method UnlinkUsers(db: Database, leases: map<Id, Lease>, tenantId: Id, id: Id) returns (ok: bool)
    modifies db`users
    ensures Unlinked(db.users, ok) == UnlinkedUsers(old(db.users), leases, tenantId, id)
  {
    db.users := DetachResidents(db.users, id);
    if !TenantHasOtherActive(leases, tenantId, id) {
      if tenantId !in db.users {
        return false;
      }
      db.users := ClearTenantRefs(db.users, tenantId);
    }
    ok := true;
  }

  method ReleaseLeaseHolding(db: Database, units0: map<Id, Unit>, leases: map<Id, Lease>, l: Lease, id: Id)
    returns (ok: bool)
    requires units0.Keys == db.units.Keys
    modifies db`units, db`bedrooms
    ensures Held(db.units, db.bedrooms, ok) == ReleaseHeld(units0, old(db.units), old(db.bedrooms), leases, l, id)
  {
    var u := l.unitId;
    if l.bedroomId.None? {
      if u !in units0 {
        return false;
      }
      if units0[u].status != UnderMaintenance && !UnitHasOtherLease(leases, u, id) {
        db.units := SetUnitStatus(db.units, u, Vacant);
        db.bedrooms := SetUnitBedrooms(db.bedrooms, u, RoomVacant);
      }
      return true;
    }
    var b := l.bedroomId.value;
    if b !in db.bedrooms {
      return false;
    }
    db.bedrooms := db.bedrooms[b := db.bedrooms[b].(status := RoomVacant)];
    if u !in units0 {
      return false;
    }
    if units0[u].status != UnderMaintenance {
      var s := RecomputedStatus(db.bedrooms, u, db.units[u].status, UnitHasOtherLease(leases, u, id));
      db.units := SetUnitStatus(db.units, u, s);
    }
    ok := true;
  }

  // ---------------------------------------------------------------------------------
  // What one lease's writes do
  // ---------------------------------------------------------------------------------

  /** The lease's residents no longer point at it. When the tenant holds another Active
      lease its row is otherwise left alone; when it does not, the tenant loses its unit,
      bedroom and building, and the writes fail only if the tenant row is missing. */
  lemma UnlinkRules(users: map<Id, User>, leases: map<Id, Lease>, tenantId: Id, id: Id)
    ensures var r := UnlinkedUsers(users, leases, tenantId, id);
      r.users.Keys == users.Keys
      && forall k :: k in r.users && r.users[k].kind == Resident ==> r.users[k].leaseId != Some(id)
    ensures var r := UnlinkedUsers(users, leases, tenantId, id);
      TenantHasOtherActive(leases, tenantId, id) ==>
        r.ok && forall k :: k in users && users[k].kind != Resident ==> r.users[k] == users[k]
    ensures var r := UnlinkedUsers(users, leases, tenantId, id);
      !TenantHasOtherActive(leases, tenantId, id) ==>
        (r.ok <==> tenantId in users)
        && (tenantId in users ==>
              r.users[tenantId].unitId.None? && r.users[tenantId].bedroomId.None? && r.users[tenantId].buildingId.None?)
  {
  }

  /** A full-unit lease: the unit and all its bedrooms become Vacant exactly when the unit
      was not Under Maintenance and no other Active or Draft lease is on it; otherwise
      nothing changes. */
  lemma FullUnitRelease(units0: map<Id, Unit>, units: map<Id, Unit>, bedrooms: map<Id, Bedroom>,
                        leases: map<Id, Lease>, l: Lease, id: Id)
    requires units0.Keys == units.Keys && l.bedroomId.None? && l.unitId in units0
    ensures var h := ReleaseHeld(units0, units, bedrooms, leases, l, id);
      h.ok
      && (units0[l.unitId].status != UnderMaintenance && !UnitHasOtherLease(leases, l.unitId, id) ==>
            h.units[l.unitId].status == Vacant && AllBedroomsVacant(h.bedrooms, l.unitId))
      && (units0[l.unitId].status == UnderMaintenance || UnitHasOtherLease(leases, l.unitId, id) ==>
            h.units == units && h.bedrooms == bedrooms)
  {
  }

  /** A bedroom lease: its bedroom always becomes Vacant. An Under Maintenance unit is left
      alone; otherwise the unit is Vacant when it has bedrooms, all vacant, and no other
      lease; Occupied when a bedroom is still occupied; Vacant when none is occupied and no
      other lease is on it; otherwise unchanged. */
  lemma BedroomRelease(units0: map<Id, Unit>, units: map<Id, Unit>, bedrooms: map<Id, Bedroom>,
                       leases: map<Id, Lease>, l: Lease, id: Id)
    requires units0.Keys == units.Keys && l.bedroomId.Some? && l.bedroomId.value in bedrooms
    ensures var h := ReleaseHeld(units0, units, bedrooms, leases, l, id);
      l.bedroomId.value in h.bedrooms && h.bedrooms[l.bedroomId.value].status == RoomVacant
      && (h.ok <==> l.unitId in units0)
      && (l.unitId in units0 && units0[l.unitId].status == UnderMaintenance ==> h.units == units)
    ensures var h, u := ReleaseHeld(units0, units, bedrooms, leases, l, id), l.unitId;
      u in units0 && units0[u].status != UnderMaintenance ==>
        (HasBedrooms(h.bedrooms, u) && AllBedroomsVacant(h.bedrooms, u) && !UnitHasOtherLease(leases, u, id) ==>
           h.units[u].status == Vacant)
        && (AnyBedroomOccupied(h.bedrooms, u) ==> h.units[u].status == Occupied)
        && (!AnyBedroomOccupied(h.bedrooms, u) && !UnitHasOtherLease(leases, u, id) ==> h.units[u].status == Vacant)
        && (!AnyBedroomOccupied(h.bedrooms, u) && UnitHasOtherLease(leases, u, id) ==> h.units == units)
  {
    var b := l.bedroomId.value;
    var rooms := bedrooms[b := bedrooms[b].(status := RoomVacant)];
    if HasBedrooms(rooms, l.unitId) && AllBedroomsVacant(rooms, l.unitId) {
      NoneOccupied(rooms, l.unitId);
    }
  }

  /** A unit that has bedrooms, all vacant, has none occupied. */
  lemma NoneOccupied(bedrooms: map<Id, Bedroom>, unitId: Id)
    requires AllBedroomsVacant(bedrooms, unitId)
    ensures !AnyBedroomOccupied(bedrooms, unitId)
  {
  }

  /** A release never occupies a bedroom and never moves one to another unit. */
  predicate NeverOccupies(before: map<Id, Bedroom>, after: map<Id, Bedroom>) {
    before.Keys == after.Keys
    && forall b :: b in after ==>
         after[b].unitId == before[b].unitId
         && (after[b].status == RoomOccupied ==> before[b].status == RoomOccupied)
  }

  /** No unit row appears or vanishes, and a unit is Under Maintenance exactly when it was
      so at selection time. */
  predicate MaintenanceAgrees(units0: map<Id, Unit>, units: map<Id, Unit>) {
    units0.Keys == units.Keys
    && forall u :: u in units ==> (units[u].status == UnderMaintenance <==> units0[u].status == UnderMaintenance)
  }

  /** A unit the release turns Vacant has no occupied bedroom left; no bedroom is occupied
      by it; Under Maintenance units keep their status and no unit enters maintenance. */
  lemma ReleaseInvariants(units0: map<Id, Unit>, units: map<Id, Unit>, bedrooms: map<Id, Bedroom>,
                          leases: map<Id, Lease>, l: Lease, id: Id)
    requires MaintenanceAgrees(units0, units)
    ensures var h := ReleaseHeld(units0, units, bedrooms, leases, l, id);
      MaintenanceAgrees(units0, h.units) && NeverOccupies(bedrooms, h.bedrooms)
    ensures var h := ReleaseHeld(units0, units, bedrooms, leases, l, id);
      forall u :: u in h.units && h.units[u].status == Vacant && units[u].status != Vacant ==>
        AllBedroomsVacant(h.bedrooms, u)
  {
  }

  lemma ExpireOneInvariants(units0: map<Id, Unit>, d: Db, id: Id)
    requires MaintenanceAgrees(units0, d.units)
    ensures var s := ExpireOne(units0, d, id);
      MaintenanceAgrees(units0, s.db.units) && NeverOccupies(d.bedrooms, s.db.bedrooms)
    ensures var s := ExpireOne(units0, d, id);
      forall u :: u in s.db.units && s.db.units[u].status == Vacant && d.units[u].status != Vacant ==>
        AllBedroomsVacant(s.db.bedrooms, u)
  {
    if id in d.leases {
      var l := d.leases[id];
      ReleaseInvariants(units0, d.units, d.bedrooms, d.leases, l, id);
    }
  }

  /** Among the leases only the visited one changes, and only its status, to Expired. */
  lemma ExpireOneLeases(units0: map<Id, Unit>, d: Db, id: Id)
    requires units0.Keys == d.units.Keys
    ensures ExpireOne(units0, d, id).db.leases
      == if id in d.leases then d.leases[id := d.leases[id].(status := Expired)] else d.leases
  {
  }

  lemma NeverOccupiesKeepsVacant(b1: map<Id, Bedroom>, b2: map<Id, Bedroom>, unitId: Id)
    requires NeverOccupies(b1, b2) && AllBedroomsVacant(b1, unitId)
    ensures AllBedroomsVacant(b2, unitId)
  {
    forall b | b in b2 && b2[b].unitId == unitId ensures b2[b].status == RoomVacant {
      assert b1[b].status == RoomVacant;
    }
  }

  // ---------------------------------------------------------------------------------
  // What the whole sweep does
  // ---------------------------------------------------------------------------------

  /** Over the whole sweep: no unit enters or leaves maintenance, no bedroom becomes
      occupied, and a unit the sweep turned Vacant has every bedroom vacant. */
  lemma {:induction false} SweepInvariants(units0: map<Id, Unit>, d: Db, order: seq<Id>)
    requires MaintenanceAgrees(units0, d.units)
    ensures var r := Sweep(units0, d, order).0;
      MaintenanceAgrees(units0, r.units) && NeverOccupies(d.bedrooms, r.bedrooms)
    ensures var r := Sweep(units0, d, order).0;
      forall u :: u in r.units && r.units[u].status == Vacant && d.units[u].status != Vacant ==>
        AllBedroomsVacant(r.bedrooms, u)
    decreases |order|
  {
    if order != [] {
      var s := ExpireOne(units0, d, order[0]);
      ExpireOneInvariants(units0, d, order[0]);
      SweepInvariants(units0, s.db, order[1..]);
      var r := Sweep(units0, d, order).0;
      forall u | u in r.units && r.units[u].status == Vacant && d.units[u].status != Vacant
        ensures AllBedroomsVacant(r.bedrooms, u)
      {
        if s.db.units[u].status == Vacant {
          NeverOccupiesKeepsVacant(s.db.bedrooms, r.bedrooms, u);
        }
      }
    }
  }

  /** The sweep sets exactly the leases it visits to Expired and changes nothing else
      about any lease. */
  lemma {:induction false} SweepLeases(units0: map<Id, Unit>, d: Db, order: seq<Id>)
    requires units0.Keys == d.units.Keys
    ensures var r := Sweep(units0, d, order).0;
      r.leases.Keys == d.leases.Keys
      && forall k :: k in d.leases ==>
           r.leases[k] == if k in order then d.leases[k].(status := Expired) else d.leases[k]
    decreases |order|
  {
    if order != [] {
      var s := ExpireOne(units0, d, order[0]);
      ExpireOneLeases(units0, d, order[0]);
      SweepLeases(units0, s.db, order[1..]);
      forall k | k in d.leases
        ensures Sweep(units0, d, order).0.leases[k]
          == if k in order then d.leases[k].(status := Expired) else d.leases[k]
      {
        assert k in order <==> k == order[0] || k in order[1..];
      }
    }
  }

  /** Run on the leases the query selects: precisely the Active leases that ended before
      today become Expired, every other lease is left as it was, no Under Maintenance unit
      changes, and processed plus failed is the number of selected leases. */
  lemma ExpirySweep(d: Db, today: Day, order: seq<Id>)
    requires Enumerates(order, Selected(d, today))
    ensures var r := Sweep(d.units, d, order);
      r.0.leases.Keys == d.leases.Keys
      && (forall k :: k in d.leases ==>
            r.0.leases[k] == if Expiring(d.leases[k], today) then d.leases[k].(status := Expired) else d.leases[k])
      && (forall u :: UnitIs(r.0, u, UnderMaintenance) <==> UnitIs(d, u, UnderMaintenance))
      && r.1 + r.2 == |Selected(d, today)|
  {
    SweepLeases(d.units, d, order);
    SweepInvariants(d.units, d, order);
    EnumeratesCount(order, Selected(d, today));
  }
}
