/** The pure helpers of the seed script: reading a unit's floor and type off its number
    ("82-101"), the bedroom count of each type, and the bedrooms a seeded unit receives. */
module Seed {
  import opened Wrappers
  import opened Text
  import opened Keys
  import opened Store

  const UnitTypes: seq<string> := ["Mackenzie", "Nelson", "Hudson", "Richelieu", "Rupert"]

  /** `parseInt` of a string of at most one character: its digit, or None for NaN. */
  function DigitOf(c: string): (r: Option<nat>)
    requires |c| <= 1
    ensures r.Some? ==> r.value < 10
  {
    if |c| == 1 && IsDigit(c[0]) then Some(DigitValue(c[0])) else None
  }

  /** `s.charAt(0)` */
  function FirstChar(s: string): (c: string)
    ensures |c| <= 1
  {
    if s == [] then "" else [s[0]]
  }

  /** `s.slice(-1)` */
  function LastChar(s: string): (c: string)
    ensures |c| <= 1
  {
    if s == [] then "" else [s[|s| - 1]]
  }

  /** getFloorFromUnitNumber: with exactly one dash, the first character after it read as
      a digit (None when it is not one); otherwise floor 1. */
  function Floor(unitNumber: string): (r: Option<nat>)
    ensures r.Some? ==> r.value < 10
  {
    var parts := Split(unitNumber, '-');
    if |parts| == 2 then DigitOf(FirstChar(parts[1])) else Some(1)
  }

  /** getUnitType's outcomes: it throws when the number has no dash, and answers
      `undefined` when its floor is NaN. */
  datatype TypeOutcome = Throws | NoType | Typed(name: string)

  /** A unit number ending in 1 is a Mackenzie, one ending in 2 a Nelson; any other takes
      the type at its floor modulo five. */
  function UnitType(unitNumber: string): (r: TypeOutcome)
    ensures r.Typed? ==> r.name in UnitTypes
  {
    var parts := Split(unitNumber, '-');
    if |parts| < 2 then Throws
    else
      var last := DigitOf(LastChar(parts[1]));
      if last == Some(1) then Typed("Mackenzie")
      else if last == Some(2) then Typed("Nelson")
      else
        match Floor(unitNumber)
        case None => NoType
        case Some(f) => Typed(UnitTypes[f % |UnitTypes|])
  }

  /** getBedroomsCount: by type, three for a type it does not know. */
  function BedroomsCount(unitType: Option<string>): (n: nat)
    ensures 1 <= n <= 3
    ensures unitType.None? || unitType.value !in UnitTypes ==> n == 3
  {
    if unitType == Some("Rupert") then 1
    else if unitType == Some("Hudson") || unitType == Some("Richelieu") then 2
    else 3
  }

  function TypeName(t: TypeOutcome): Option<string> {
    if t.Typed? then Some(t.name) else None
  }

  /** Bedroom i of a seeded unit: `unitNumber-(i+1)`, room number i+1, Vacant. */
  function SeedBedrooms(unitId: Id, unitNumber: string, count: nat): (r: seq<Bedroom>)
    ensures |r| == count
    ensures forall i :: 0 <= i < count ==> r[i].unitId == unitId && r[i].roomNumber == i + 1 && r[i].status == RoomVacant
  {
    seq(count, i requires 0 <= i < count => Bedroom(unitId, unitNumber + "-" + Decimal(i + 1), i + 1, RoomVacant))
  }

  /** The bedrooms of a seeded unit have distinct names, each its unit's number, a dash and
      its room number. */
  lemma SeedBedroomNames(unitId: Id, unitNumber: string, count: nat, i: nat, j: nat)
    requires i < count && j < count
    ensures var r := SeedBedrooms(unitId, unitNumber, count);
      && r[i].bedroomNumber == unitNumber + "-" + Decimal(r[i].roomNumber)
      && (i != j ==> r[i].bedroomNumber != r[j].bedroomNumber)
  {
    if i != j {
      NumberedDistinct(unitNumber + "-", i + 1, j + 1);
    }
  }

  // ---------------------------------------------------------------------------------
  // The seed data: buildings 82 to 97, eight units each, two per floor on floors 1 to 4
  // ---------------------------------------------------------------------------------

  /** `civic-F0S`: floor F, unit S on that floor. */
  function UnitNumber(civic: string, floor: nat, side: nat): string
    requires floor < 10 && side < 10
  {
    civic + "-" + [DigitChar(floor), '0', DigitChar(side)]
  }

  function BuildingUnits(civic: string): (r: seq<string>)
    ensures |r| == 8
  {
    seq(8, i requires 0 <= i < 8 => UnitNumber(civic, i / 2 + 1, i % 2 + 1))
  }

  function Buildings(): (r: seq<string>)
    ensures |r| == 16
  {
    seq(16, i requires 0 <= i < 16 => Decimal(82 + i))
  }

  /** For a number of the seed's form the floor is its first digit after the dash, and
      the type depends only on its last digit. */
  lemma ReadUnitNumber(civic: string, floor: nat, side: nat)
    requires AllDigits(civic) && floor < 10 && side < 10
    ensures Floor(UnitNumber(civic, floor, side)) == Some(floor)
    ensures side == 1 ==> UnitType(UnitNumber(civic, floor, side)) == Typed("Mackenzie")
    ensures side == 2 ==> UnitType(UnitNumber(civic, floor, side)) == Typed("Nelson")
    ensures side != 1 && side != 2 ==> UnitType(UnitNumber(civic, floor, side)) == Typed(UnitTypes[floor % 5])
  {
    var tail := [DigitChar(floor), '0', DigitChar(side)];
    assert UnitNumber(civic, floor, side) == civic + ['-'] + tail;
    SplitOnce(civic, tail, '-');
  }

  /** Every seeded unit ends in 1 or 2, so the seed makes only Mackenzie and Nelson units,
      each with three bedrooms, on floors 1 to 4: the floor-based fallback never applies. */
  lemma SeedUnitsAreThreeBedroom(b: nat, u: nat)
    requires b < 16 && u < 8
    ensures var n := BuildingUnits(Buildings()[b])[u];
      && Floor(n) == Some(u / 2 + 1)
      && UnitType(n) == (if u % 2 == 0 then Typed("Mackenzie") else Typed("Nelson"))
      && BedroomsCount(TypeName(UnitType(n))) == 3
  {
    ReadUnitNumber(Decimal(82 + b), u / 2 + 1, u % 2 + 1);
  }
}
