/** The configured unit types: the five names a unit's type may take, the check a
    request's type must pass, and the copy of the list handed to callers. */
module UnitTypeConfig {
  import opened Wrappers

  const ValidUnitTypes: seq<string> := ["Mackenzie", "Nelson", "Hudson", "Richelieu", "Rupert"]

  /** A missing or empty type is allowed (the field is optional); any other must be one
      of the configured names, compared exactly. */
  function IsValidUnitType(unitType: Option<string>): (ok: bool)
    ensures unitType.None? || unitType.value == "" ==> ok
    ensures unitType.Some? && unitType.value != "" ==> (ok <==> exists i :: 0 <= i < |ValidUnitTypes| && ValidUnitTypes[i] == unitType.value)
  {
    unitType.None? || unitType.value == "" || unitType.value in ValidUnitTypes
  }

  /** getValidUnitTypes: a new array holding the configured names in order; writing to it
      leaves the configuration as it was. */
  method GetValidUnitTypes() returns (a: array<string>)
    ensures fresh(a) && a[..] == ValidUnitTypes
  {
    a := new string[|ValidUnitTypes|](i requires 0 <= i < |ValidUnitTypes| => ValidUnitTypes[i]);
  }
}
