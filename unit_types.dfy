/** The registry of unit types, loaded once and never changed, and the
    constants of the simulation. */
module UnitTypes {
  import opened Components

  /** One row of the registry. `cost` and `color` are informational; the
      simulation reads the stats and the target priority. */
  datatype UnitTypeConfig = UnitTypeConfig(
    typeId: string,
    name: string,
    color: string,
    health: real,
    damage: real,
    range: real,
    reloadTime: real,
    accuracy: real,
    moveSpeed: real,
    targetPriority: Priority,
    cost: real)

  const Registry: map<string, UnitTypeConfig> := map[
    "assault" := UnitTypeConfig("assault", "Assault", "#ff6b6b", 100.0, 15.0, 150.0, 0.4, 0.85, 100.0, Closest, 100.0),
    "sniper" := UnitTypeConfig("sniper", "Sniper", "#4ecdc4", 60.0, 40.0, 350.0, 2.0, 0.95, 60.0, LowestHealth, 150.0),
    "tank" := UnitTypeConfig("tank", "Tank", "#45b7d1", 250.0, 10.0, 100.0, 1.2, 0.75, 50.0, HighestThreat, 120.0),
    "scout" := UnitTypeConfig("scout", "Scout", "#f9ca24", 50.0, 8.0, 180.0, 0.5, 0.80, 150.0, Closest, 80.0),
    "melee" := UnitTypeConfig("melee", "Melee", "#e056fd", 30.0, 35.0, 30.0, 0.6, 0.95, 120.0, Closest, 110.0),
    "heavyTank" := UnitTypeConfig("heavyTank", "Heavy Tank", "#686de0", 400.0, 15.0, 120.0, 1.5, 0.70, 35.0, HighestThreat, 200.0)
  ]

  const BulletSpeed: real := 300.0

  /** The stats a config must have for the simulation's reasoning to hold:
      positive health, damage, range, reload time and speed, and an accuracy
      that is a probability. */
  predicate ConfigSound(c: UnitTypeConfig) {
    c.health > 0.0 && c.damage > 0.0 && c.range > 0.0 && c.reloadTime > 0.0 && c.moveSpeed > 0.0
    && 0.0 <= c.accuracy <= 1.0
  }

  /** `UNIT_TYPES[unitType]`: the config of a registered type, or nothing. */
  function LookupUnitType(t: string): (r: Option<UnitTypeConfig>)
    ensures r.Some? <==> t in Registry
    ensures r.Some? ==> r.value.typeId == t && ConfigSound(r.value)
  {
    if t in Registry then Some(Registry[t]) else None
  }

  /** Exactly the six types are registered, and bullets fly at 300. */
  lemma RegistryKeys()
    ensures Registry.Keys == {"assault", "sniper", "tank", "scout", "melee", "heavyTank"}
    ensures |Registry| == 6
    ensures BulletSpeed == 300.0
  {
    assert Registry.Keys == {"assault", "sniper", "tank", "scout", "melee", "heavyTank"};
  }

  /** The target priority is fixed per type: the fighters go for the closest
      enemy, the sniper for the weakest, the tanks for the most threatening. */
  lemma RegistryPriorities()
    ensures Registry["assault"].targetPriority == Closest
    ensures Registry["scout"].targetPriority == Closest
    ensures Registry["melee"].targetPriority == Closest
    ensures Registry["sniper"].targetPriority == LowestHealth
    ensures Registry["tank"].targetPriority == HighestThreat
    ensures Registry["heavyTank"].targetPriority == HighestThreat
  {
  }
}
