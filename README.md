# Autobattler battle simulation, modelled in Dafny

This project models the per-frame battle simulation of a small browser
autobattler, and proves properties about that model. The game lets two
teams of units (`player` and `enemy`) fight on a 2-D playfield. It keeps
its state in an entity-component store. Each entity is a record with
optional components: position, health, combat, target, unit type, team,
sprite, bullet, dead marker, movement and initial state.

While a battle is on and undecided, every frame runs five systems in a
fixed order:

- **targeting**: each unit keeps a live enemy within range, or picks a new
  one by its type's priority: `closest`, `lowest-health` or
  `highest-threat`.
- **movement**: each unit steps toward its target until it is within its
  engagement range, which is nine tenths of its weapon range.
- **combat**: each reloaded unit within range shoots. The accuracy roll
  decides whether a bullet is spawned.
- **bullets**: bullets fly along their fixed direction, and those outside
  the playfield are removed.
- **death**: dead or zero-health units are removed, and the remaining head
  counts decide the round's result.

Between rounds, *reset* puts every unit back to its placement snapshot, and
*clear* empties the world.

Modules, one per source file:

- `Components`: the entity record (`components/index.ts`).
- `Ecs`: the store and its filtered views (`lib/ecs.ts`). It also holds the
  `World` class, which owns the records together with the id counter.
- `UnitTypes`: the registry of the six unit types (`config/unitTypes.ts`).
- `Entities`: the factory, removal, the tag format and the bullet hit
  handler (`entities/index.ts`).
- One module per system: `Targeting`, `Movement`, `Combat`, `Bullets`,
  `Death` and `Reset`.
- `Tick`: the frame handler of `GameCanvas.tsx`.

Each system is an imperative module-level method, named `Update…`, that
takes the `World` and declares `modifies w`. Its postcondition equates the
new world with a value-level specification function of the old one. The properties are lemmas about those functions:

- what a selector loop computes;
- that targeting does not depend on processing order;
- what a shot spawns;
- which bullets leave;
- that death and reset are idempotent;
- that a whole battle frame keeps ids unique and increasing, and keeps
  health within bounds.

Numbers are real numbers. The engine's floating-point geometry is supplied
as a `Geometry(dist, unit)` value. The engine's `move(v)` is written out as
`p + v·dt`.

The collision handler is a closure made by `createBullet`. It captures the
bullet record, the shooter's id and the damage, and it never looks the
bullet up again. The model passes those captured values to
`Entities.OnHit`. A second report for a bullet already consumed therefore
strikes again, as it does in the source. As written, the handler reads
`entities.units`, a name its file never imports (see "## Findings"). The
rest of the model uses the evident meaning: the owner and the struck unit
are looked up in the `units` view.

## Model

| member | source | states |
|---|---|---|
| Components.WithPos | src/features/game/components/index.ts:39-41 | moving an entity's engine object sets that object's position, keeps its tags, direction and speed, and leaves every other component of the record unchanged |
| Ecs.Units | src/lib/ecs.ts:8 | the units view holds exactly the records with position, health, combat, team and unit type |
| Ecs.Bullets | src/lib/ecs.ts:9 | the bullets view holds exactly the records with a bullet and a sprite |
| Ecs.AliveEntities | src/lib/ecs.ts:10 | the alive view holds exactly the records with health and no dead marker |
| Ecs.DeadEntities | src/lib/ecs.ts:11 | the dead view holds exactly the records with a dead marker |
| Ecs.WithTarget | src/lib/ecs.ts:12 | the target view holds exactly the records with a target |
| Ecs.Moving | src/lib/ecs.ts:13 | the moving view holds exactly the records with movement and a position |
| Ecs.Filter | src/lib/ecs.ts:8-13 | a view keeps exactly the records that satisfy its predicate, and is never longer than the world |
| Ecs.RemoveIds | src/features/game/entities/index.ts:180-185 | removal keeps exactly the records whose id is not removed, and never grows the world |
| Ecs.RemoveIdsTwice | src/features/game/entities/index.ts:180-185 | removing one batch of ids and then another is the same as removing both at once |
| Ecs.RemoveNothing | src/features/game/entities/index.ts:180-185 | removing ids that no record carries leaves the world unchanged |
| Ecs.IdsUnique | src/features/game/entities/index.ts:6 | in a world whose ids increase, no two positions share an id |
| Ecs.RemoveIdsWellFormed | src/features/game/entities/index.ts:180-185 | removal keeps ids increasing and below the counter |
| Ecs.AppendWellFormed | src/features/game/entities/index.ts:6 | appending a record that takes the counter's id, then raising the counter, keeps the id discipline |
| Ecs.FindUnit | src/features/game/systems/MovementSystem.ts:19 | the lookup by id in the units view returns the first unit with that id, or nothing when no unit has it |
| Ecs.FindEntity | src/features/game/entities/index.ts:173 | the lookup by id in the whole world returns the first record with that id, or nothing |
| Ecs.RemoveIdsSane | src/features/game/entities/index.ts:180-185 | removal keeps every remaining record's health in bounds |
| Ecs.World.constructor | src/lib/ecs.ts:4 | a new world is empty and its id counter starts at 1 |
| UnitTypes.LookupUnitType | src/features/game/config/unitTypes.ts:15-94 | a type string is found exactly when it is registered; the config found carries that type name and sound stats (positive health, damage, range, reload and speed; accuracy in [0, 1]) |
| UnitTypes.RegistryKeys | src/features/game/config/unitTypes.ts:15-98 | exactly the six types assault, sniper, tank, scout, melee and heavyTank are registered, and bullets fly at 300 |
| UnitTypes.RegistryPriorities | src/features/game/config/unitTypes.ts:15-94 | assault, scout and melee target the closest enemy, sniper the lowest health, tank and heavyTank the highest threat |
| Entities.NatToStringValue | src/features/game/entities/index.ts:31-33 | the decimal spelling of an id is all digits and reads back as that id |
| Entities.DigitsArePrefix | src/features/game/entities/index.ts:160 | `parseInt` of the piece after `unit-` reads the whole digit string |
| Entities.UnitTagRoundTrip | src/features/game/entities/index.ts:31-33 | the tag `unit-<id>` written at creation is parsed back, by the hit handler's parse of line 160, as exactly that id |
| Entities.FindUnitTag | src/features/game/entities/index.ts:160 | `find` gives nothing exactly when no tag starts with `unit-`; otherwise it gives the first tag that does |
| Entities.ParseHitId | src/features/game/entities/index.ts:160 | an object without a `unit-` tag reads as id 0 through the `|| '0'` fallback; the parse fails (NaN) only when the character after `unit-` is not a digit |
| Entities.UnitRecord | src/features/game/entities/index.ts:72-102 | the unit record built has the allocated id and is in the units and alive views, not the bullets view; it stands at (x, y) on its team with full health (current = max = the config's health); its combat stats come from the config with last shot time 0; its target is null and it has no dead marker; its engagement range is nine tenths of its range, so never beyond it; its snapshot is (x, y, health); its tag parses back to its id; its stats are sane for a sound config |
| Entities.BulletRecord | src/features/game/entities/index.ts:109-152 | the bullet record built has the allocated id and is in the bullets view only; it starts at the muzzle and carries the owner id, damage and speed; its engine object holds the fixed direction `unit(to - from)` and that speed |
| Entities.Damaged | src/features/game/entities/index.ts:165-171 | health falls by the damage; at or below zero it is clamped to exactly 0 and the unit is marked dead; max health and all other components are unchanged |
| Entities.StrikeOf | src/features/game/entities/index.ts:157-163 | a collision counts only when the shooter is a unit and the struck unit is the unit whose id the tags parse to, on another team than the shooter |
| Entities.ApplyHit | src/features/game/entities/index.ts:155-175 | a report never grows the world; either it changes nothing or afterwards no record carries the bullet's id |
| Entities.Strike | src/features/game/entities/index.ts:165-173 | a strike never grows the world, leaves no record with the bullet's id, and every record other than the struck unit was already there |
| Entities.StrikeFacts | src/features/game/entities/index.ts:165-173 | a strike puts the damaged unit in place of the struck one, keeps the id discipline, and for non-negative damage keeps health, damage and snapshot bounds |
| Entities.HitWithoutOwner | src/features/game/entities/index.ts:157-158 | when the shooter is no longer a unit, the report changes nothing |
| Entities.HitFriendly | src/features/game/entities/index.ts:163 | a bullet striking a unit of the shooter's own team changes nothing: no damage is dealt and the bullet is not consumed |
| Entities.HitEnemy | src/features/game/entities/index.ts:161-174 | a report of an enemy unit damages that unit and removes the bullet, and no other record changes; this holds whether or not the bullet is still in the world, so a later report for the same bullet strikes again |
| Entities.HitSane | src/features/game/entities/index.ts:155-175 | a report with non-negative damage keeps health, damage and snapshot bounds and the id discipline |
| Entities.HitAsWrittenDealsNoDamage | src/features/game/entities/index.ts:155-161 | the handler as written changes nothing on an enemy hit: the struck unit stays unharmed and the bullet stays in the world, unlike the intended handler |
| Entities.CreateUnit | src/features/game/entities/index.ts:8-103 | an unknown type fails and changes nothing, the counter included; a known type appends its unit record under the counter's id and raises the counter by one |
| Entities.CreateBullet | src/features/game/entities/index.ts:109-153 | appends the bullet record under the counter's id and raises the counter by one |
| Entities.RemoveEntity | src/features/game/entities/index.ts:180-185 | the record with that id leaves the world and the counter is unchanged |
| Entities.RemoveEach | src/features/game/systems/DeathSystem.ts:13-15 | removing the records of a snapshot one by one is removing all their ids |
| Entities.OnHit | src/features/game/entities/index.ts:155-175 | the closure, with the shooter id and damage it captured, changes the world as the hit function says; the world stays well formed |
| Targeting.Enemies | src/features/game/systems/TargetingSystem.ts:72-74 | the candidates are exactly the units of another team with health, no dead marker and an engine object, with targets blanked |
| Targeting.EnemiesOfWorld | src/features/game/systems/TargetingSystem.ts:72-74 | every candidate is a qualifying unit of the world, and every qualifying unit is a candidate |
| Targeting.ClosestFromIsFirstMinimum | src/features/game/systems/TargetingSystem.ts:12-26 | the closest loop, from any step with an invariant-satisfying best so far, ends with the earliest candidate at minimum distance, or nothing when no candidate has an engine object and health |
| Targeting.ClosestEnemyIsFirstMinimum | src/features/game/systems/TargetingSystem.ts:8-27 | `findClosestEnemy` returns nothing if the unit lacks an engine object or combat, or if no candidate is reachable; otherwise it returns the earliest candidate at minimum distance |
| Targeting.FindClosestEnemy | src/features/game/systems/TargetingSystem.ts:8-27 | the accumulator loop computes the closest-enemy choice |
| Targeting.LowestFromIsFirstMinimum | src/features/game/systems/TargetingSystem.ts:30-42 | the lowest-health loop ends with the earliest candidate at minimum current health, or nothing when no candidate has health |
| Targeting.LowestHealthEnemyIsFirstMinimum | src/features/game/systems/TargetingSystem.ts:29-43 | `findLowestHealthEnemy` returns the earliest candidate of least current health, and nothing only when no candidate has health |
| Targeting.FindLowestHealthEnemy | src/features/game/systems/TargetingSystem.ts:29-43 | the accumulator loop computes the lowest-health choice |
| Targeting.ThreatFromIsFirstMaximum | src/features/game/systems/TargetingSystem.ts:49-64 | the threat loop ends with the earliest candidate of maximum score damage / max(distance, 1), provided that score is positive; otherwise it returns nothing |
| Targeting.HighestThreatEnemyIsFirstMaximum | src/features/game/systems/TargetingSystem.ts:45-65 | `findHighestThreatEnemy` returns nothing without an engine object or when no score is positive; otherwise it returns the earliest candidate of maximum score |
| Targeting.FindHighestThreatEnemy | src/features/game/systems/TargetingSystem.ts:45-65 | the accumulator loop computes the highest-threat choice |
| Targeting.FindById | src/features/game/systems/TargetingSystem.ts:81 | the current target is found among the candidates exactly when one carries its id; a null id matches nothing |
| Targeting.Retarget | src/features/game/systems/TargetingSystem.ts:67-106 | a unit's turn of targeting changes its target component and nothing else |
| Targeting.RetargetSkips | src/features/game/systems/TargetingSystem.ts:69 | a unit lacking an engine object, target, team, unit type or combat is skipped unchanged |
| Targeting.RetargetNoEnemies | src/features/game/systems/TargetingSystem.ts:76-79 | with no candidate in the world the target becomes null |
| Targeting.RetargetKeeps | src/features/game/systems/TargetingSystem.ts:81-89 | a current target that is still a candidate within the unit's range is kept |
| Targeting.RetargetSound | src/features/game/systems/TargetingSystem.ts:76-105 | after its turn a guarded unit's target is null or the id of a live, visible enemy unit with health |
| Targeting.RetargetByPolicy | src/features/game/systems/TargetingSystem.ts:91-105 | a unit re-acquiring picks the candidate its priority selects: the first closest, the first lowest-health, or the first most threatening (null when no threat is positive) |
| Targeting.TargetPass | src/features/game/systems/TargetingSystem.ts:67-106 | the in-place pass keeps the world's length, changes at most each record's target, and leaves records already visited and records that are not units as they were |
| Targeting.TargetPassIsPointwise | src/features/game/systems/TargetingSystem.ts:67-106 | the in-place pass in world order equals retargeting every unit against the world as it was before the pass, so processing order does not matter |
| Targeting.TargetPassSound | src/features/game/systems/TargetingSystem.ts:67-106 | the pass changes only targets; unguarded records are untouched; every guarded unit ends with a null target or one naming a live enemy unit of the resulting world |
| Targeting.TargetPassKeeps | src/features/game/systems/TargetingSystem.ts:67-106 | the pass keeps ids and health |
| Targeting.TargetTurn | src/features/game/systems/TargetingSystem.ts:68-105 | one pass of the loop body retargets the unit at its position against the current world, and passes over a record that is not a unit |
| Targeting.UpdateTargeting | src/features/game/systems/TargetingSystem.ts:67-106 | the system's loop computes the targeting pass |
| Movement.Destination | src/features/game/systems/MovementSystem.ts:19-24 | a position to head for exists exactly when the first unit with the target id has an engine object, and it is that unit's engine position |
| Movement.MoveUnit | src/features/game/systems/MovementSystem.ts:9-37 | a unit that is not mobile, has no visible target, or is within engagement range keeps its record; otherwise only its engine position changes |
| Movement.MoveUnitTowardTarget | src/features/game/systems/MovementSystem.ts:33-37 | the step is `speed·dt` along the direction to the target; with a direction proportional to the offset, the unit lands on the line toward its target |
| Movement.MovePass | src/features/game/systems/MovementSystem.ts:7-38 | the in-place pass keeps the world's length, changes at most each record's engine object, and leaves records already visited and records that are not units as they were |
| Movement.MovePassFacts | src/features/game/systems/MovementSystem.ts:7-38 | the pass adds and removes nothing and changes only engine positions; a record failing the unit-only gates keeps its record |
| Movement.OnlyPositionsKeeps | src/features/game/systems/MovementSystem.ts:7-38 | changing positions keeps the id discipline and health bounds |
| Movement.MoveTurn | src/features/game/systems/MovementSystem.ts:8-37 | one pass of the loop body moves the unit at its position in the current world, and passes over a record that is not a unit |
| Movement.UpdateMovement | src/features/game/systems/MovementSystem.ts:7-38 | the system's loop computes the movement pass, each step visible to later units |
| Combat.Aim | src/features/game/systems/CombatSystem.ts:17-20 | the unit aimed at is the first unit carrying the target id, and only when that unit has an engine object and health and no dead marker; otherwise there is none |
| Combat.Fired | src/features/game/systems/CombatSystem.ts:30-46 | spending a shot sets the last shot time and changes nothing else |
| Combat.CombatStep | src/features/game/systems/CombatSystem.ts:10-46 | a turn adds at most one record and raises the counter by exactly the number it adds |
| Combat.CombatPass | src/features/game/systems/CombatSystem.ts:9-47 | turns `i` to `n` add at most one record per turn and raise the counter by exactly the number added |
| Combat.CombatStepFacts | src/features/game/systems/CombatSystem.ts:9-47 | a unit failing a gate changes nothing; once the gates pass, the shot is spent hit or miss, and a bullet is appended exactly when the roll is at most the accuracy; that bullet flies from the unit toward its target with the unit's damage, its id as owner and speed 300 |
| Combat.CombatPassFacts | src/features/game/systems/CombatSystem.ts:9-47 | from any intermediate state, the rest of the pass changes only last shot times of the original records, raises the counter by the number of records added, and adds only bullets owned by distinct original units in increasing order |
| Combat.CombatSound | src/features/game/systems/CombatSystem.ts:9-47 | a whole call changes only last shot times of existing records, spawns at most one bullet per unit, and raises the counter by the number spawned |
| Combat.CombatStepKeeps | src/features/game/systems/CombatSystem.ts:36-46 | a shot keeps ids increasing and below the counter, and health bounds |
| Combat.CombatTurn | src/features/game/systems/CombatSystem.ts:11-46 | one pass of the loop body is the turn of that record |
| Combat.CombatPassKeeps | src/features/game/systems/CombatSystem.ts:9-47 | the pass keeps ids increasing and below the counter, and health bounds |
| Combat.UpdateCombat | src/features/game/systems/CombatSystem.ts:9-47 | the system's loop computes the combat pass over the records present when it starts |
| Bullets.MoveBullet | src/features/game/systems/BulletSystem.ts:14-21 | a bullet without an engine object is untouched; one without a direction or with speed 0 stays put; one with both moves by direction·speed·dt; only its position changes |
| Bullets.EscapedIds | src/features/game/systems/BulletSystem.ts:24-31 | every bullet among the first `n` records that lies out of bounds has its id collected |
| Bullets.Advanced | src/features/game/systems/BulletSystem.ts:13-32 | every record takes its bullet step |
| Bullets.EscapedIdsMembers | src/features/game/systems/BulletSystem.ts:24-31 | the ids collected are exactly those of scanned bullets lying out of bounds after their step |
| Bullets.BulletPass | src/features/game/systems/BulletSystem.ts:9-37 | the pass never grows the world, and every record left is a stepped record that lies inside the playfield |
| Bullets.BulletPassFacts | src/features/game/systems/BulletSystem.ts:9-37 | a scanned bullet remains, at its new position, exactly when it is inside the playfield (border included); otherwise it is gone; non-bullets and bullets without engine object remain untouched; nothing else remains |
| Bullets.BulletPassKeeps | src/features/game/systems/BulletSystem.ts:9-37 | the pass keeps the id discipline and health bounds |
| Bullets.StepBullet | src/features/game/systems/BulletSystem.ts:16-31 | one bullet's step and bounds test agree with the step and escape predicate |
| Bullets.ScanBullets | src/features/game/systems/BulletSystem.ts:13-32 | the scan loop moves every bullet and collects exactly the escaped ids |
| Bullets.UpdateBullets | src/features/game/systems/BulletSystem.ts:9-37 | the system computes the bullet pass |
| Death.DefeatedUnits | src/features/game/systems/DeathSystem.ts:9-11 | the dead units are exactly the units with a dead marker or with health at or below 0 |
| Death.Survivors | src/features/game/systems/DeathSystem.ts:9-15 | the removal loop never grows the world, and leaves only records of the world that are not defeated |
| Death.TeamUnits | src/features/game/systems/DeathSystem.ts:17-22 | a team's head count lists exactly its units without a dead marker |
| Death.Outcome | src/features/game/systems/DeathSystem.ts:24-36 | draw exactly when both sides are empty; enemy win exactly when only the player side is empty; player win exactly when only the enemy side is empty; ongoing exactly when both sides field units |
| Death.Result | src/features/game/systems/DeathSystem.ts:17-36 | the round goes on or the player wins only while a player unit survives, and it goes on or the enemy wins only while an enemy unit survives |
| Death.SurvivorsFacts | src/features/game/systems/DeathSystem.ts:9-15 | no defeated unit remains, and every remaining unit has no dead marker and positive health; every record that is not defeated remains, bullets included; nothing new appears |
| Death.DeathIdempotent | src/features/game/systems/DeathSystem.ts:6-37 | a second call right after the first removes nothing and returns the same result |
| Death.ResultByTeams | src/features/game/systems/DeathSystem.ts:17-36 | the round goes on exactly when both teams still have a unit, and is a draw exactly when no unit remains |
| Death.TeamPresent | src/features/game/systems/DeathSystem.ts:17-22 | when no unit carries a dead marker, a team's head count is positive exactly when the team has a unit |
| Death.SurvivorsKeep | src/features/game/systems/DeathSystem.ts:13-15 | removal of the dead keeps the id discipline and health bounds |
| Death.UpdateDeath | src/features/game/systems/DeathSystem.ts:6-37 | the system leaves the survivors and returns the outcome of their head counts |
| Reset.ResetUnit | src/features/game/systems/ResetSystem.ts:15-37 | a reset unit stands at its snapshot position with its snapshot health, a null target, last shot time 0 and no dead marker; its id, snapshot and `position` component are unchanged |
| Reset.ResetRestoresCreation | src/features/game/systems/ResetSystem.ts:12-38 | a unit as `createUnit` built it, after any movement, damage, retargeting, firing and death, is reset to exactly that record |
| Reset.ResetUnitIdempotent | src/features/game/systems/ResetSystem.ts:12-38 | resetting a unit twice is resetting it once |
| Reset.ResetWorld | src/features/game/systems/ResetSystem.ts:4-39 | reset never grows the world and leaves no bullet |
| Reset.ResetFacts | src/features/game/systems/ResetSystem.ts:4-39 | no bullet remains; the non-bullets remain in order, each reset or untouched, keeping id, unit role and `position` component |
| Reset.ResetIdempotent | src/features/game/systems/ResetSystem.ts:4-39 | resetting twice gives the same world as resetting once |
| Reset.ResetKeeps | src/features/game/systems/ResetSystem.ts:4-39 | reset keeps the id discipline, and puts health back within bounds |
| Reset.ResetOne | src/features/game/systems/ResetSystem.ts:15-37 | the field writes of the unit loop reset the unit |
| Reset.ResetUnits | src/features/game/systems/ResetSystem.ts:12-38 | the unit loop resets every resettable unit in place and leaves every other record as it was |
| Reset.ResetUnitsToInitialState | src/features/game/systems/ResetSystem.ts:4-39 | the system removes all bullets, then resets every resettable unit; the counter is unchanged |
| Reset.RemoveEverything | src/features/game/systems/ResetSystem.ts:41-46 | removing the ids of every record leaves nothing |
| Reset.ClearAllUnits | src/features/game/systems/ResetSystem.ts:41-46 | clearing empties the world and does not rewind the id counter |
| Tick.StepKeeps | src/features/game/GameCanvas.tsx:51-56 | a battle frame keeps ids unique, increasing and below a counter that never falls, keeps health in [0, max], and leaves no defeated unit behind |
| Tick.RunFrame | src/features/game/GameCanvas.tsx:41-60 | outside the battle phase, or once a result is decided, nothing changes; otherwise the five systems run in order and the result is the death system's |

## Left out

- Floating-point arithmetic and `Math.sqrt`. Numbers are reals. The
  engine's `dist` and `unit()` are a supplied `Geometry`. The targeting,
  movement and combat properties hold for any such geometry.
- The engine's frame time. `move(v)` is modelled as `p + v·dt`, with `dt` as
  the frame time. `updateMovement` takes a `dt` argument that it never
  uses; kaplay applies its own frame time.
- `Math.random`. It becomes the supplied `roll(id)`: the number drawn for
  the unit with that id on this call.
- miniplex's storage order. The model keeps insertion order, and removal
  keeps the relative order of what remains. miniplex may reorder its
  buckets when it removes an entity, which can change iteration order, and
  so tie-breaking, in later frames.
- Query reactivity details of miniplex. The views are re-evaluated on every
  read, which is the behaviour the systems rely on.
- The engine's collision detection and event timing. A collision report
  is delivered as an explicit call, `Entities.OnHit(bulletId, ownerId,
  damage, struckTags)`, between frames, carrying what the closure
  captured. The tick does not contain it. Whether kaplay still reports
  collisions of an engine object after `destroy()` is the engine's
  business: the model accepts any sequence of reports.
- Entities.ParseHitId: models `parseInt` only on a leading digit string.
  Leading whitespace, signs and other radix prefixes are not modelled,
  because the tags the game writes never contain them. A parse that
  fails (NaN) finds no unit.
- The `Infinity` initial bests of the lowest-health and closest selectors.
  They are modelled as "no best yet". Each selector's loop takes the first
  qualifying candidate, which is what a comparison against `Infinity` does
  for finite values.
- Visuals: sprites, colours, health bars, child objects, the sprite letter,
  the unit and bullet sizes, and `destroy()` of engine objects. Logging is also left out.
  `VisualSystem.ts` and the UI components are not part of this model.
- Playfield size. The frame handler takes `width` and `height` as
  parameters. The engine's configured 1200×800 playfield (`src/lib/kaplay.ts`)
  is not part of this model.
- The `GamePhaseState` store and the React plumbing around the frame
  handler. The phase and the current result are parameters of
  `Tick.RunFrame`.
- The `velocity` component, and the `targetX`/`targetY` fields of
  movement. They are created but never read or updated by the systems, so
  they are carried along unchanged.
- Tick.RunFrame: does not model the `onGameResult` callback. The returned
  result stands for the value stored and reported.

## Findings

| source | as written | input that shows it | evidently intended | confidence | as-written member | corrected member |
|---|---|---|---|---|---|---|
| src/features/game/entities/index.ts:155-161 | the collision handler reads `entities.units`, but the file imports `world` and never `entities`, so the first statement of every report throws a ReferenceError before anything is written | any bullet overlapping an enemy unit: the unit keeps its health and the bullet stays | look the owner and the struck unit up in the `units` view (`world.with('position', 'health', 'combat', 'team', 'unitType')`) | not executed; read from the import list | Entities.HitAsWrittenDealsNoDamage | Entities.HitEnemy |
