/** Target selection: every unit keeps its target while it stays a live enemy
    within range, and otherwise picks one by its priority policy.

    The three selectors are accumulator loops (methods) specified by
    recursive functions that replay the loop; the lemmas say what the loops
    compute: the first candidate at minimum distance, the first at minimum
    health, the first at maximum positive threat. */
module Targeting {
  import opened Components
  import opened Ecs

  // ---------------------------------------------------------------------
  // Candidates.

  /** The filter of the enemy list: another team, with health, not marked
      dead, with an engine object. */
  predicate IsEnemyOf(team: TeamId, e: Entity) {
    e.team.Some? && e.team.value.id != team && e.health.Some? && e.dead.None? && HasGameObj(e)
  }

  /** The world as a targeting decision reads it. No decision consults
      another record's target, so the targets are shown blank. */
  function Untargeted(w: seq<Entity>): (v: seq<Entity>)
    ensures |v| == |w| && forall k :: 0 <= k < |w| ==> v[k] == w[k].(target := None)
  {
    seq(|w|, k requires 0 <= k < |w| => w[k].(target := None))
  }

  /** The opposing units a unit of `team` may aim at, in world order. */
  function Enemies(w: seq<Entity>, team: TeamId): (es: seq<Entity>)
    ensures forall e :: e in es <==> e in Untargeted(w) && IsUnit(e) && IsEnemyOf(team, e)
  {
    Filter(Units(Untargeted(w)), e => IsEnemyOf(team, e))
  }

  /** A candidate of `Enemies(w, team)` is a record of `w` with its target
      blanked, and every qualifying record of `w` is a candidate. */
  lemma EnemiesOfWorld(w: seq<Entity>, team: TeamId)
    ensures forall e :: e in Enemies(w, team) ==>
      exists k :: 0 <= k < |w| && w[k].(target := None) == e && IsUnit(w[k]) && IsEnemyOf(team, w[k])
    ensures forall k :: 0 <= k < |w| && IsUnit(w[k]) && IsEnemyOf(team, w[k]) ==>
      w[k].(target := None) in Enemies(w, team)
  {
    var v := Untargeted(w);
    forall e | e in Enemies(w, team)
      ensures exists k :: 0 <= k < |w| && w[k].(target := None) == e && IsUnit(w[k]) && IsEnemyOf(team, w[k])
    {
      var k :| 0 <= k < |v| && v[k] == e;
      assert w[k].(target := None) == e;
    }
    forall k | 0 <= k < |w| && IsUnit(w[k]) && IsEnemyOf(team, w[k])
      ensures w[k].(target := None) in Enemies(w, team)
    {
      assert v[k] in v;
    }
  }

  // ---------------------------------------------------------------------
  // `closest`

  /** A candidate the closest policy looks at: `sprite?.gameObj` and `health`. */
  predicate InReach(e: Entity) {
    HasGameObj(e) && e.health.Some?
  }

  function DistTo(p: Vec, e: Entity, g: Geometry): real
    requires HasGameObj(e)
  {
    g.dist(p, PosOf(e))
  }

  /** The loop of `findClosestEnemy` from candidate `k` on, `best` being the
      closest found so far. */
  function ClosestFrom(p: Vec, es: seq<Entity>, g: Geometry, k: nat, best: Option<nat>): (r: Option<nat>)
    requires k <= |es|
    requires best.Some? ==> best.value < k && InReach(es[best.value])
    decreases |es| - k
    ensures r.Some? ==> r.value < |es| && InReach(es[r.value])
  {
    if k == |es| then best
    else if !InReach(es[k]) then ClosestFrom(p, es, g, k + 1, best)
    else if best.None? || DistTo(p, es[k], g) < DistTo(p, es[best.value], g) then ClosestFrom(p, es, g, k + 1, Some(k))
    else ClosestFrom(p, es, g, k + 1, best)
  }

  /** `findClosestEnemy`: nothing for a unit without engine object or combat. */
  function ClosestEnemy(u: Entity, es: seq<Entity>, g: Geometry): (r: Option<nat>)
    ensures r.Some? ==> r.value < |es| && InReach(es[r.value])
  {
    if !HasGameObj(u) || u.combat.None? then None else ClosestFrom(PosOf(u), es, g, 0, None)
  }

  /** Candidate `i` is at the least distance among the first `n` and strictly
      closer than every candidate before it (first wins on ties). */
  predicate FirstClosestIn(p: Vec, es: seq<Entity>, g: Geometry, i: nat, n: nat)
    requires n <= |es|
  {
    && i < n && InReach(es[i])
    && (forall j :: 0 <= j < n && InReach(es[j]) ==> DistTo(p, es[i], g) <= DistTo(p, es[j], g))
    && (forall j :: 0 <= j < i && InReach(es[j]) ==> DistTo(p, es[j], g) > DistTo(p, es[i], g))
  }

  lemma {:induction false} ClosestFromIsFirstMinimum(p: Vec, es: seq<Entity>, g: Geometry, k: nat, best: Option<nat>)
    requires k <= |es|
    requires best.Some? ==> best.value < k && FirstClosestIn(p, es, g, best.value, k)
    requires best.None? ==> forall j :: 0 <= j < k ==> !InReach(es[j])
    decreases |es| - k
    ensures var r := ClosestFrom(p, es, g, k, best);
      && (r.None? <==> forall j :: 0 <= j < |es| ==> !InReach(es[j]))
      && (r.Some? ==> FirstClosestIn(p, es, g, r.value, |es|))
  {
    if k < |es| {
      if !InReach(es[k]) {
        ClosestFromIsFirstMinimum(p, es, g, k + 1, best);
      } else if best.None? || DistTo(p, es[k], g) < DistTo(p, es[best.value], g) {
        ClosestFromIsFirstMinimum(p, es, g, k + 1, Some(k));
      } else {
        ClosestFromIsFirstMinimum(p, es, g, k + 1, best);
      }
    }
  }

  /** The closest policy returns the earliest candidate at minimum distance,
      skipping candidates without engine object or health, and nothing only
      when there is no such candidate (or the unit cannot aim). */
  lemma ClosestEnemyIsFirstMinimum(u: Entity, es: seq<Entity>, g: Geometry)
    ensures var r := ClosestEnemy(u, es, g);
      && (r.None? <==> (!HasGameObj(u) || u.combat.None? || forall j :: 0 <= j < |es| ==> !InReach(es[j])))
      && (r.Some? ==> HasGameObj(u) && FirstClosestIn(PosOf(u), es, g, r.value, |es|))
  {
    if HasGameObj(u) && u.combat.Some? {
      ClosestFromIsFirstMinimum(PosOf(u), es, g, 0, None);
    }
  }

  /** `findClosestEnemy`, the accumulator loop. */
  method FindClosestEnemy(unit: Entity, enemies: seq<Entity>, g: Geometry) returns (closest: Option<nat>)
    ensures closest == ClosestEnemy(unit, enemies, g)
  {
    if !HasGameObj(unit) || unit.combat.None? {
      return None;
    }
    var p := PosOf(unit);
    closest := None;
    var closestDist := 0.0;
    var k := 0;
    while k < |enemies|
      invariant 0 <= k <= |enemies|
      invariant closest.Some? ==> closest.value < k && InReach(enemies[closest.value])
      invariant closest.Some? ==> closestDist == DistTo(p, enemies[closest.value], g)
      invariant ClosestFrom(p, enemies, g, k, closest) == ClosestFrom(p, enemies, g, 0, None)
    {
      var enemy := enemies[k];
      if InReach(enemy) {
        var dist := g.dist(p, PosOf(enemy));
        if closest.None? || dist < closestDist {
          closestDist := dist;
          closest := Some(k);
        }
      }
      k := k + 1;
    }
  }

  // ---------------------------------------------------------------------
  // `lowest-health`

  function HealthOf(e: Entity): real
    requires e.health.Some?
  {
    e.health.value.current
  }

  /** The loop of `findLowestHealthEnemy` from candidate `k` on. */
  function LowestFrom(es: seq<Entity>, k: nat, best: Option<nat>): (r: Option<nat>)
    requires k <= |es|
    requires best.Some? ==> best.value < k && es[best.value].health.Some?
    decreases |es| - k
    ensures r.Some? ==> r.value < |es| && es[r.value].health.Some?
  {
    if k == |es| then best
    else if es[k].health.None? then LowestFrom(es, k + 1, best)
    else if best.None? || HealthOf(es[k]) < HealthOf(es[best.value]) then LowestFrom(es, k + 1, Some(k))
    else LowestFrom(es, k + 1, best)
  }

  /** `findLowestHealthEnemy`: it does not look at distance at all. */
  function LowestHealthEnemy(es: seq<Entity>): (r: Option<nat>)
    ensures r.Some? ==> r.value < |es| && es[r.value].health.Some?
  {
    LowestFrom(es, 0, None)
  }

  predicate FirstLowestIn(es: seq<Entity>, i: nat, n: nat)
    requires n <= |es|
  {
    && i < n && es[i].health.Some?
    && (forall j :: 0 <= j < n && es[j].health.Some? ==> HealthOf(es[i]) <= HealthOf(es[j]))
    && (forall j :: 0 <= j < i && es[j].health.Some? ==> HealthOf(es[j]) > HealthOf(es[i]))
  }

  lemma {:induction false} LowestFromIsFirstMinimum(es: seq<Entity>, k: nat, best: Option<nat>)
    requires k <= |es|
    requires best.Some? ==> best.value < k && FirstLowestIn(es, best.value, k)
    requires best.None? ==> forall j :: 0 <= j < k ==> es[j].health.None?
    decreases |es| - k
    ensures var r := LowestFrom(es, k, best);
      && (r.None? <==> forall j :: 0 <= j < |es| ==> es[j].health.None?)
      && (r.Some? ==> FirstLowestIn(es, r.value, |es|))
  {
    if k < |es| {
      if es[k].health.None? {
        LowestFromIsFirstMinimum(es, k + 1, best);
      } else if best.None? || HealthOf(es[k]) < HealthOf(es[best.value]) {
        LowestFromIsFirstMinimum(es, k + 1, Some(k));
      } else {
        LowestFromIsFirstMinimum(es, k + 1, best);
      }
    }
  }

  /** The lowest-health policy returns the earliest candidate of minimum
      current health, and nothing only when no candidate has health. */
  lemma LowestHealthEnemyIsFirstMinimum(es: seq<Entity>)
    ensures var r := LowestHealthEnemy(es);
      && (r.None? <==> forall j :: 0 <= j < |es| ==> es[j].health.None?)
      && (r.Some? ==> FirstLowestIn(es, r.value, |es|))
  {
    LowestFromIsFirstMinimum(es, 0, None);
  }

  /** `findLowestHealthEnemy`, the accumulator loop. */
  method FindLowestHealthEnemy(enemies: seq<Entity>) returns (lowest: Option<nat>)
    ensures lowest == LowestHealthEnemy(enemies)
  {
    lowest := None;
    var lowestHealth := 0.0;
    var k := 0;
    while k < |enemies|
      invariant 0 <= k <= |enemies|
      invariant lowest.Some? ==> lowest.value < k && enemies[lowest.value].health.Some?
      invariant lowest.Some? ==> lowestHealth == HealthOf(enemies[lowest.value])
      invariant LowestFrom(enemies, k, lowest) == LowestFrom(enemies, 0, None)
    {
      var enemy := enemies[k];
      if enemy.health.Some? {
        if lowest.None? || enemy.health.value.current < lowestHealth {
          lowestHealth := enemy.health.value.current;
          lowest := Some(k);
        }
      }
      k := k + 1;
    }
  }

  // ---------------------------------------------------------------------
  // `highest-threat`

  /** A candidate the threat policy looks at: engine object, combat, health. */
  predicate Threatening(e: Entity) {
    HasGameObj(e) && e.combat.Some? && e.health.Some?
  }

  /** Damage over distance, the distance floored at 1. */
  function Threat(p: Vec, e: Entity, g: Geometry): real
    requires Threatening(e)
  {
    e.combat.value.damage / Max(DistTo(p, e, g), 1.0)
  }

  function BestThreat(p: Vec, es: seq<Entity>, g: Geometry, best: Option<nat>): real
    requires best.Some? ==> best.value < |es| && Threatening(es[best.value])
  {
    if best.None? then 0.0 else Threat(p, es[best.value], g)
  }

  /** The loop of `findHighestThreatEnemy` from candidate `k` on; the score to
      beat starts at 0. */
  function ThreatFrom(p: Vec, es: seq<Entity>, g: Geometry, k: nat, best: Option<nat>): (r: Option<nat>)
    requires k <= |es|
    requires best.Some? ==> best.value < k && Threatening(es[best.value])
    decreases |es| - k
    ensures r.Some? ==> r.value < |es| && Threatening(es[r.value])
  {
    if k == |es| then best
    else if !Threatening(es[k]) then ThreatFrom(p, es, g, k + 1, best)
    else if Threat(p, es[k], g) > BestThreat(p, es, g, best) then ThreatFrom(p, es, g, k + 1, Some(k))
    else ThreatFrom(p, es, g, k + 1, best)
  }

  /** `findHighestThreatEnemy`: nothing for a unit without engine object. */
  function HighestThreatEnemy(u: Entity, es: seq<Entity>, g: Geometry): (r: Option<nat>)
    ensures r.Some? ==> r.value < |es| && Threatening(es[r.value])
  {
    if !HasGameObj(u) then None else ThreatFrom(PosOf(u), es, g, 0, None)
  }

  predicate FirstMostThreateningIn(p: Vec, es: seq<Entity>, g: Geometry, i: nat, n: nat)
    requires n <= |es|
  {
    && i < n && Threatening(es[i]) && Threat(p, es[i], g) > 0.0
    && (forall j :: 0 <= j < n && Threatening(es[j]) ==> Threat(p, es[j], g) <= Threat(p, es[i], g))
    && (forall j :: 0 <= j < i && Threatening(es[j]) ==> Threat(p, es[j], g) < Threat(p, es[i], g))
  }

  lemma {:induction false} ThreatFromIsFirstMaximum(p: Vec, es: seq<Entity>, g: Geometry, k: nat, best: Option<nat>)
    requires k <= |es|
    requires best.Some? ==> best.value < k && FirstMostThreateningIn(p, es, g, best.value, k)
    requires best.None? ==> forall j :: 0 <= j < k && Threatening(es[j]) ==> Threat(p, es[j], g) <= 0.0
    decreases |es| - k
    ensures var r := ThreatFrom(p, es, g, k, best);
      && (r.None? <==> forall j :: 0 <= j < |es| && Threatening(es[j]) ==> Threat(p, es[j], g) <= 0.0)
      && (r.Some? ==> FirstMostThreateningIn(p, es, g, r.value, |es|))
  {
    if k < |es| {
      if !Threatening(es[k]) {
        ThreatFromIsFirstMaximum(p, es, g, k + 1, best);
      } else if Threat(p, es[k], g) > BestThreat(p, es, g, best) {
        ThreatFromIsFirstMaximum(p, es, g, k + 1, Some(k));
      } else {
        ThreatFromIsFirstMaximum(p, es, g, k + 1, best);
      }
    }
  }

  /** The threat policy returns the earliest candidate of maximum
      damage / max(distance, 1), and nothing when no candidate scores above 0. */
  lemma HighestThreatEnemyIsFirstMaximum(u: Entity, es: seq<Entity>, g: Geometry)
    ensures var r := HighestThreatEnemy(u, es, g);
      && (r.None? <==> (!HasGameObj(u) ||
            forall j :: 0 <= j < |es| && Threatening(es[j]) ==> Threat(PosOf(u), es[j], g) <= 0.0))
      && (r.Some? ==> HasGameObj(u) && FirstMostThreateningIn(PosOf(u), es, g, r.value, |es|))
  {
    if HasGameObj(u) {
      ThreatFromIsFirstMaximum(PosOf(u), es, g, 0, None);
    }
  }

  /** `findHighestThreatEnemy`, the accumulator loop. */
  method FindHighestThreatEnemy(unit: Entity, enemies: seq<Entity>, g: Geometry) returns (highest: Option<nat>)
    ensures highest == HighestThreatEnemy(unit, enemies, g)
  {
    if !HasGameObj(unit) {
      return None;
    }
    var p := PosOf(unit);
    highest := None;
    var highestScore := 0.0;
    var k := 0;
    while k < |enemies|
      invariant 0 <= k <= |enemies|
      invariant highest.Some? ==> highest.value < k && Threatening(enemies[highest.value])
      invariant highestScore == BestThreat(p, enemies, g, highest)
      invariant ThreatFrom(p, enemies, g, k, highest) == ThreatFrom(p, enemies, g, 0, None)
    {
      var enemy := enemies[k];
      if Threatening(enemy) {
        var dist := g.dist(p, PosOf(enemy));
        var score := enemy.combat.value.damage / Max(dist, 1.0);
        if score > highestScore {
          highestScore := score;
          highest := Some(k);
        }
      }
      k := k + 1;
    }
  }

  // ---------------------------------------------------------------------
  // `updateTargeting`

  /** `enemies.find(e => e.id === unit.target.entityId)`; a null id matches
      nothing. */
  function FindById(es: seq<Entity>, id: Option<nat>): (r: Option<nat>)
    ensures r.Some? ==> r.value < |es| && id == Some(es[r.value].id)
    ensures r.None? ==> forall j :: 0 <= j < |es| ==> id != Some(es[j].id)
  {
    if es == [] then None
    else if id == Some(es[0].id) then Some(0)
    else match FindById(es[1..], id)
      case None => None
      case Some(j) => Some(j + 1)
  }

  /** The line-69 guard: a unit the targeting system works on. */
  predicate Aims(u: Entity) {
    HasGameObj(u) && u.target.Some? && u.team.Some? && u.unitType.Some? && u.combat.Some?
  }

  /** The current target is still a candidate, within the unit's range. */
  predicate KeepsTarget(u: Entity, es: seq<Entity>, g: Geometry)
    requires Aims(u)
  {
    match FindById(es, u.target.value.entityId)
    case None => false
    case Some(c) =>
      HasGameObj(es[c]) && DistTo(PosOf(u), es[c], g) <= u.combat.value.range
      && es[c].health.Some? && es[c].dead.None?
  }

  function Choose(u: Entity, es: seq<Entity>, g: Geometry): (r: Option<nat>)
    requires u.unitType.Some?
    ensures r.Some? ==> r.value < |es|
  {
    match u.unitType.value.targetPriority
    case Closest => ClosestEnemy(u, es, g)
    case LowestHealth => LowestHealthEnemy(es)
    case HighestThreat => HighestThreatEnemy(u, es, g)
  }

  /** The unit `u` after its turn of targeting in world `w`. Only the target
      component can differ. */
  function Retarget(w: seq<Entity>, u: Entity, g: Geometry): (r: Entity)
    ensures r == u.(target := r.target)
  {
    if !Aims(u) then u
    else
      var es := Enemies(w, u.team.value.id);
      if |es| == 0 then u.(target := Some(Target(None)))
      else if KeepsTarget(u, es, g) then u
      else
        var pick := Choose(u, es, g);
        u.(target := Some(Target(if pick.None? then None else Some(es[pick.value].id))))
  }

  /** `updateTargeting` as it runs, unit after unit in world order, each
      writing its own target in place from position `i` on. */
  function TargetPass(w: seq<Entity>, i: nat, g: Geometry): (r: seq<Entity>)
    requires i <= |w|
    decreases |w| - i
    ensures |r| == |w|
    ensures forall k :: 0 <= k < |w| ==> r[k] == w[k].(target := r[k].target)
    ensures forall k :: 0 <= k < |w| && (k < i || !IsUnit(w[k])) ==> r[k] == w[k]
  {
    if i == |w| then w
    else TargetPass(if IsUnit(w[i]) then w[i := Retarget(w, w[i], g)] else w, i + 1, g)
  }

  /** Every unit retargeted against the world as it was before the pass. */
  function RetargetAll(w: seq<Entity>, g: Geometry): (r: seq<Entity>)
    ensures |r| == |w|
  {
    seq(|w|, k requires 0 <= k < |w| => if IsUnit(w[k]) then Retarget(w, w[k], g) else w[k])
  }

  lemma {:induction false} TargetPassFrom(w0: seq<Entity>, w: seq<Entity>, i: nat, g: Geometry)
    requires |w| == |w0| && i <= |w|
    requires Untargeted(w) == Untargeted(w0)
    requires forall k :: 0 <= k < i ==> w[k] == RetargetAll(w0, g)[k]
    requires forall k :: i <= k < |w| ==> w[k] == w0[k]
    decreases |w| - i
    ensures TargetPass(w, i, g) == RetargetAll(w0, g)
  {
    if i == |w| {
      assert w == RetargetAll(w0, g);
    } else {
      var next := if IsUnit(w[i]) then w[i := Retarget(w, w[i], g)] else w;
      if IsUnit(w[i]) {
        assert Enemies(w, w[i].team.value.id) == Enemies(w0, w[i].team.value.id);
        assert Retarget(w, w[i], g) == Retarget(w0, w0[i], g);
        assert Untargeted(next) == Untargeted(w);
      }
      TargetPassFrom(w0, next, i + 1, g);
    }
  }

  /** The order of processing does not matter: running the pass unit after
      unit, in place, is the same as retargeting every unit against the
      world as it was before the pass, because a decision never reads
      another unit's target. */
  lemma TargetPassIsPointwise(w: seq<Entity>, g: Geometry)
    ensures TargetPass(w, 0, g) == RetargetAll(w, g)
  {
    TargetPassFrom(w, w, 0, g);
  }

  /** A unit failing the guard is left exactly as it was. */
  lemma RetargetSkips(w: seq<Entity>, u: Entity, g: Geometry)
    requires !Aims(u)
    ensures Retarget(w, u, g) == u
  {
  }

  /** With no candidate in the whole world the target becomes null. */
  lemma RetargetNoEnemies(w: seq<Entity>, u: Entity, g: Geometry)
    requires Aims(u)
    requires forall k :: 0 <= k < |w| ==> !(IsUnit(w[k]) && IsEnemyOf(u.team.value.id, w[k]))
    ensures Retarget(w, u, g).target == Some(Target(None))
  {
    var es := Enemies(w, u.team.value.id);
    if |es| > 0 {
      assert es[0] in es;
      EnemiesOfWorld(w, u.team.value.id);
      assert false;
    }
  }

  /** A current target that is still a candidate within range is kept (in a
      world whose ids are distinct, so the id names that very record). */
  lemma RetargetKeeps(w: seq<Entity>, u: Entity, g: Geometry, k: nat)
    requires Aims(u) && IdsIncreasing(w)
    requires k < |w| && IsUnit(w[k]) && IsEnemyOf(u.team.value.id, w[k])
    requires u.target.value.entityId == Some(w[k].id)
    requires DistTo(PosOf(u), w[k], g) <= u.combat.value.range
    ensures Retarget(w, u, g) == u
  {
    var team := u.team.value.id;
    var es := Enemies(w, team);
    EnemiesOfWorld(w, team);
    assert w[k].(target := None) in es;
    var c := FindById(es, u.target.value.entityId).value;
    assert es[c] in es;
    var k' :| 0 <= k' < |w| && w[k'].(target := None) == es[c] && IsUnit(w[k']) && IsEnemyOf(team, w[k']);
    IdsUnique(w, k, k');
    assert KeepsTarget(u, es, g);
  }

  /** Whatever target a guarded unit ends with is null or the id of a unit
      of `w` on the other team with health, no dead marker and an engine
      object. */
  lemma RetargetSound(w: seq<Entity>, u: Entity, g: Geometry)
    requires Aims(u)
    ensures Retarget(w, u, g).target.Some?
    ensures var id := Retarget(w, u, g).target.value.entityId;
      id.None? || exists k :: 0 <= k < |w| && IsUnit(w[k]) && IsEnemyOf(u.team.value.id, w[k]) && id == Some(w[k].id)
  {
    var es := Enemies(w, u.team.value.id);
    var id := Retarget(w, u, g).target.value.entityId;
    if id.Some? {
      assert |es| > 0;
      var i :| 0 <= i < |es| && id == Some(es[i].id);
      assert es[i] in es;
      EnemiesOfWorld(w, u.team.value.id);
    }
  }

  /** The policy a re-acquiring unit applies: the new target is the candidate
      its priority selects among `Enemies(w, team)`. */
  lemma RetargetByPolicy(w: seq<Entity>, u: Entity, g: Geometry)
    requires Aims(u)
    requires |Enemies(w, u.team.value.id)| > 0 && !KeepsTarget(u, Enemies(w, u.team.value.id), g)
    ensures var es := Enemies(w, u.team.value.id);
      var id := Retarget(w, u, g).target.value.entityId;
      && (u.unitType.value.targetPriority == Closest ==>
            exists i :: 0 <= i < |es| && id == Some(es[i].id) && FirstClosestIn(PosOf(u), es, g, i, |es|))
      && (u.unitType.value.targetPriority == LowestHealth ==>
            exists i :: 0 <= i < |es| && id == Some(es[i].id) && FirstLowestIn(es, i, |es|))
      && (u.unitType.value.targetPriority == HighestThreat ==>
            (id.None? <==> forall j :: 0 <= j < |es| && Threatening(es[j]) ==> Threat(PosOf(u), es[j], g) <= 0.0))
      && (u.unitType.value.targetPriority == HighestThreat && id.Some? ==>
            exists i :: 0 <= i < |es| && id == Some(es[i].id) && FirstMostThreateningIn(PosOf(u), es, g, i, |es|))
  {
    var es := Enemies(w, u.team.value.id);
    assert es[0] in es;
    assert InReach(es[0]) && es[0].health.Some?;
    ClosestEnemyIsFirstMinimum(u, es, g);
    LowestHealthEnemyIsFirstMinimum(es);
    HighestThreatEnemyIsFirstMaximum(u, es, g);
  }

  /** After the pass only targets have changed, and every unit the guard
      admits ends with a null target or one naming a live, visible enemy
      unit with health of the world after the pass. */
  lemma TargetPassSound(w: seq<Entity>, g: Geometry)
    ensures var r := TargetPass(w, 0, g);
      && |r| == |w|
      && (forall k :: 0 <= k < |w| ==> r[k] == w[k].(target := r[k].target))
      && (forall k :: 0 <= k < |w| && !(IsUnit(w[k]) && Aims(w[k])) ==> r[k] == w[k])
      && (forall k :: 0 <= k < |w| && IsUnit(w[k]) && Aims(w[k]) ==>
            r[k].target.Some? &&
            (r[k].target.value.entityId.None? ||
             exists j :: 0 <= j < |r| && IsUnit(r[j]) && IsEnemyOf(w[k].team.value.id, r[j])
                         && r[k].target.value.entityId == Some(r[j].id)))
  {
    TargetPassIsPointwise(w, g);
    forall k | 0 <= k < |w| && IsUnit(w[k]) && Aims(w[k])
      ensures var r := RetargetAll(w, g);
        && r[k].target.Some?
        && (r[k].target.value.entityId.None? ||
            exists j :: 0 <= j < |r| && IsUnit(r[j]) && IsEnemyOf(w[k].team.value.id, r[j])
                        && r[k].target.value.entityId == Some(r[j].id))
    {
      RetargetAllSound(w, g, k);
    }
  }

  /** One unit of the pointwise pass ends with a null target or one naming a
      live enemy unit of the resulting world. */
  lemma RetargetAllSound(w: seq<Entity>, g: Geometry, k: nat)
    requires k < |w| && IsUnit(w[k]) && Aims(w[k])
    ensures var r := RetargetAll(w, g);
        && r[k].target.Some?
        && (r[k].target.value.entityId.None? ||
            exists j :: 0 <= j < |r| && IsUnit(r[j]) && IsEnemyOf(w[k].team.value.id, r[j])
                        && r[k].target.value.entityId == Some(r[j].id))
  {
    var r := RetargetAll(w, g);
    RetargetSound(w, w[k], g);
    var id := r[k].target.value.entityId;
    if id.Some? {
      var j :| 0 <= j < |w| && IsUnit(w[j]) && IsEnemyOf(w[k].team.value.id, w[j]) && id == Some(w[j].id);
      assert r[j] == w[j].(target := r[j].target);
    }
  }

  /** Targeting keeps the ids and health of every record. */
  lemma TargetPassKeeps(st: Store, g: Geometry)
    requires WellFormed(st)
    ensures WellFormed(Store(TargetPass(st.entities, 0, g), st.nextId))
    ensures Sane(st.entities) ==> Sane(TargetPass(st.entities, 0, g))
  {
    TargetPassSound(st.entities, g);
    var r := TargetPass(st.entities, 0, g);
    assert SameIds(st.entities, r);
    SameIdsWellFormed(st, r);
    if Sane(st.entities) {
      forall k | 0 <= k < |r| ensures StatsSane(r[k]) {
        assert StatsSane(st.entities[k]);
      }
    }
  }

  /** The turn of the record at `i` in `updateTargeting`: a unit writes its
      own target, any other record is passed over. */
  method TargetTurn(w: World, i: nat, g: Geometry)
    requires i < |w.entities|
    modifies w
    ensures w.entities == if IsUnit(old(w.entities)[i]) then old(w.entities)[i := Retarget(old(w.entities), old(w.entities)[i], g)]
                          else old(w.entities)
    ensures w.nextId == old(w.nextId)
  {
    var unit := w.entities[i];
    if IsUnit(unit) && Aims(unit) {
      var enemies := Enemies(w.entities, unit.team.value.id);
      if |enemies| == 0 {
        w.entities := w.entities[i := unit.(target := Some(Target(None)))];
      } else if KeepsTarget(unit, enemies, g) {
        assert w.entities[i := Retarget(w.entities, unit, g)] == w.entities;
      } else {
        var newTarget: Option<nat>;
        match unit.unitType.value.targetPriority {
          case Closest => newTarget := FindClosestEnemy(unit, enemies, g);
          case LowestHealth => newTarget := FindLowestHealthEnemy(enemies);
          case HighestThreat => newTarget := FindHighestThreatEnemy(unit, enemies, g);
        }
        var id := if newTarget.None? then None else Some(enemies[newTarget.value].id);
        w.entities := w.entities[i := unit.(target := Some(Target(id)))];
      }
    } else if IsUnit(unit) {
      assert w.entities[i := Retarget(w.entities, unit, g)] == w.entities;
    }
  }

  /** `updateTargeting`: every unit, in world order, writes its own target. */
  method UpdateTargeting(w: World, g: Geometry)
    requires w.Valid()
    modifies w
    ensures w.Valid()
    ensures w.entities == TargetPass(old(w.entities), 0, g)
    ensures w.nextId == old(w.nextId)
  {
    TargetPassKeeps(w.State(), g);
    var i := 0;
    while i < |w.entities|
      invariant 0 <= i <= |w.entities| == |old(w.entities)|
      invariant w.nextId == old(w.nextId)
      invariant TargetPass(w.entities, i, g) == TargetPass(old(w.entities), 0, g)
    {
      TargetTurn(w, i, g);
      i := i + 1;
    }
  }
}
