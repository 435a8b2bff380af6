/** Combat: a unit fires at its target when the target is a live, visible
    unit within range and the reload time has passed since its last shot.
    Once those gates pass the shot is spent, hit or miss: the accuracy roll
    only decides whether a bullet is spawned.

    The roll is supplied: `roll(id)` is the uniform number in [0, 1) drawn
    for the unit with that id on this call. */
module Combat {
  import opened Components
  import opened Ecs
  import opened UnitTypes
  import opened Entities

  /** The gates that depend on the unit alone: an engine object, combat and
      target components, no dead marker, a non-null target id. */
  predicate Armed(u: Entity) {
    HasGameObj(u) && u.combat.Some? && u.target.Some? && u.dead.None? && !NullRef(u.target.value.entityId)
  }

  /** The index of the unit `u` aims at in `w`: the first unit with the target
      id, provided it has an engine object and health and no dead marker. */
  function Aim(w: seq<Entity>, u: Entity): (r: Option<nat>)
    requires Armed(u)
    ensures r.Some? ==> r.value < |w| && IsUnit(w[r.value]) && w[r.value].id == u.target.value.entityId.value
                        && HasGameObj(w[r.value]) && w[r.value].health.Some? && w[r.value].dead.None?
    ensures r.None? ==> forall j :: 0 <= j < |w| && IsUnit(w[j]) && w[j].id == u.target.value.entityId.value ==>
                          FindUnit(w, w[j].id) != Some(j) || !HasGameObj(w[j]) || w[j].health.None? || w[j].dead.Some?
  {
    match FindUnit(w, u.target.value.entityId.value)
    case None => None
    case Some(t) => if HasGameObj(w[t]) && w[t].health.Some? && w[t].dead.None? then Some(t) else None
  }

  /** All gates pass: armed, aiming at a target within range, reloaded. */
  predicate Ready(w: seq<Entity>, u: Entity, g: Geometry, time: real) {
    && Armed(u) && Aim(w, u).Some?
    && g.dist(PosOf(u), PosOf(w[Aim(w, u).value])) <= u.combat.value.range
    && time - u.combat.value.lastShotTime >= u.combat.value.reloadTime
  }

  /** The roll lands: a roll above the accuracy is a miss. */
  predicate Hits(u: Entity, roll: nat -> real)
    requires u.combat.Some?
  {
    roll(u.id) <= u.combat.value.accuracy
  }

  /** A unit whose shot has been spent at `time`. */
  function Fired(u: Entity, time: real): (r: Entity)
    requires u.combat.Some?
    ensures r.combat.Some? && r.combat.value.lastShotTime == time
    ensures r == u.(combat := Some(u.combat.value.(lastShotTime := r.combat.value.lastShotTime)))
  {
    u.(combat := Some(u.combat.value.(lastShotTime := time)))
  }

  /** The turn of the record at `i` in a call of `updateCombat`. */
  function CombatStep(st: Store, i: nat, time: real, roll: nat -> real, g: Geometry): (r: Store)
    requires i < |st.entities|
    ensures |st.entities| <= |r.entities| <= |st.entities| + 1
    ensures r.nextId == st.nextId + (|r.entities| - |st.entities|)
  {
    var u := st.entities[i];
    if !IsUnit(u) || !Ready(st.entities, u, g, time) then st
    else
      var es := st.entities[i := Fired(u, time)];
      if !Hits(u, roll) then Store(es, st.nextId)
      else
        var target := st.entities[Aim(st.entities, u).value];
        Store(es + [BulletRecord(st.nextId, PosOf(u), PosOf(target), u.combat.value.damage, u.id, BulletSpeed, g)],
              st.nextId + 1)
  }

  /** What one turn does:
      - a record failing a gate changes nothing, its last shot time included;
      - once the gates pass the last shot time becomes `time`, hit or miss;
      - a bullet is appended exactly when the roll is at most the accuracy
        (so with accuracy 1 every roll in [0, 1) fires);
      - that bullet is the only new record, flies from the unit toward its
        target, and carries the unit's damage, the unit's id as owner and
        the bullet speed. */
  lemma CombatStepFacts(st: Store, i: nat, time: real, roll: nat -> real, g: Geometry)
    requires i < |st.entities|
    ensures var u := st.entities[i]; var r := CombatStep(st, i, time, roll, g);
      && (!(IsUnit(u) && Ready(st.entities, u, g, time)) ==> r == st)
      && (IsUnit(u) && Ready(st.entities, u, g, time) ==>
            && r.entities[..|st.entities|] == st.entities[i := Fired(u, time)]
            && (|r.entities| == |st.entities| + 1 <==> Hits(u, roll))
            && (u.combat.value.accuracy == 1.0 && 0.0 <= roll(u.id) < 1.0 ==> |r.entities| == |st.entities| + 1))
      && (|r.entities| == |st.entities| ==> r.nextId == st.nextId)
      && (|r.entities| != |st.entities| ==>
            && |r.entities| == |st.entities| + 1 && r.nextId == st.nextId + 1
            && r.entities[|st.entities|] == BulletRecord(st.nextId, PosOf(u), PosOf(st.entities[Aim(st.entities, u).value]),
                                                          u.combat.value.damage, u.id, BulletSpeed, g))
  {
    var u := st.entities[i];
    if IsUnit(u) && Ready(st.entities, u, g, time) {
      var es := st.entities[i := Fired(u, time)];
      var r := CombatStep(st, i, time, roll, g);
      if Hits(u, roll) {
        assert r.entities[..|st.entities|] == es;
      } else {
        assert r.entities[..|st.entities|] == es;
      }
    }
  }

  /** `updateCombat` from the record at `i` to the record before `n`, `n`
      being the length of the world when the call began: records appended
      during the call are bullets, which the unit loop never visits. */
  function CombatPass(st: Store, i: nat, n: nat, time: real, roll: nat -> real, g: Geometry): (r: Store)
    requires i <= n <= |st.entities|
    decreases n - i
    ensures |st.entities| <= |r.entities| <= |st.entities| + (n - i)
    ensures r.nextId == st.nextId + (|r.entities| - |st.entities|)
  {
    if i == n then st
    else CombatPass(CombatStep(st, i, time, roll, g), i + 1, n, time, roll, g)
  }

  /** `b` is `a` with some last shot times changed and nothing else. */
  predicate OnlyShotTimes(a: seq<Entity>, b: seq<Entity>) {
    |a| == |b| && forall k :: 0 <= k < |a| ==>
      b[k] == a[k] || (a[k].combat.Some? && b[k].combat.Some? && b[k] == Fired(a[k], b[k].combat.value.lastShotTime))
  }

  /** The records a call appended: bullets, each carrying the id of one of
      the first `i` original records as owner, in strictly increasing order,
      so no unit owns two of them. */
  predicate Spawned(w0: seq<Entity>, tail: seq<Entity>, i: nat) {
    && (forall a :: 0 <= a < |tail| ==>
          (IsBullet(tail[a]) && exists j :: 0 <= j < i && j < |w0| && IsUnit(w0[j]) && tail[a].bullet.value.ownerId == w0[j].id))
    && (forall a, b :: 0 <= a < b < |tail| ==> tail[a].bullet.value.ownerId < tail[b].bullet.value.ownerId)
  }

  /** The state of a call that began on `w0` and has run the turns before `i`. */
  predicate PassInv(w0: seq<Entity>, st: Store, i: nat) {
    && IdsIncreasing(w0) && i <= |w0| <= |st.entities|
    && OnlyShotTimes(w0, st.entities[..|w0|])
    && (forall k :: i <= k < |w0| ==> st.entities[k] == w0[k])
    && Spawned(w0, st.entities[|w0|..], i)
  }

  /** The three shapes of a turn: nothing, a spent shot, a spent shot and a
      bullet owned by the unit. */
  lemma CombatStepShape(st: Store, i: nat, time: real, roll: nat -> real, g: Geometry)
    requires i < |st.entities|
    ensures var u := st.entities[i]; var next := CombatStep(st, i, time, roll, g);
      || (next == st)
      || (u.combat.Some? && next.entities == st.entities[i := Fired(u, time)] && next.nextId == st.nextId)
      || (u.combat.Some? && IsUnit(u) && |next.entities| == |st.entities| + 1 && next.nextId == st.nextId + 1
          && next.entities == st.entities[i := Fired(u, time)] + [next.entities[|st.entities|]]
          && IsBullet(next.entities[|st.entities|]) && next.entities[|st.entities|].bullet.value.ownerId == u.id)
  {
  }

  /** A turn at `i` touches the original records at `i` alone, and only its
      last shot time. */
  lemma StepPrefix(w0: seq<Entity>, st: Store, i: nat, time: real, roll: nat -> real, g: Geometry)
    requires PassInv(w0, st, i) && i < |w0|
    ensures var next := CombatStep(st, i, time, roll, g);
      && |w0| <= |next.entities|
      && OnlyShotTimes(w0, next.entities[..|w0|])
      && (forall k :: i + 1 <= k < |w0| ==> next.entities[k] == w0[k])
  {
    CombatStepShape(st, i, time, roll, g);
    var n := |w0|;
    var u := st.entities[i];
    var next := CombatStep(st, i, time, roll, g);
    if next != st {
      assert next.entities[..n] == st.entities[..n][i := Fired(u, time)] by {
        assert next.entities[..n] == next.entities[..|st.entities|][..n];
      }
      assert u == w0[i];
    }
  }

  /** Spawned bullets owned by the first `i` units are owned by the first `i + 1`. */
  lemma SpawnedWiden(w0: seq<Entity>, tail: seq<Entity>, i: nat)
    requires Spawned(w0, tail, i)
    ensures Spawned(w0, tail, i + 1)
  {
    forall a | 0 <= a < |tail|
      ensures IsBullet(tail[a]) && exists j :: 0 <= j < i + 1 && j < |w0| && IsUnit(w0[j]) && tail[a].bullet.value.ownerId == w0[j].id
    {
      assert IsBullet(tail[a]) && exists j :: 0 <= j < i && j < |w0| && IsUnit(w0[j]) && tail[a].bullet.value.ownerId == w0[j].id;
      var j :| 0 <= j < i && j < |w0| && IsUnit(w0[j]) && tail[a].bullet.value.ownerId == w0[j].id;
      assert 0 <= j < i + 1;
    }
  }

  /** A bullet owned by unit `i` extends the bullets of the first `i` units,
      its owner id being larger than theirs. */
  lemma SpawnedSnoc(w0: seq<Entity>, tail: seq<Entity>, i: nat, b: Entity)
    requires IdsIncreasing(w0) && Spawned(w0, tail, i) && i < |w0| && IsUnit(w0[i])
    requires IsBullet(b) && b.bullet.value.ownerId == w0[i].id
    ensures Spawned(w0, tail + [b], i + 1)
  {
    SpawnedWiden(w0, tail, i);
    var t := tail + [b];
    forall a | 0 <= a < |tail| ensures t[a].bullet.value.ownerId < b.bullet.value.ownerId {
      var j :| 0 <= j < i && j < |w0| && IsUnit(w0[j]) && tail[a].bullet.value.ownerId == w0[j].id;
    }
    assert t[|tail|] == b;
  }

  /** A turn at `i` appends at most one bullet, owned by the unit at `i`,
      whose id exceeds every earlier owner's. */
  lemma StepTail(w0: seq<Entity>, st: Store, i: nat, time: real, roll: nat -> real, g: Geometry)
    requires PassInv(w0, st, i) && i < |w0|
    ensures var next := CombatStep(st, i, time, roll, g);
      && next.nextId - |next.entities| == st.nextId - |st.entities|
      && Spawned(w0, next.entities[|w0|..], i + 1)
  {
    CombatStepShape(st, i, time, roll, g);
    var n := |w0|;
    var u := st.entities[i];
    assert u == w0[i];
    var next := CombatStep(st, i, time, roll, g);
    var oldTail := st.entities[n..];
    if |next.entities| == |st.entities| {
      assert next.entities[n..] == oldTail;
      SpawnedWiden(w0, oldTail, i);
    } else {
      var b := next.entities[|st.entities|];
      assert next.entities[n..] == oldTail + [b];
      SpawnedSnoc(w0, oldTail, i, b);
    }
  }

  /** A turn keeps the state of the call, and spends a counter value for
      each record it adds. */
  lemma StepInv(w0: seq<Entity>, st: Store, i: nat, time: real, roll: nat -> real, g: Geometry)
    requires PassInv(w0, st, i) && i < |w0|
    ensures var next := CombatStep(st, i, time, roll, g);
      PassInv(w0, next, i + 1) && next.nextId - |next.entities| == st.nextId - |st.entities|
  {
    StepPrefix(w0, st, i, time, roll, g);
    StepTail(w0, st, i, time, roll, g);
  }

  /** What the whole call does to the world it started from, `w0`:
      - the original records keep their ids and all their components except
        last shot times;
      - the counter rose by exactly the number of new records;
      - every new record is a bullet spawned by a distinct original unit. */
  lemma {:induction false} CombatPassFacts(w0: seq<Entity>, st: Store, i: nat, time: real, roll: nat -> real, g: Geometry)
    requires PassInv(w0, st, i)
    decreases |w0| - i
    ensures var r := CombatPass(st, i, |w0|, time, roll, g);
      && OnlyShotTimes(w0, r.entities[..|w0|])
      && r.nextId - |r.entities| == st.nextId - |st.entities|
      && Spawned(w0, r.entities[|w0|..], |w0|)
  {
    if i < |w0| {
      var next := CombatStep(st, i, time, roll, g);
      StepInv(w0, st, i, time, roll, g);
      CombatPassFacts(w0, next, i + 1, time, roll, g);
      assert CombatPass(st, i, |w0|, time, roll, g) == CombatPass(next, i + 1, |w0|, time, roll, g);
    }
  }

  /** The call from the start: a world with increasing ids ends with its
      records' last shot times the only change, plus one bullet at most per
      original unit, and the counter raised by the number of bullets. */
  lemma CombatSound(st: Store, time: real, roll: nat -> real, g: Geometry)
    requires IdsIncreasing(st.entities)
    ensures var w0 := st.entities; var r := CombatPass(st, 0, |w0|, time, roll, g);
      && OnlyShotTimes(w0, r.entities[..|w0|])
      && r.nextId == st.nextId + (|r.entities| - |w0|)
      && Spawned(w0, r.entities[|w0|..], |w0|)
  {
    var w0 := st.entities;
    assert st.entities[..|w0|] == w0;
    assert OnlyShotTimes(w0, w0);
    assert Spawned(w0, st.entities[|w0|..], 0);
    CombatPassFacts(w0, st, 0, time, roll, g);
  }

  /** A turn keeps the store well formed and sane: the new bullet takes the
      counter's id and a damage that is not negative. */
  lemma CombatStepKeeps(st: Store, i: nat, time: real, roll: nat -> real, g: Geometry)
    requires WellFormed(st) && Sane(st.entities) && i < |st.entities|
    ensures WellFormed(CombatStep(st, i, time, roll, g)) && Sane(CombatStep(st, i, time, roll, g).entities)
  {
    CombatStepFacts(st, i, time, roll, g);
    var u := st.entities[i];
    if IsUnit(u) && Ready(st.entities, u, g, time) {
      var es := st.entities[i := Fired(u, time)];
      assert SameIds(st.entities, es);
      SameIdsWellFormed(st, es);
      assert StatsSane(u);
      assert Sane(es);
      if Hits(u, roll) {
        var b := BulletRecord(st.nextId, PosOf(u), PosOf(st.entities[Aim(st.entities, u).value]),
                              u.combat.value.damage, u.id, BulletSpeed, g);
        AppendWellFormed(Store(es, st.nextId), b);
      }
    }
  }

  lemma {:induction false} CombatPassKeeps(st: Store, i: nat, n: nat, time: real, roll: nat -> real, g: Geometry)
    requires WellFormed(st) && Sane(st.entities) && i <= n <= |st.entities|
    decreases n - i
    ensures WellFormed(CombatPass(st, i, n, time, roll, g)) && Sane(CombatPass(st, i, n, time, roll, g).entities)
  {
    if i < n {
      CombatStepKeeps(st, i, time, roll, g);
      CombatPassKeeps(CombatStep(st, i, time, roll, g), i + 1, n, time, roll, g);
    }
  }

  /** The body of the unit loop of `updateCombat` for the record at `i`. */
  method CombatTurn(w: World, i: nat, time: real, roll: nat -> real, g: Geometry)
    requires w.Valid() && i < |w.entities|
    modifies w
    ensures w.Valid()
    ensures w.State() == CombatStep(old(w.State()), i, time, roll, g)
  {
    var unit := w.entities[i];
    if !IsUnit(unit) || !HasGameObj(unit) || unit.combat.None? || unit.target.None? || unit.dead.Some? {
      return;
    }
    var targetId := unit.target.value.entityId;
    if NullRef(targetId) {
      return;
    }
    var t := FindUnit(w.entities, targetId.value);
    if t.None? || !HasGameObj(w.entities[t.value]) || w.entities[t.value].health.None? || w.entities[t.value].dead.Some? {
      return;
    }
    var targetPos := PosOf(w.entities[t.value]);
    var dist := g.dist(PosOf(unit), targetPos);
    if dist > unit.combat.value.range {
      return;
    }
    var timeSinceLastShot := time - unit.combat.value.lastShotTime;
    if timeSinceLastShot < unit.combat.value.reloadTime {
      return;
    }
    var hitRoll := roll(unit.id);
    if hitRoll > unit.combat.value.accuracy {
      SameIdsWellFormed(w.State(), w.entities[i := Fired(unit, time)]);
      w.entities := w.entities[i := Fired(unit, time)];
      return;
    }
    ghost var before := w.entities;
    var bullet := CreateBullet(w, PosOf(unit), targetPos, unit.combat.value.damage, unit.id, BulletSpeed, g);
    SameIdsWellFormed(w.State(), w.entities[i := Fired(unit, time)]);
    w.entities := w.entities[i := Fired(unit, time)];
    assert w.entities == before[i := Fired(unit, time)] + [bullet];
  }

  /** `updateCombat` at time `time`: one turn per record present when the
      call began. */
  method UpdateCombat(w: World, time: real, roll: nat -> real, g: Geometry)
    requires w.Valid()
    modifies w
    ensures w.Valid()
    ensures w.State() == CombatPass(old(w.State()), 0, |old(w.entities)|, time, roll, g)
  {
    var n := |w.entities|;
    var i := 0;
    while i < n
      invariant 0 <= i <= n <= |w.entities|
      invariant w.Valid()
      invariant CombatPass(w.State(), i, n, time, roll, g) == CombatPass(old(w.State()), 0, n, time, roll, g)
    {
      CombatTurn(w, i, time, roll, g);
      i := i + 1;
    }
  }
}
