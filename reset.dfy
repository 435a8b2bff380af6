/** Between rounds: reset puts every unit back where and as healthy as it was
    placed, with no target, a fresh weapon and no dead marker, and removes
    all bullets; clear empties the world. */
module Reset {
  import opened Components
  import opened Ecs
  import opened UnitTypes
  import opened Entities

  /** A unit the reset loop rewrites: it has a snapshot, health and an
      engine object. */
  predicate Resettable(e: Entity) {
    IsUnit(e) && e.initialState.Some? && e.health.Some? && HasGameObj(e)
  }

  /** The unit put back to its snapshot. Only the engine position, the
      current health, the target id, the last shot time and the dead marker
      are written; the `position` component is not. */
  function ResetUnit(e: Entity): (r: Entity)
    requires Resettable(e)
    ensures Resettable(r) && r.initialState == e.initialState
    ensures PosOf(r) == Vec(e.initialState.value.x, e.initialState.value.y)
    ensures r.health == Some(e.health.value.(current := e.initialState.value.health))
    ensures r.target == (if e.target.Some? then Some(Target(None)) else None)
    ensures r.combat == (if e.combat.Some? then Some(e.combat.value.(lastShotTime := 0.0)) else None)
    ensures r.dead.None? && r.position == e.position && r.id == e.id
    ensures r == WithPos(e, PosOf(r)).(health := r.health, target := r.target, combat := r.combat, dead := None)
  {
    var init := e.initialState.value;
    var moved := WithPos(e, Vec(init.x, init.y));
    moved.(
      health := Some(e.health.value.(current := init.health)),
      target := if e.target.Some? then Some(Target(None)) else None,
      combat := if e.combat.Some? then Some(e.combat.value.(lastShotTime := 0.0)) else None,
      dead := None)
  }

  /** Reset undoes a battle: a unit as `createUnit` built it, after any
      movement, damage, retargeting, firing and death, is restored to
      exactly that record. */
  lemma ResetRestoresCreation(c: UnitTypeConfig, id: nat, x: real, y: real, team: TeamId,
                              p: Vec, h: real, t: Option<nat>, s: real, d: Option<Dead>)
    ensures var e := UnitRecord(c, id, x, y, team);
      var worn := WithPos(e, p).(health := Some(e.health.value.(current := h)), target := Some(Target(t)),
                                 combat := Some(e.combat.value.(lastShotTime := s)), dead := d);
      Resettable(worn) && ResetUnit(worn) == e
  {
  }

  /** Resetting a unit twice is resetting it once. */
  lemma ResetUnitIdempotent(e: Entity)
    requires Resettable(e)
    ensures ResetUnit(ResetUnit(e)) == ResetUnit(e)
  {
  }

  /** The unit loop over a world without bullets. */
  function Restored(w: seq<Entity>): (r: seq<Entity>)
    ensures |r| == |w|
  {
    seq(|w|, k requires 0 <= k < |w| => if Resettable(w[k]) then ResetUnit(w[k]) else w[k])
  }

  /** `resetUnitsToInitialState`: the bullets leave, then the units reset. */
  function ResetWorld(w: seq<Entity>): (r: seq<Entity>)
    ensures |r| <= |w|
    ensures forall k :: 0 <= k < |r| ==> !IsBullet(r[k])
  {
    var kept := RemoveIds(w, IdSet(Bullets(w)));
    assert forall k :: 0 <= k < |kept| ==> !IsBullet(kept[k]) by {
      forall k | 0 <= k < |kept| ensures !IsBullet(kept[k]) {
        assert kept[k] in w;
      }
    }
    Restored(kept)
  }

  /** In a world with distinct ids:
      - no bullet remains;
      - the records kept are exactly the non-bullets, in their order, and
        position by position each is reset or untouched, keeping its id, its
        role as a unit and its `position` component;
      - units that are not resettable are untouched. */
  lemma ResetFacts(w: seq<Entity>)
    requires IdsIncreasing(w)
    ensures var kept := RemoveIds(w, IdSet(Bullets(w))); var r := ResetWorld(w);
      && (forall e :: e in kept <==> e in w && !IsBullet(e))
      && (forall e :: e in r ==> !IsBullet(e))
      && |r| == |kept|
      && (forall k :: 0 <= k < |r| ==>
            && r[k].id == kept[k].id && IsUnit(r[k]) == IsUnit(kept[k]) && r[k].position == kept[k].position
            && r[k] == (if Resettable(kept[k]) then ResetUnit(kept[k]) else kept[k]))
  {
    var b := Bullets(w);
    var kept := RemoveIds(w, IdSet(b));
    forall e | e in w ensures e.id in IdSet(b) <==> IsBullet(e) {
      if e.id in IdSet(b) {
        var x :| x in b && x.id == e.id;
        var i :| 0 <= i < |w| && w[i] == e;
        var j :| 0 <= j < |w| && w[j] == x;
        IdsUnique(w, i, j);
      } else {
        assert IsBullet(e) ==> e in b;
      }
    }
    var r := ResetWorld(w);
    forall e | e in r ensures !IsBullet(e) {
      var k :| 0 <= k < |r| && r[k] == e;
      assert kept[k] in kept;
    }
  }

  /** Resetting twice gives the same world as resetting once. */
  lemma ResetIdempotent(w: seq<Entity>)
    ensures ResetWorld(ResetWorld(w)) == ResetWorld(w)
  {
    var kept := RemoveIds(w, IdSet(Bullets(w)));
    var r := ResetWorld(w);
    forall e | e in r ensures !IsBullet(e) {
      var k :| 0 <= k < |r| && r[k] == e;
    }
    FilterNone(r, IsBullet);
    assert IdSet(Bullets(r)) == {};
    RemoveNothing(r, {});
    forall k | 0 <= k < |r| ensures Restored(r)[k] == r[k] {
      if Resettable(kept[k]) {
        ResetUnitIdempotent(kept[k]);
      }
    }
    assert Restored(r) == r;
  }

  /** Reset keeps the store well formed and sane: a snapshot health lies in
      [0, max]. */
  lemma ResetKeeps(st: Store)
    requires WellFormed(st)
    ensures WellFormed(Store(ResetWorld(st.entities), st.nextId))
    ensures Sane(st.entities) ==> Sane(ResetWorld(st.entities))
  {
    var kept := RemoveIds(st.entities, IdSet(Bullets(st.entities)));
    RemoveIdsWellFormed(st, IdSet(Bullets(st.entities)));
    assert SameIds(kept, Restored(kept));
    SameIdsWellFormed(Store(kept, st.nextId), Restored(kept));
    if Sane(st.entities) {
      RemoveIdsSane(st.entities, IdSet(Bullets(st.entities)));
      forall k | 0 <= k < |kept| ensures StatsSane(Restored(kept)[k]) {
        assert StatsSane(kept[k]);
      }
    }
  }

  /** The body of the unit loop for one resettable unit. */
  method ResetOne(unit: Entity) returns (u: Entity)
    requires Resettable(unit)
    ensures u == ResetUnit(unit)
  {
    var init := unit.initialState.value;
    var gameObj := GameObjOf(unit);
    u := unit.(sprite := Some(Sprite(Some(gameObj.(pos := Vec(init.x, gameObj.pos.y))))));
    u := u.(sprite := Some(Sprite(Some(GameObjOf(u).(pos := Vec(GameObjOf(u).pos.x, init.y))))));
    u := u.(health := Some(u.health.value.(current := init.health)));
    if u.target.Some? {
      u := u.(target := Some(u.target.value.(entityId := None)));
    }
    if u.combat.Some? {
      u := u.(combat := Some(u.combat.value.(lastShotTime := 0.0)));
    }
    if u.dead.Some? {
      u := u.(dead := None);
    }
  }

  /** The unit loop of `resetUnitsToInitialState`: every resettable unit is
      reset in place. */
  method ResetUnits(w: World)
    modifies w
    ensures w.entities == Restored(old(w.entities)) && w.nextId == old(w.nextId)
  {
    ghost var kept := w.entities;
    var i := 0;
    while i < |w.entities|
      invariant 0 <= i <= |w.entities| == |kept|
      invariant w.nextId == old(w.nextId)
      invariant forall k :: 0 <= k < i ==> w.entities[k] == Restored(kept)[k]
      invariant forall k :: i <= k < |kept| ==> w.entities[k] == kept[k]
    {
      var unit := w.entities[i];
      if IsUnit(unit) && unit.initialState.Some? && unit.health.Some? && HasGameObj(unit) {
        var u := ResetOne(unit);
        w.entities := w.entities[i := u];
      }
      i := i + 1;
    }
    assert w.entities == Restored(kept);
  }

  /** `resetUnitsToInitialState`: the bullets leave, then the units reset. */
  method ResetUnitsToInitialState(w: World)
    requires w.Valid()
    modifies w
    ensures w.Valid()
    ensures w.entities == ResetWorld(old(w.entities)) && w.nextId == old(w.nextId)
  {
    var allBullets := Bullets(w.entities);
    RemoveEach(w, allBullets);
    ResetUnits(w);
    ResetKeeps(old(w.State()));
  }

  /** Removing every record that lists an id removes everything. */
  lemma {:induction false} RemoveEverything(w: seq<Entity>, s: set<nat>)
    requires forall e :: e in w ==> e.id in s
    ensures RemoveIds(w, s) == []
  {
    if w != [] {
      RemoveEverything(w[1..], s);
    }
  }

  /** `clearAllUnits`: removes every record, from a snapshot taken first;
      the id counter is not rewound. */
  method ClearAllUnits(w: World)
    requires w.Valid()
    modifies w
    ensures w.Valid()
    ensures w.entities == [] && w.nextId == old(w.nextId)
  {
    var allEntities := w.entities;
    RemoveEach(w, allEntities);
    RemoveEverything(allEntities, IdSet(allEntities));
  }
}
