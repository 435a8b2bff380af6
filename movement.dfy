/** Movement: a unit with a visible target outside its engagement range
    steps toward it at its movement speed; otherwise it stays where it is.

    Units are processed in world order and each step is written back at
    once, so a unit that looks up its target later in the same pass sees
    where that target has already moved to. */
module Movement {
  import opened Components
  import opened Ecs

  /** The gates that depend on the unit alone: a movement component, a
      target component, an engine object, no dead marker, a non-null id. */
  predicate Mobile(u: Entity) {
    u.movement.Some? && u.target.Some? && HasGameObj(u) && u.dead.None? && !NullRef(u.target.value.entityId)
  }

  /** The position `u` heads for in world `w`: that of the first unit whose
      id is the target id, if it has an engine object. */
  function Destination(w: seq<Entity>, u: Entity): (r: Option<Vec>)
    requires Mobile(u)
    ensures r.Some? <==> exists j :: 0 <= j < |w| && IsUnit(w[j]) && w[j].id == u.target.value.entityId.value
                                     && HasGameObj(w[j]) && FindUnit(w, w[j].id) == Some(j)
    ensures r.Some? ==> var t := FindUnit(w, u.target.value.entityId.value);
              t.Some? && HasGameObj(w[t.value]) && r.value == PosOf(w[t.value])
  {
    match FindUnit(w, u.target.value.entityId.value)
    case None => None
    case Some(t) => if HasGameObj(w[t]) then Some(PosOf(w[t])) else None
  }

  /** The unit moves this frame: it is mobile, its target is found with an
      engine object, and it is farther away than the engagement range. */
  predicate Advances(w: seq<Entity>, u: Entity, g: Geometry) {
    Mobile(u) && Destination(w, u).Some?
    && g.dist(PosOf(u), Destination(w, u).value) > u.movement.value.engagementRange
  }

  /** The unit after its movement step in world `w`. */
  function MoveUnit(w: seq<Entity>, u: Entity, g: Geometry, dt: real): (r: Entity)
    ensures !Advances(w, u, g) ==> r == u
    ensures Advances(w, u, g) ==> HasGameObj(r) && r == WithPos(u, PosOf(r))
  {
    if !Advances(w, u, g) then u
    else
      var p := PosOf(u);
      var direction := g.unit(Sub(Destination(w, u).value, p));
      WithPos(u, Move(p, Scale(direction, u.movement.value.speed), dt))
  }

  /** An advancing unit is displaced by `speed * dt` along the supplied unit
      direction toward its destination; when that direction is a non-negative
      multiple `c` of the offset, the unit lands on the segment's line at
      fraction `c * speed * dt` of the way. */
  lemma MoveUnitTowardTarget(w: seq<Entity>, u: Entity, g: Geometry, dt: real, c: real)
    requires Advances(w, u, g)
    requires var off := Sub(Destination(w, u).value, PosOf(u)); g.unit(off) == Scale(off, c)
    ensures var p := PosOf(u); var d := Destination(w, u).value; var t := c * u.movement.value.speed * dt;
      PosOf(MoveUnit(w, u, g, dt)) == Vec(p.x + t * (d.x - p.x), p.y + t * (d.y - p.y))
  {
    var p := PosOf(u);
    var d := Destination(w, u).value;
    var s := u.movement.value.speed;
    var off := Sub(d, p);
    assert PosOf(MoveUnit(w, u, g, dt)) == Move(p, Scale(Scale(off, c), s), dt);
    assert off.x * c * s * dt == c * s * dt * off.x;
    assert off.y * c * s * dt == c * s * dt * off.y;
  }

  /** `updateMovement` as it runs, from position `i` on, each step written
      back before the next unit looks at the world. */
  function MovePass(w: seq<Entity>, i: nat, g: Geometry, dt: real): (r: seq<Entity>)
    requires i <= |w|
    decreases |w| - i
    ensures |r| == |w|
    ensures forall k :: 0 <= k < |w| ==> r[k].(sprite := w[k].sprite) == w[k]
    ensures forall k :: 0 <= k < |w| && (k < i || !IsUnit(w[k])) ==> r[k] == w[k]
  {
    if i == |w| then w
    else MovePass(if IsUnit(w[i]) then w[i := MoveUnit(w, w[i], g, dt)] else w, i + 1, g, dt)
  }

  /** `b` is `a` with some engine-object positions changed and nothing else. */
  predicate OnlyPositions(a: seq<Entity>, b: seq<Entity>) {
    |a| == |b| && forall k :: 0 <= k < |a| ==> b[k] == a[k] || (HasGameObj(a[k]) && HasGameObj(b[k]) && b[k] == WithPos(a[k], PosOf(b[k])))
  }

  lemma OnlyPositionsTrans(a: seq<Entity>, b: seq<Entity>, c: seq<Entity>)
    requires OnlyPositions(a, b) && OnlyPositions(b, c)
    ensures OnlyPositions(a, c)
  {
    forall k | 0 <= k < |a|
      ensures c[k] == a[k] || (HasGameObj(a[k]) && HasGameObj(c[k]) && c[k] == WithPos(a[k], PosOf(c[k])))
    {
      if c[k] != b[k] && b[k] != a[k] {
        assert c[k] == WithPos(WithPos(a[k], PosOf(b[k])), PosOf(c[k]));
      }
    }
  }

  /** The pass changes engine positions and nothing else: no record is added
      or removed, no health, combat or target is touched, only units move,
      and a unit failing the unit-only gates keeps its record. */
  lemma {:induction false} MovePassFacts(w: seq<Entity>, i: nat, g: Geometry, dt: real)
    requires i <= |w|
    decreases |w| - i
    ensures var r := MovePass(w, i, g, dt);
      && OnlyPositions(w, r)
      && (forall k :: 0 <= k < |w| && !(k >= i && IsUnit(w[k]) && Mobile(w[k])) ==> r[k] == w[k])
  {
    if i < |w| {
      var next := if IsUnit(w[i]) then w[i := MoveUnit(w, w[i], g, dt)] else w;
      MovePassFacts(next, i + 1, g, dt);
      assert OnlyPositions(w, next);
      OnlyPositionsTrans(w, next, MovePass(next, i + 1, g, dt));
    }
  }

  /** Positions say nothing about ids or health, so the world stays well
      formed and sane. */
  lemma OnlyPositionsKeeps(st: Store, b: seq<Entity>)
    requires WellFormed(st) && OnlyPositions(st.entities, b)
    ensures WellFormed(Store(b, st.nextId))
    ensures Sane(st.entities) ==> Sane(b)
  {
    assert SameIds(st.entities, b);
    SameIdsWellFormed(st, b);
    if Sane(st.entities) {
      forall k | 0 <= k < |b| ensures StatsSane(b[k]) {
        assert StatsSane(st.entities[k]);
      }
    }
  }

  /** The turn of the record at `i` in `updateMovement`: a unit takes its
      step in the world as it stands, any other record is passed over. */
  method MoveTurn(w: World, i: nat, g: Geometry, dt: real)
    requires i < |w.entities|
    modifies w
    ensures w.entities == if IsUnit(old(w.entities)[i]) then old(w.entities)[i := MoveUnit(old(w.entities), old(w.entities)[i], g, dt)]
                          else old(w.entities)
    ensures w.nextId == old(w.nextId)
  {
    var unit := w.entities[i];
    if IsUnit(unit) {
      if unit.movement.Some? && unit.target.Some? && HasGameObj(unit) && unit.dead.None? {
        var targetId := unit.target.value.entityId;
        if !NullRef(targetId) {
          var t := FindUnit(w.entities, targetId.value);
          if t.Some? && HasGameObj(w.entities[t.value]) {
            var targetPos := PosOf(w.entities[t.value]);
            var dist := g.dist(PosOf(unit), targetPos);
            if dist > unit.movement.value.engagementRange {
              var direction := g.unit(Sub(targetPos, PosOf(unit)));
              var moveSpeed := unit.movement.value.speed;
              w.entities := w.entities[i := WithPos(unit, Move(PosOf(unit), Scale(direction, moveSpeed), dt))];
              return;
            }
          }
        }
      }
      assert w.entities[i := MoveUnit(w.entities, unit, g, dt)] == w.entities;
    }
  }

  /** `updateMovement`. The frame time the engine's `move` scales by is `dt`. */
  method UpdateMovement(w: World, g: Geometry, dt: real)
    requires w.Valid()
    modifies w
    ensures w.Valid()
    ensures w.entities == MovePass(old(w.entities), 0, g, dt)
    ensures w.nextId == old(w.nextId)
  {
    MovePassFacts(w.entities, 0, g, dt);
    OnlyPositionsKeeps(w.State(), MovePass(w.entities, 0, g, dt));
    var i := 0;
    while i < |w.entities|
      invariant 0 <= i <= |w.entities| == |old(w.entities)|
      invariant w.nextId == old(w.nextId)
      invariant MovePass(w.entities, i, g, dt) == MovePass(old(w.entities), 0, g, dt)
    {
      MoveTurn(w, i, g, dt);
      i := i + 1;
    }
  }
}
