/** The entity store: the world of entity records, its filtered views, and
    the id discipline that keeps ids unique.

    The world is a sequence of records in insertion order (the order every
    system iterates in, and so the order that breaks ties); removals keep the
    relative order of what remains. The views are predicates on a record and
    are always current: a component added or deleted is seen by the next read. */
module Ecs {
  import opened Components

  /** `world.with('position', 'health', 'combat', 'team', 'unitType')` */
  predicate IsUnit(e: Entity) {
    e.position.Some? && e.health.Some? && e.combat.Some? && e.team.Some? && e.unitType.Some?
  }

  /** `world.with('bullet', 'sprite')` */
  predicate IsBullet(e: Entity) {
    e.bullet.Some? && e.sprite.Some?
  }

  /** `world.with('health').without('dead')` */
  predicate IsAlive(e: Entity) {
    e.health.Some? && e.dead.None?
  }

  /** `world.with('dead')` */
  predicate IsDead(e: Entity) {
    e.dead.Some?
  }

  /** `world.with('target')` */
  predicate HasTarget(e: Entity) {
    e.target.Some?
  }

  /** `world.with('movement', 'position')` */
  predicate IsMoving(e: Entity) {
    e.movement.Some? && e.position.Some?
  }

  /** A target id the systems treat as no target: null, or the falsy id 0. */
  predicate NullRef(id: Option<nat>) {
    id.None? || id.value == 0
  }

  /** The records of `w` that satisfy `p`, in their order in `w`. */
  function Filter(w: seq<Entity>, p: Entity -> bool): (r: seq<Entity>)
    ensures forall e :: e in r <==> e in w && p(e)
    ensures |r| <= |w|
  {
    if w == [] then [] else (if p(w[0]) then [w[0]] else []) + Filter(w[1..], p)
  }

  lemma {:induction false} FilterNone(w: seq<Entity>, p: Entity -> bool)
    requires forall e :: e in w ==> !p(e)
    ensures Filter(w, p) == []
  {
    if w != [] {
      FilterNone(w[1..], p);
    }
  }

  function Units(w: seq<Entity>): (r: seq<Entity>)
    ensures forall e :: e in r <==> e in w && IsUnit(e)
  {
    Filter(w, IsUnit)
  }

  function Bullets(w: seq<Entity>): (r: seq<Entity>)
    ensures forall e :: e in r <==> e in w && IsBullet(e)
  {
    Filter(w, IsBullet)
  }

  function AliveEntities(w: seq<Entity>): (r: seq<Entity>)
    ensures forall e :: e in r <==> e in w && IsAlive(e)
  {
    Filter(w, IsAlive)
  }

  function DeadEntities(w: seq<Entity>): (r: seq<Entity>)
    ensures forall e :: e in r <==> e in w && IsDead(e)
  {
    Filter(w, IsDead)
  }

  function WithTarget(w: seq<Entity>): (r: seq<Entity>)
    ensures forall e :: e in r <==> e in w && HasTarget(e)
  {
    Filter(w, HasTarget)
  }

  function Moving(w: seq<Entity>): (r: seq<Entity>)
    ensures forall e :: e in r <==> e in w && IsMoving(e)
  {
    Filter(w, IsMoving)
  }

  /** The ids of a list of records. */
  function IdSet(es: seq<Entity>): set<nat> {
    set e | e in es :: e.id
  }

  lemma IdSetSnoc(es: seq<Entity>, e: Entity)
    ensures IdSet(es + [e]) == IdSet(es) + {e.id}
  {
    assert forall x :: x in es + [e] <==> x in es || x == e;
  }

  /** `world.remove` of every record whose id is in `s`. */
  function RemoveIds(w: seq<Entity>, s: set<nat>): (r: seq<Entity>)
    ensures forall e :: e in r <==> e in w && e.id !in s
    ensures |r| <= |w|
  {
    if w == [] then [] else (if w[0].id in s then [] else [w[0]]) + RemoveIds(w[1..], s)
  }

  /** Removing one batch of ids and then another is removing both at once,
      whatever the order. */
  lemma {:induction false} RemoveIdsTwice(w: seq<Entity>, s: set<nat>, t: set<nat>)
    ensures RemoveIds(RemoveIds(w, s), t) == RemoveIds(w, s + t)
  {
    if w != [] {
      RemoveIdsTwice(w[1..], s, t);
      var once := RemoveIds(w, s);
      if w[0].id in s {
        assert once == RemoveIds(w[1..], s);
      } else {
        assert once == [w[0]] + RemoveIds(w[1..], s);
        assert once[0] == w[0] && once[1..] == RemoveIds(w[1..], s);
      }
    }
  }

  /** Removing nothing changes nothing. */
  lemma {:induction false} RemoveNothing(w: seq<Entity>, s: set<nat>)
    requires forall e :: e in w ==> e.id !in s
    ensures RemoveIds(w, s) == w
  {
    if w != [] {
      RemoveNothing(w[1..], s);
    }
  }

  /** Ids strictly increase along the world (they are allocated from a
      counter that only rises and records are appended). */
  predicate IdsIncreasing(w: seq<Entity>) {
    forall i, j :: 0 <= i < j < |w| ==> w[i].id < w[j].id
  }

  /** Every id was handed out before the counter reached `n`. */
  predicate IdsBelow(w: seq<Entity>, n: nat) {
    forall i :: 0 <= i < |w| ==> 1 <= w[i].id < n
  }

  /** The world together with the `nextEntityId` counter of the factory. */
  datatype Store = Store(entities: seq<Entity>, nextId: nat)

  predicate WellFormed(s: Store) {
    1 <= s.nextId && IdsIncreasing(s.entities) && IdsBelow(s.entities, s.nextId)
  }

  /** In a world with increasing ids a record is determined by its id. */
  lemma IdsUnique(w: seq<Entity>, i: nat, j: nat)
    requires IdsIncreasing(w) && i < |w| && j < |w|
    ensures w[i].id == w[j].id <==> i == j
  {
  }

  /** Dropping records keeps ids increasing. */
  lemma {:induction false} RemoveIdsIncreasing(w: seq<Entity>, s: set<nat>)
    requires IdsIncreasing(w)
    ensures IdsIncreasing(RemoveIds(w, s))
  {
    if w != [] {
      RemoveIdsIncreasing(w[1..], s);
      var rest := RemoveIds(w[1..], s);
      forall e | e in rest ensures w[0].id < e.id {
        assert e in w[1..];
      }
    }
  }

  /** Removal keeps the store well formed and leaves the counter alone. */
  lemma RemoveIdsWellFormed(st: Store, s: set<nat>)
    requires WellFormed(st)
    ensures WellFormed(Store(RemoveIds(st.entities, s), st.nextId))
  {
    RemoveIdsIncreasing(st.entities, s);
    var r := RemoveIds(st.entities, s);
    forall i | 0 <= i < |r| ensures 1 <= r[i].id < st.nextId {
      assert r[i] in st.entities;
    }
  }

  /** A record that a well-formed store does not yet hold, carrying the
      counter's value, may be appended once the counter is raised. */
  lemma AppendWellFormed(st: Store, e: Entity)
    requires WellFormed(st) && e.id == st.nextId
    ensures WellFormed(Store(st.entities + [e], st.nextId + 1))
  {
  }

  /** Two worlds with the same ids, position by position. */
  predicate SameIds(a: seq<Entity>, b: seq<Entity>) {
    |a| == |b| && forall k :: 0 <= k < |a| ==> a[k].id == b[k].id
  }

  lemma SameIdsWellFormed(st: Store, w: seq<Entity>)
    requires WellFormed(st) && SameIds(st.entities, w)
    ensures WellFormed(Store(w, st.nextId))
  {
  }

  /** `Array.from(entities.units.entities).find(e => e.id === id)`, searched
      from position `k`: the first unit with that id. */
  function FindUnitFrom(w: seq<Entity>, id: nat, k: nat): (r: Option<nat>)
    requires k <= |w|
    decreases |w| - k
    ensures r.Some? ==> k <= r.value < |w| && IsUnit(w[r.value]) && w[r.value].id == id
    ensures r.Some? ==> forall j :: k <= j < r.value ==> !(IsUnit(w[j]) && w[j].id == id)
    ensures r.None? ==> forall j :: k <= j < |w| ==> !(IsUnit(w[j]) && w[j].id == id)
  {
    if k == |w| then None
    else if IsUnit(w[k]) && w[k].id == id then Some(k)
    else FindUnitFrom(w, id, k + 1)
  }

  function FindUnit(w: seq<Entity>, id: nat): (r: Option<nat>)
    ensures r.Some? ==> r.value < |w| && IsUnit(w[r.value]) && w[r.value].id == id
    ensures r.None? <==> forall j :: 0 <= j < |w| ==> !(IsUnit(w[j]) && w[j].id == id)
  {
    FindUnitFrom(w, id, 0)
  }

  /** The first record (unit or not) with the given id. */
  function FindEntity(w: seq<Entity>, id: nat): (r: Option<nat>)
    ensures r.Some? ==> r.value < |w| && w[r.value].id == id
    ensures r.Some? ==> forall j :: 0 <= j < r.value ==> w[j].id != id
    ensures r.None? <==> forall j :: 0 <= j < |w| ==> w[j].id != id
  {
    if w == [] then None
    else if w[0].id == id then Some(0)
    else match FindEntity(w[1..], id)
      case None => None
      case Some(j) => Some(j + 1)
  }

  /** The numeric sanity the engine keeps: health within [0, max], damages
      that are not negative, and a snapshot health a reset may restore. */
  predicate StatsSane(e: Entity) {
    && (e.health.Some? ==> 0.0 <= e.health.value.current <= e.health.value.max)
    && (e.combat.Some? ==> e.combat.value.damage >= 0.0)
    && (e.bullet.Some? ==> e.bullet.value.damage >= 0.0)
    && (e.health.Some? && e.initialState.Some? ==>
          0.0 <= e.initialState.value.health <= e.health.value.max)
  }

  predicate Sane(w: seq<Entity>) {
    forall k :: 0 <= k < |w| ==> StatsSane(w[k])
  }

  lemma RemoveIdsSane(w: seq<Entity>, s: set<nat>)
    requires Sane(w)
    ensures Sane(RemoveIds(w, s))
  {
    var r := RemoveIds(w, s);
    forall k | 0 <= k < |r| ensures StatsSane(r[k]) {
      assert r[k] in w;
    }
  }

  /** The mutable store of the simulation: miniplex's world and the module
      counter `nextEntityId`, owned together. */
  class World {
    var entities: seq<Entity>
    var nextId: nat

    ghost predicate Valid()
      reads this
    {
      WellFormed(Store(entities, nextId))
    }

    function State(): Store
      reads this
    {
      Store(entities, nextId)
    }

    /** The empty world with the counter at its initial value 1. */
    constructor ()
      ensures Valid()
      ensures entities == [] && nextId == 1
    {
      entities := [];
      nextId := 1;
    }
  }
}
