/** The entity factory: unit and bullet construction with id allocation, the
    bullet's hit handler, and removal.

    Ids come from the counter of the `World`: each new record takes the
    counter's value and the counter rises by one, so ids are never reused,
    not even after removal. A collision reported by the engine is delivered
    as an explicit call `OnHit(bulletId, struckTags)`, the struck object being
    known to the handler only by its tags. */
module Entities {
  import opened Components
  import opened Ecs
  import opened UnitTypes

  // ---------------------------------------------------------------------
  // Tags: `unit-<id>` is written at creation and parsed back by a hit.

  function DigitChar(d: nat): (c: char)
    requires d < 10
    ensures '0' <= c <= '9'
  {
    (('0' as int) + d) as char
  }

  /** The decimal spelling of `n`, as `${n}` writes it. */
  function NatToString(n: nat): (s: string)
    decreases n
  {
    if n < 10 then [DigitChar(n)] else NatToString(n / 10) + [DigitChar(n % 10)]
  }

  predicate IsDigit(c: char) { '0' <= c <= '9' }

  function DigitValue(c: char): nat
    requires IsDigit(c)
  {
    c as int - '0' as int
  }

  /** The value of a string of decimal digits, read left to right. */
  function DigitsValue(s: string): nat
    requires forall i :: 0 <= i < |s| ==> IsDigit(s[i])
  {
    if s == [] then 0
    else DigitsValue(s[..|s| - 1]) * 10 + DigitValue(s[|s| - 1])
  }

  /** The longest prefix of `s` made of decimal digits. */
  function DigitPrefix(s: string): (p: string)
    ensures |p| <= |s| && p == s[..|p|]
    ensures forall i :: 0 <= i < |p| ==> IsDigit(p[i])
  {
    if s == [] || !IsDigit(s[0]) then [] else [s[0]] + DigitPrefix(s[1..])
  }

  /** `parseInt` on a string of digits: the value of its leading digits, or
      nothing (NaN) when it does not start with one. */
  function ParseInt(s: string): Option<nat> {
    var p := DigitPrefix(s);
    if p == [] then None else Some(DigitsValue(p))
  }

  /** The part of `s` before its first '-' (`split('-')` keeps the pieces
      between dashes). */
  function UpToDash(s: string): (p: string)
    ensures |p| <= |s| && p == s[..|p|]
  {
    if s == [] || s[0] == '-' then [] else [s[0]] + UpToDash(s[1..])
  }

  predicate HasPrefix(t: string, p: string) {
    |p| <= |t| && t[..|p|] == p
  }

  /** `tags.find(t => t.startsWith('unit-'))`: the first tag with the prefix,
      or nothing when no tag has it. */
  function FindUnitTag(tags: seq<string>): (r: Option<string>)
    ensures r.None? <==> forall i :: 0 <= i < |tags| ==> !HasPrefix(tags[i], "unit-")
    ensures r.Some? ==> exists i :: 0 <= i < |tags| && tags[i] == r.value && HasPrefix(r.value, "unit-")
                                    && forall j :: 0 <= j < i ==> !HasPrefix(tags[j], "unit-")
  {
    if tags == [] then None
    else if HasPrefix(tags[0], "unit-") then Some(tags[0])
    else FindUnitTag(tags[1..])
  }

  /** The id a hit reads from the struck object's tags:
      `parseInt(tag?.split('-')[1] || '0')`. Nothing stands for NaN. */
  function ParseHitId(tags: seq<string>): (r: Option<nat>)
    ensures FindUnitTag(tags).None? ==> r == Some(0)
    ensures r.None? ==> var t := FindUnitTag(tags).value; FindUnitTag(tags).Some? && |t| > 5 && !IsDigit(t[5])
  {
    assert "0"[1..] == [];
    var piece := match FindUnitTag(tags)
      case None => ""
      case Some(t) => UpToDash(t[5..]);
    ParseInt(if piece == "" then "0" else piece)
  }

  function UnitTag(id: nat): string { "unit-" + NatToString(id) }

  /** The tags of a unit's engine object. */
  function UnitTags(team: TeamId, id: nat): seq<string> {
    ["unit", "team-" + TeamName(team), UnitTag(id)]
  }

  /** The tags of a bullet's engine object. */
  function BulletTags(id: nat): seq<string> {
    ["bullet", "bullet-" + NatToString(id)]
  }

  lemma {:induction false} NatToStringDigits(n: nat)
    decreases n
    ensures |NatToString(n)| > 0
    ensures forall i :: 0 <= i < |NatToString(n)| ==> IsDigit(NatToString(n)[i])
  {
    if n >= 10 {
      NatToStringDigits(n / 10);
    }
  }

  lemma {:induction false} NatToStringValue(n: nat)
    decreases n
    ensures forall i :: 0 <= i < |NatToString(n)| ==> IsDigit(NatToString(n)[i])
    ensures DigitsValue(NatToString(n)) == n
  {
    NatToStringDigits(n);
    if n >= 10 {
      NatToStringValue(n / 10);
      var s := NatToString(n);
      assert s[..|s| - 1] == NatToString(n / 10);
    }
  }

  lemma {:induction false} DigitsArePrefix(s: string)
    requires forall i :: 0 <= i < |s| ==> IsDigit(s[i])
    ensures DigitPrefix(s) == s && UpToDash(s) == s
  {
    if s != [] {
      DigitsArePrefix(s[1..]);
    }
  }

  /** The tag written at creation reads back as the unit's own id. */
  lemma UnitTagRoundTrip(team: TeamId, id: nat)
    ensures ParseHitId(UnitTags(team, id)) == Some(id)
  {
    var tags := UnitTags(team, id);
    assert !HasPrefix(tags[0], "unit-");
    assert tags[1][..5] == "team-";
    assert !HasPrefix(tags[1], "unit-");
    assert HasPrefix(tags[2], "unit-");
    assert FindUnitTag(tags) == Some(UnitTag(id)) by {
      assert FindUnitTag(tags) == FindUnitTag(tags[1..]);
      assert tags[1..][0] == tags[1];
      assert FindUnitTag(tags[1..]) == FindUnitTag(tags[1..][1..]);
      assert tags[1..][1..] == [UnitTag(id)];
    }
    assert UnitTag(id)[5..] == NatToString(id);
    NatToStringValue(id);
    NatToStringDigits(id);
    DigitsArePrefix(NatToString(id));
  }

  // ---------------------------------------------------------------------
  // The records built by the factory.

  /** The record `createUnit` adds for a registered config: full health, no
      target, never fired, stopping at nine tenths of its range, and a
      snapshot of where and how healthy it started. */
  function UnitRecord(c: UnitTypeConfig, id: nat, x: real, y: real, team: TeamId): (r: Entity)
    ensures r.id == id && IsUnit(r) && !IsBullet(r) && IsAlive(r) && HasGameObj(r)
    ensures ParseHitId(GameObjOf(r).tags) == Some(id)
    ensures r.position == Some(Vec(x, y)) && PosOf(r) == Vec(x, y) && r.team == Some(Team(team))
    ensures r.health == Some(Health(c.health, c.health))
    ensures r.combat == Some(Combat(c.damage, c.range, c.reloadTime, c.accuracy, 0.0))
    ensures r.target == Some(Target(None)) && r.dead.None?
    ensures r.unitType == Some(UnitType(c.typeId, c.targetPriority))
    ensures r.movement.Some? && r.movement.value.speed == c.moveSpeed
    ensures r.movement.value.engagementRange == c.range * 0.9
    ensures c.range >= 0.0 ==> r.movement.value.engagementRange <= r.combat.value.range
    ensures r.initialState == Some(InitialState(x, y, c.health))
    ensures ConfigSound(c) ==> StatsSane(r)
  {
    UnitTagRoundTrip(team, id);
    Entity(
      id := id,
      position := Some(Vec(x, y)),
      velocity := Some(Velocity(0.0, 0.0)),
      health := Some(Health(c.health, c.health)),
      combat := Some(Combat(c.damage, c.range, c.reloadTime, c.accuracy, 0.0)),
      target := Some(Target(None)),
      unitType := Some(UnitType(c.typeId, c.targetPriority)),
      team := Some(Team(team)),
      sprite := Some(Sprite(Some(GameObj(Vec(x, y), UnitTags(team, id), None, 0.0)))),
      bullet := None,
      dead := None,
      movement := Some(Movement(c.moveSpeed, None, None, c.range * 0.9)),
      initialState := Some(InitialState(x, y, c.health)))
  }

  /** The record `createBullet` adds: a bullet with an engine object at the
      muzzle, flying along the fixed direction from `from` toward `to`. */
  function BulletRecord(id: nat, from: Vec, to: Vec, damage: real, ownerId: nat, speed: real, g: Geometry): (r: Entity)
    ensures r.id == id && IsBullet(r) && !IsUnit(r) && !IsAlive(r) && HasGameObj(r)
    ensures PosOf(r) == from && r.bullet == Some(Bullet(ownerId, damage, speed))
    ensures GameObjOf(r).direction == Some(g.unit(Sub(to, from))) && GameObjOf(r).speed == speed
    ensures damage >= 0.0 ==> StatsSane(r)
  {
    Entity(
      id := id,
      position := None,
      velocity := None,
      health := None,
      combat := None,
      target := None,
      unitType := None,
      team := None,
      sprite := Some(Sprite(Some(GameObj(from, BulletTags(id), Some(g.unit(Sub(to, from))), speed)))),
      bullet := Some(Bullet(ownerId, damage, speed)),
      dead := None,
      movement := None,
      initialState := None)
  }

  // ---------------------------------------------------------------------
  // The hit handler.

  /** Damage applied to a struck unit: health falls by `damage`; at or below
      zero it is clamped to exactly zero and the unit is marked dead. */
  function Damaged(e: Entity, damage: real): (r: Entity)
    ensures r.(health := e.health, dead := e.dead) == e
    ensures e.health.None? ==> r == e
    ensures e.health.Some? ==> r.health.Some? && r.health.value.max == e.health.value.max
    ensures e.health.Some? && e.health.value.current - damage > 0.0 ==>
              r.health.value.current == e.health.value.current - damage && r.dead == e.dead
    ensures e.health.Some? && e.health.value.current - damage <= 0.0 ==>
              r.health.value.current == 0.0 && r.dead == Some(Dead(true))
  {
    if e.health.None? then e
    else
      var h := e.health.value;
      var c := h.current - damage;
      if c <= 0.0 then e.(health := Some(h.(current := 0.0)), dead := Some(Dead(true)))
      else e.(health := Some(h.(current := c)))
  }

  /** The struck unit of a collision, found the way the handler finds it.
      The handler is a closure made by `createBullet`: it knows its bullet
      only through what it captured then, the shooter's id `ownerId` and the
      `damage`, and never looks the bullet up. The shooter and the struck
      unit must both be found among the units, and the struck unit must be
      on another team than the shooter. */
  function StrikeOf(w: seq<Entity>, ownerId: nat, struckTags: seq<string>): (r: Option<nat>)
    ensures r.Some? ==> r.value < |w| && IsUnit(w[r.value]) && ParseHitId(struckTags) == Some(w[r.value].id)
    ensures r.Some? ==> var o := FindUnit(w, ownerId);
              o.Some? && w[o.value].team.Some? && w[r.value].team.Some?
              && w[o.value].team.value.id != w[r.value].team.value.id
  {
    match FindUnit(w, ownerId)
    case None => None
    case Some(o) =>
      match ParseHitId(struckTags)
      case None => None
      case Some(hid) =>
        match FindUnit(w, hid)
        case None => None
        case Some(h) =>
          if w[h].team.Some? && w[o].team.Some? && w[h].team.value.id != w[o].team.value.id
          then Some(h)
          else None
  }

  /** What a collision reported to the handler of bullet `bulletId` does to
      the world. */
  function ApplyHit(w: seq<Entity>, bulletId: nat, ownerId: nat, damage: real, struckTags: seq<string>): (r: seq<Entity>)
    ensures |r| <= |w|
    ensures r == w || forall e :: e in r ==> e.id != bulletId
  {
    match StrikeOf(w, ownerId, struckTags)
    case None => w
    case Some(h) => Strike(w, bulletId, h, damage)
  }

  /** The struck unit takes the damage, then the bullet is removed. */
  function Strike(w: seq<Entity>, bulletId: nat, h: nat, damage: real): (r: seq<Entity>)
    requires h < |w|
    ensures |r| <= |w|
    ensures forall e :: e in r ==> e.id != bulletId
    ensures forall e :: e in r && e.id != w[h].id ==> e in w
  {
    var w' := w[h := Damaged(w[h], damage)];
    assert forall e :: e in w' && e.id != w[h].id ==> e in w by {
      forall e | e in w' && e.id != w[h].id ensures e in w {
        var k :| 0 <= k < |w'| && w'[k] == e;
        assert k != h;
      }
    }
    RemoveIds(w', {bulletId})
  }

  /** In a well-formed world a strike puts the damaged unit in place of the
      struck one (unless the bullet shares its id), and keeps the id
      discipline and, for a non-negative damage, the numeric sanity. */
  lemma StrikeFacts(st: Store, bulletId: nat, h: nat, damage: real)
    requires WellFormed(st) && h < |st.entities|
    ensures var w := st.entities; var r := Strike(w, bulletId, h, damage);
      && (w[h].id != bulletId ==> Damaged(w[h], damage) in r)
      && WellFormed(Store(r, st.nextId))
      && (Sane(w) && damage >= 0.0 ==> Sane(r))
  {
    var w := st.entities;
    var w' := w[h := Damaged(w[h], damage)];
    assert w'[h] in w';
    assert SameIds(w, w');
    SameIdsWellFormed(st, w');
    RemoveIdsWellFormed(Store(w', st.nextId), {bulletId});
    if Sane(w) && damage >= 0.0 {
      assert StatsSane(w[h]);
      assert Sane(w');
      RemoveIdsSane(w', {bulletId});
    }
  }

  /** With distinct ids, a lookup of a record's own id finds that record. */
  lemma FoundAt(w: seq<Entity>, k: nat)
    requires IdsIncreasing(w) && k < |w|
    ensures FindEntity(w, w[k].id) == Some(k)
    ensures IsUnit(w[k]) ==> FindUnit(w, w[k].id) == Some(k)
  {
    IdsUnique(w, k, FindEntity(w, w[k].id).value);
    if IsUnit(w[k]) {
      IdsUnique(w, k, FindUnit(w, w[k].id).value);
    }
  }

  /** The shooter is gone from the units: the hit is ignored and the bullet
      stays. */
  lemma HitWithoutOwner(w: seq<Entity>, bulletId: nat, ownerId: nat, damage: real, struckTags: seq<string>)
    requires FindUnit(w, ownerId).None?
    ensures ApplyHit(w, bulletId, ownerId, damage, struckTags) == w
  {
  }

  /** No friendly fire: a struck unit on the shooter's own team loses no
      health, and the bullet is not consumed. */
  lemma HitFriendly(w: seq<Entity>, o: nat, h: nat, bulletId: nat, damage: real, struckTags: seq<string>)
    requires IdsIncreasing(w) && o < |w| && h < |w| && IsUnit(w[o]) && IsUnit(w[h])
    requires ParseHitId(struckTags) == Some(w[h].id)
    requires w[h].team == w[o].team
    ensures ApplyHit(w, bulletId, w[o].id, damage, struckTags) == w
  {
    FoundAt(w, o);
    FoundAt(w, h);
  }

  /** A hit on an enemy: the struck unit takes the damage (clamped at zero,
      where it is marked dead), the bullet is removed, and every other record
      is unchanged. This holds whether or not the bullet is still in the
      world: a second report for a bullet already consumed strikes again. */
  lemma HitEnemy(st: Store, o: nat, h: nat, bulletId: nat, damage: real, struckTags: seq<string>)
    requires WellFormed(st) && o < |st.entities| && h < |st.entities|
    requires var w := st.entities; IsUnit(w[o]) && IsUnit(w[h])
    requires var w := st.entities; ParseHitId(struckTags) == Some(w[h].id)
    requires var w := st.entities; w[h].team != w[o].team
    ensures var w := st.entities; var r := ApplyHit(w, bulletId, w[o].id, damage, struckTags);
      && r == RemoveIds(w[h := Damaged(w[h], damage)], {bulletId})
      && (forall e :: e in r ==> e.id != bulletId)
      && (w[h].id != bulletId ==> Damaged(w[h], damage) in r)
      && (forall e :: e in r && e.id != w[h].id ==> e in w)
  {
    var w := st.entities;
    FoundAt(w, o);
    FoundAt(w, h);
    StrikeFacts(st, bulletId, h, damage);
  }

  /** A hit with a non-negative damage never breaks the numeric sanity nor
      the id discipline. */
  lemma HitSane(st: Store, bulletId: nat, ownerId: nat, damage: real, struckTags: seq<string>)
    requires WellFormed(st) && Sane(st.entities) && damage >= 0.0
    ensures Sane(ApplyHit(st.entities, bulletId, ownerId, damage, struckTags))
    ensures WellFormed(Store(ApplyHit(st.entities, bulletId, ownerId, damage, struckTags), st.nextId))
  {
    match StrikeOf(st.entities, ownerId, struckTags)
    case None =>
    case Some(h) => StrikeFacts(st, bulletId, h, damage);
  }

  /** The handler as the file has it: its first statement reads
      `entities.units`, but the file imports `world` and never `entities`, so every report
      ends in a ReferenceError before anything is written. */
  function HitAsWritten(w: seq<Entity>, bulletId: nat, ownerId: nat, damage: real, struckTags: seq<string>): seq<Entity> {
    w
  }

  /** Where the two handlers part: on an enemy hit the handler as written
      leaves the struck unit unharmed and the bullet in the world, while the
      intended one consumes the bullet. */
  lemma HitAsWrittenDealsNoDamage(st: Store, b: nat, o: nat, h: nat, damage: real, struckTags: seq<string>)
    requires WellFormed(st) && b < |st.entities| && o < |st.entities| && h < |st.entities|
    requires var w := st.entities; IsBullet(w[b]) && IsUnit(w[o]) && IsUnit(w[h])
    requires var w := st.entities; ParseHitId(struckTags) == Some(w[h].id) && w[h].team != w[o].team
    ensures var w := st.entities; var written := HitAsWritten(w, w[b].id, w[o].id, damage, struckTags);
      && w[b] in written && w[h] in written
      && written != ApplyHit(w, w[b].id, w[o].id, damage, struckTags)
  {
    var w := st.entities;
    HitEnemy(st, o, h, w[b].id, damage, struckTags);
    assert w[b] in w;
  }

  // ---------------------------------------------------------------------
  // The factory's operations on the world.

  datatype CreateResult = Created(entity: Entity) | UnknownUnitType(typeId: string)

  /** `createUnit`: an unknown type fails and changes nothing, not even the
      counter; a known one appends its unit record under the counter's id. */
  method CreateUnit(w: World, unitType: string, x: real, y: real, team: TeamId) returns (r: CreateResult)
    requires w.Valid()
    modifies w
    ensures w.Valid()
    ensures r.UnknownUnitType? <==> unitType !in Registry
    ensures r.UnknownUnitType? ==> w.entities == old(w.entities) && w.nextId == old(w.nextId)
    ensures r.Created? ==>
      && r.entity == UnitRecord(Registry[unitType], old(w.nextId), x, y, team)
      && w.entities == old(w.entities) + [r.entity]
      && w.nextId == old(w.nextId) + 1
  {
    var config := LookupUnitType(unitType);
    if config.None? {
      return UnknownUnitType(unitType);
    }
    var entity := UnitRecord(config.value, w.nextId, x, y, team);
    AppendWellFormed(w.State(), entity);
    w.entities := w.entities + [entity];
    w.nextId := w.nextId + 1;
    r := Created(entity);
  }

  /** `createBullet`: appends a bullet record under the counter's id. */
  method CreateBullet(w: World, from: Vec, to: Vec, damage: real, ownerId: nat, speed: real, g: Geometry)
    returns (e: Entity)
    requires w.Valid()
    modifies w
    ensures w.Valid()
    ensures e == BulletRecord(old(w.nextId), from, to, damage, ownerId, speed, g)
    ensures w.entities == old(w.entities) + [e]
    ensures w.nextId == old(w.nextId) + 1
  {
    e := BulletRecord(w.nextId, from, to, damage, ownerId, speed, g);
    AppendWellFormed(w.State(), e);
    w.entities := w.entities + [e];
    w.nextId := w.nextId + 1;
  }

  /** `removeEntity`: the record leaves the world; the counter is untouched. */
  method RemoveEntity(w: World, id: nat)
    requires w.Valid()
    modifies w
    ensures w.Valid()
    ensures w.entities == RemoveIds(old(w.entities), {id})
    ensures w.nextId == old(w.nextId)
  {
    RemoveIdsWellFormed(w.State(), {id});
    w.entities := RemoveIds(w.entities, {id});
  }

  /** `for (const e of snapshot) removeEntity(e)`: the records of a list
      taken beforehand leave the world one by one. */
  method RemoveEach(w: World, snapshot: seq<Entity>)
    requires w.Valid()
    modifies w
    ensures w.Valid()
    ensures w.entities == RemoveIds(old(w.entities), IdSet(snapshot))
    ensures w.nextId == old(w.nextId)
  {
    var k := 0;
    RemoveNothing(w.entities, {});
    assert IdSet(snapshot[..0]) == {};
    while k < |snapshot|
      invariant 0 <= k <= |snapshot|
      invariant w.Valid() && w.nextId == old(w.nextId)
      invariant w.entities == RemoveIds(old(w.entities), IdSet(snapshot[..k]))
    {
      RemoveIdsTwice(old(w.entities), IdSet(snapshot[..k]), {snapshot[k].id});
      assert snapshot[..k + 1] == snapshot[..k] + [snapshot[k]];
      IdSetSnoc(snapshot[..k], snapshot[k]);
      RemoveEntity(w, snapshot[k].id);
      k := k + 1;
    }
    assert snapshot[..k] == snapshot;
  }

  /** The collision handler that `createBullet` installs on bullet
      `bulletId`, with the `ownerId` and `damage` it captured, run when the
      engine reports that the bullet overlaps the object tagged `struckTags`. */
  method OnHit(w: World, bulletId: nat, ownerId: nat, damage: real, struckTags: seq<string>)
    requires w.Valid()
    modifies w
    ensures w.Valid()
    ensures w.entities == ApplyHit(old(w.entities), bulletId, ownerId, damage, struckTags)
    ensures w.nextId == old(w.nextId)
  {
    var owner := FindUnit(w.entities, ownerId);
    if owner.None? {
      return;
    }
    var hitId := ParseHitId(struckTags);
    if hitId.None? {
      return;
    }
    var hit := FindUnit(w.entities, hitId.value);
    if hit.Some? {
      var h, o := hit.value, owner.value;
      var hitEntity, ownerEntity := w.entities[h], w.entities[o];
      if hitEntity.team.Some? && ownerEntity.team.Some? && hitEntity.team.value.id != ownerEntity.team.value.id {
        assert SameIds(w.entities, w.entities[h := Damaged(hitEntity, damage)]);
        w.entities := w.entities[h := Damaged(hitEntity, damage)];
        RemoveEntity(w, bulletId);
      }
    }
  }
}
