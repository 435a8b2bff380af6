/** Bullets: every bullet with a direction and a non-zero speed advances
    along its direction; bullets then outside the playfield leave the world.
    Removals are collected during the scan and applied after it, so every
    bullet present at the start is examined exactly once.

    `width` and `height` are the engine's playfield size. */
module Bullets {
  import opened Components
  import opened Ecs
  import opened Entities

  /** A bullet scanned by the loop: a bullet with an engine object. */
  predicate Scanned(e: Entity) {
    IsBullet(e) && HasGameObj(e)
  }

  /** The bullet's step: it advances only with a direction and a truthy
      (non-zero) speed. */
  function MoveBullet(e: Entity, dt: real): (r: Entity)
    ensures !Scanned(e) ==> r == e
    ensures Scanned(e) ==> HasGameObj(r) && r == WithPos(e, PosOf(r))
    ensures Scanned(e) && (GameObjOf(e).direction.None? || GameObjOf(e).speed == 0.0) ==> r == e
    ensures Scanned(e) && GameObjOf(e).direction.Some? && GameObjOf(e).speed != 0.0 ==>
              PosOf(r) == Move(GameObjOf(e).pos, Scale(GameObjOf(e).direction.value, GameObjOf(e).speed), dt)
  {
    if !Scanned(e) then e
    else
      var o := GameObjOf(e);
      if o.direction.Some? && o.speed != 0.0 then WithPos(e, Move(o.pos, Scale(o.direction.value, o.speed), dt))
      else e
  }

  /** Outside the playfield; the border itself is inside. */
  predicate OutOfBounds(p: Vec, width: real, height: real) {
    p.x < 0.0 || p.x > width || p.y < 0.0 || p.y > height
  }

  predicate Escaped(e: Entity, width: real, height: real) {
    Scanned(e) && OutOfBounds(PosOf(e), width, height)
  }

  /** Every record after its step. */
  function Advanced(w: seq<Entity>, dt: real): (r: seq<Entity>)
    ensures |r| == |w| && forall k :: 0 <= k < |w| ==> r[k] == MoveBullet(w[k], dt)
  {
    seq(|w|, k requires 0 <= k < |w| => MoveBullet(w[k], dt))
  }

  /** The ids the scan collects from the first `n` records of `s`, in the
      set `bulletsToRemove`. */
  function EscapedIds(s: seq<Entity>, n: nat, width: real, height: real): (r: set<nat>)
    requires n <= |s|
    ensures forall k :: 0 <= k < n && Escaped(s[k], width, height) ==> s[k].id in r
  {
    if n == 0 then {}
    else EscapedIds(s, n - 1, width, height) + (if Escaped(s[n - 1], width, height) then {s[n - 1].id} else {})
  }

  /** The collected ids are exactly the ids of the escaped records. */
  lemma {:induction false} EscapedIdsMembers(s: seq<Entity>, n: nat, width: real, height: real)
    requires n <= |s|
    ensures forall x :: x in EscapedIds(s, n, width, height) <==>
      exists k :: 0 <= k < n && Escaped(s[k], width, height) && s[k].id == x
  {
    if n > 0 {
      EscapedIdsMembers(s, n - 1, width, height);
    }
  }

  /** `updateBullets`: advance, then remove those that escaped. */
  function BulletPass(w: seq<Entity>, dt: real, width: real, height: real): (r: seq<Entity>)
    ensures |r| <= |w|
    ensures forall e :: e in r ==> e in Advanced(w, dt) && !Escaped(e, width, height)
  {
    var moved := Advanced(w, dt);
    assert forall e :: e in moved && Escaped(e, width, height) ==> e.id in EscapedIds(moved, |moved|, width, height) by {
      forall e | e in moved && Escaped(e, width, height) ensures e.id in EscapedIds(moved, |moved|, width, height) {
        var k :| 0 <= k < |moved| && moved[k] == e;
      }
    }
    RemoveIds(moved, EscapedIds(moved, |moved|, width, height))
  }

  /** What the call does, in a world whose ids are distinct:
      - a bullet that is scanned remains exactly when its new position is
        inside the playfield (the border counts as inside), and then at that
        position;
      - a record that is not a bullet, units included, remains unchanged;
      - a bullet without engine object is neither moved nor removed;
      - nothing else remains. */
  lemma BulletPassFacts(w: seq<Entity>, dt: real, width: real, height: real)
    requires IdsIncreasing(w)
    ensures var r := BulletPass(w, dt, width, height); var moved := Advanced(w, dt);
      && (forall k :: 0 <= k < |w| && Scanned(w[k]) ==>
            (moved[k] in r <==> !OutOfBounds(PosOf(moved[k]), width, height)))
      && (forall k :: 0 <= k < |w| && Scanned(w[k]) && OutOfBounds(PosOf(moved[k]), width, height) ==>
            forall e :: e in r ==> e.id != w[k].id)
      && (forall k :: 0 <= k < |w| && !Scanned(w[k]) ==> w[k] in r)
      && (forall e :: e in r ==> e in moved && !Escaped(e, width, height))
  {
    var moved := Advanced(w, dt);
    var out := EscapedIds(moved, |moved|, width, height);
    EscapedIdsMembers(moved, |moved|, width, height);
    assert SameIds(w, moved);
    forall k | 0 <= k < |w|
      ensures moved[k].id in out <==> Escaped(moved[k], width, height)
    {
      if moved[k].id in out {
        var j :| 0 <= j < |moved| && Escaped(moved[j], width, height) && moved[j].id == moved[k].id;
        IdsUnique(moved, j, k);
      }
    }
    forall e | e in BulletPass(w, dt, width, height) ensures e in moved && !Escaped(e, width, height) {
      var k :| 0 <= k < |moved| && moved[k] == e;
    }
  }

  /** The scan touches only positions, and removal keeps the rest, so the
      store stays well formed and sane. */
  lemma BulletPassKeeps(st: Store, dt: real, width: real, height: real)
    requires WellFormed(st)
    ensures WellFormed(Store(BulletPass(st.entities, dt, width, height), st.nextId))
    ensures Sane(st.entities) ==> Sane(BulletPass(st.entities, dt, width, height))
  {
    var moved := Advanced(st.entities, dt);
    assert SameIds(st.entities, moved);
    SameIdsWellFormed(st, moved);
    RemoveIdsWellFormed(Store(moved, st.nextId), EscapedIds(moved, |moved|, width, height));
    if Sane(st.entities) {
      forall k | 0 <= k < |moved| ensures StatsSane(moved[k]) {
        assert StatsSane(st.entities[k]);
      }
      RemoveIdsSane(moved, EscapedIds(moved, |moved|, width, height));
    }
  }

  /** The body of the scan for one bullet with an engine object: its step,
      and whether it then lies out of bounds. */
  method StepBullet(bullet: Entity, dt: real, width: real, height: real) returns (stepped: Entity, escaped: bool)
    requires Scanned(bullet)
    ensures stepped == MoveBullet(bullet, dt)
    ensures escaped == Escaped(stepped, width, height)
  {
    var gameObj := GameObjOf(bullet);
    stepped := bullet;
    if gameObj.direction.Some? && gameObj.speed != 0.0 {
      stepped := WithPos(bullet, Move(gameObj.pos, Scale(gameObj.direction.value, gameObj.speed), dt));
    }
    var p := PosOf(stepped);
    escaped := p.x < 0.0 || p.x > width || p.y < 0.0 || p.y > height;
  }

  /** The scan loop of `updateBullets`: each bullet with an engine object
      takes its step, and the ids of those then out of bounds are collected. */
  method ScanBullets(w: World, dt: real, width: real, height: real) returns (bulletsToRemove: seq<Entity>)
    modifies w
    ensures w.nextId == old(w.nextId)
    ensures w.entities == Advanced(old(w.entities), dt)
    ensures IdSet(bulletsToRemove) == EscapedIds(w.entities, |w.entities|, width, height)
  {
    ghost var w0 := w.entities;
    ghost var moved := Advanced(w0, dt);
    bulletsToRemove := [];
    var i := 0;
    while i < |w.entities|
      invariant 0 <= i <= |w.entities| == |w0|
      invariant w.nextId == old(w.nextId)
      invariant forall k :: 0 <= k < i ==> w.entities[k] == moved[k]
      invariant forall k :: i <= k < |w0| ==> w.entities[k] == w0[k]
      invariant IdSet(bulletsToRemove) == EscapedIds(moved, i, width, height)
    {
      var bullet := w.entities[i];
      if IsBullet(bullet) && HasGameObj(bullet) {
        var stepped, escaped := StepBullet(bullet, dt, width, height);
        assert stepped == moved[i];
        if escaped {
          IdSetSnoc(bulletsToRemove, bullet);
          bulletsToRemove := bulletsToRemove + [bullet];
        }
        w.entities := w.entities[i := stepped];
      } else {
        assert bullet == moved[i] && !Escaped(moved[i], width, height);
      }
      i := i + 1;
    }
    assert w.entities == moved;
  }

  /** `updateBullets`: the scan, then the removal loop over the collected ids. */
  method UpdateBullets(w: World, dt: real, width: real, height: real)
    requires w.Valid()
    modifies w
    ensures w.Valid()
    ensures w.entities == BulletPass(old(w.entities), dt, width, height)
    ensures w.nextId == old(w.nextId)
  {
    var bulletsToRemove := ScanBullets(w, dt, width, height);
    assert SameIds(old(w.entities), w.entities);
    SameIdsWellFormed(old(w.State()), w.entities);
    RemoveEach(w, bulletsToRemove);
  }
}
