/** One frame of the host loop: while a battle is on and undecided, the
    systems run in the fixed order targeting, movement, combat, bullets,
    death, and the round's result is taken from the death system. */
module Tick {
  import opened Components
  import opened Ecs
  import opened Targeting
  import opened Movement
  import opened Combat
  import opened Bullets
  import opened Death

  datatype Phase = Placement | Battle | RoundOver

  /** The world after the four systems that precede death. */
  function BeforeDeath(st: Store, dt: real, time: real, roll: nat -> real, g: Geometry,
                       width: real, height: real): Store
  {
    var aimed := TargetPass(st.entities, 0, g);
    var moved := MovePass(aimed, 0, g, dt);
    var fired := CombatPass(Store(moved, st.nextId), 0, |moved|, time, roll, g);
    Store(BulletPass(fired.entities, dt, width, height), fired.nextId)
  }

  /** The world after a battle frame. */
  function Step(st: Store, dt: real, time: real, roll: nat -> real, g: Geometry,
                width: real, height: real): Store
  {
    var b := BeforeDeath(st, dt, time, roll, g, width, height);
    Store(Survivors(b.entities), b.nextId)
  }

  /** A battle frame keeps the store well formed (ids increasing, below the
      counter) and sane (health within [0, max], damages not negative), and
      leaves no defeated unit behind. */
  lemma StepKeeps(st: Store, dt: real, time: real, roll: nat -> real, g: Geometry, width: real, height: real)
    requires WellFormed(st) && Sane(st.entities)
    ensures var r := Step(st, dt, time, roll, g, width, height);
      && WellFormed(r) && Sane(r.entities)
      && r.nextId >= st.nextId
      && (forall e :: e in r.entities ==> !Defeated(e))
  {
    var aimed := TargetPass(st.entities, 0, g);
    TargetPassKeeps(st, g);
    var moved := MovePass(aimed, 0, g, dt);
    MovePassFacts(aimed, 0, g, dt);
    OnlyPositionsKeeps(Store(aimed, st.nextId), moved);
    var fired := CombatPass(Store(moved, st.nextId), 0, |moved|, time, roll, g);
    CombatPassKeeps(Store(moved, st.nextId), 0, |moved|, time, roll, g);
    CombatSound(Store(moved, st.nextId), time, roll, g);
    var shot := BulletPass(fired.entities, dt, width, height);
    BulletPassKeeps(fired, dt, width, height);
    SurvivorsKeep(Store(shot, fired.nextId));
    SurvivorsFacts(shot);
  }

  /** The frame handler. Outside a battle, or once the result is decided,
      nothing happens. Otherwise the systems run and the result becomes the
      one the death system returns. */
  method RunFrame(w: World, phase: Phase, result: GameResult, dt: real, time: real, roll: nat -> real,
                  g: Geometry, width: real, height: real) returns (newResult: GameResult)
    requires w.Valid()
    modifies w
    ensures w.Valid()
    ensures !(phase == Battle && result == Ongoing) ==>
      newResult == result && w.entities == old(w.entities) && w.nextId == old(w.nextId)
    ensures phase == Battle && result == Ongoing ==>
      && w.State() == Step(old(w.State()), dt, time, roll, g, width, height)
      && newResult == Result(BeforeDeath(old(w.State()), dt, time, roll, g, width, height).entities)
  {
    if phase != Battle || result != Ongoing {
      return result;
    }
    UpdateTargeting(w, g);
    UpdateMovement(w, g, dt);
    UpdateCombat(w, time, roll, g);
    UpdateBullets(w, dt, width, height);
    newResult := UpdateDeath(w);
  }
}
