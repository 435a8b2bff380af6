/** Death and the round's outcome: units that are marked dead or whose
    health has run out leave the world, and the units left on each side
    decide whether the round goes on. */
module Death {
  import opened Components
  import opened Ecs
  import opened Entities

  datatype GameResult = Ongoing | PlayerWin | EnemyWin | Draw

  /** A unit to remove: marked dead, or at or below zero health. */
  predicate Defeated(e: Entity) {
    IsUnit(e) && (e.dead.Some? || e.health.value.current <= 0.0)
  }

  /** `deadUnits`: the defeated units, in world order. */
  function DefeatedUnits(w: seq<Entity>): (r: seq<Entity>)
    ensures forall e :: e in r <==> e in w && Defeated(e)
  {
    Filter(Units(w), Defeated)
  }

  /** The world after the removal loop. */
  function Survivors(w: seq<Entity>): (r: seq<Entity>)
    ensures |r| <= |w|
    ensures forall e :: e in r ==> e in w && !Defeated(e)
  {
    var d := DefeatedUnits(w);
    assert forall e :: e in w && Defeated(e) ==> e.id in IdSet(d) by {
      forall e | e in w && Defeated(e) ensures e.id in IdSet(d) {
        assert e in d;
      }
    }
    RemoveIds(w, IdSet(d))
  }

  /** `u.team?.id === team && !u.dead` */
  predicate OnTeam(e: Entity, team: TeamId) {
    e.team.Some? && e.team.value.id == team && e.dead.None?
  }

  /** The units of `team` without a dead marker. */
  function TeamUnits(w: seq<Entity>, team: TeamId): (r: seq<Entity>)
    ensures forall e :: e in r <==> e in w && IsUnit(e) && OnTeam(e, team)
  {
    Filter(Units(w), e => OnTeam(e, team))
  }

  /** The classification of a round by the two head counts. */
  function Outcome(players: nat, enemies: nat): (r: GameResult)
    ensures r == Draw <==> players == 0 && enemies == 0
    ensures r == EnemyWin <==> players == 0 && enemies > 0
    ensures r == PlayerWin <==> players > 0 && enemies == 0
    ensures r == Ongoing <==> players > 0 && enemies > 0
  {
    if players == 0 && enemies == 0 then Draw
    else if players == 0 then EnemyWin
    else if enemies == 0 then PlayerWin
    else Ongoing
  }

  /** `updateDeath`'s result on the world it leaves. */
  function Result(w: seq<Entity>): (res: GameResult)
    ensures res == Ongoing || res == PlayerWin ==>
      exists e :: e in Survivors(w) && IsUnit(e) && e.team == Some(Team(Player))
    ensures res == Ongoing || res == EnemyWin ==>
      exists e :: e in Survivors(w) && IsUnit(e) && e.team == Some(Team(Enemy))
  {
    var r := Survivors(w);
    var players, enemies := TeamUnits(r, Player), TeamUnits(r, Enemy);
    assert |players| > 0 ==> players[0] in r && IsUnit(players[0]) && players[0].team == Some(Team(Player));
    assert |enemies| > 0 ==> enemies[0] in r && IsUnit(enemies[0]) && enemies[0].team == Some(Team(Enemy));
    Outcome(|players|, |enemies|)
  }

  /** In a world with distinct ids:
      - no defeated unit remains, and no unit with a dead marker;
      - every record that is not a defeated unit remains, bullets included;
      - nothing new appears. */
  lemma SurvivorsFacts(w: seq<Entity>)
    requires IdsIncreasing(w)
    ensures forall e :: e in Survivors(w) ==> e in w && !Defeated(e)
    ensures forall e :: e in Survivors(w) && IsUnit(e) ==> e.dead.None? && e.health.value.current > 0.0
    ensures forall e :: e in w && !Defeated(e) ==> e in Survivors(w)
  {
    var d := DefeatedUnits(w);
    forall e | e in Survivors(w) ensures !Defeated(e) {
      assert Defeated(e) ==> e in d && e.id in IdSet(d);
    }
    forall e | e in w && !Defeated(e) ensures e in Survivors(w) {
      if e.id in IdSet(d) {
        var x :| x in d && x.id == e.id;
        var i :| 0 <= i < |w| && w[i] == e;
        var j :| 0 <= j < |w| && w[j] == x;
        IdsUnique(w, i, j);
        assert false;
      }
    }
  }

  /** A second call right away removes nothing and gives the same result. */
  lemma DeathIdempotent(w: seq<Entity>)
    requires IdsIncreasing(w)
    ensures Survivors(Survivors(w)) == Survivors(w)
    ensures Result(Survivors(w)) == Result(w)
  {
    SurvivorsFacts(w);
    var r := Survivors(w);
    FilterNone(Units(r), Defeated);
    assert IdSet(DefeatedUnits(r)) == {};
    RemoveNothing(r, {});
  }

  /** In a world whose units carry no dead marker, a team's head count is
      positive exactly when the team has a unit. */
  lemma TeamPresent(r: seq<Entity>, team: TeamId)
    requires forall e :: e in r && IsUnit(e) ==> e.dead.None?
    ensures |TeamUnits(r, team)| > 0 <==> exists e :: e in r && IsUnit(e) && e.team.value.id == team
  {
    var t := TeamUnits(r, team);
    if |t| > 0 {
      assert t[0] in t;
    }
  }

  /** When the two sides still field units the round goes on; a side with
      none left has lost, and both empty is a draw. */
  lemma ResultByTeams(w: seq<Entity>)
    requires IdsIncreasing(w)
    ensures var r := Survivors(w);
      && (Result(w) == Ongoing <==> (exists e :: e in r && IsUnit(e) && e.team.value.id == Player)
                                    && (exists e :: e in r && IsUnit(e) && e.team.value.id == Enemy))
      && (Result(w) == Draw <==> forall e :: e in r ==> !IsUnit(e))
  {
    SurvivorsFacts(w);
    var r := Survivors(w);
    TeamPresent(r, Player);
    TeamPresent(r, Enemy);
    forall e | e in r && IsUnit(e) ensures e.team.value.id == Player || e.team.value.id == Enemy {
    }
  }

  lemma SurvivorsKeep(st: Store)
    requires WellFormed(st)
    ensures WellFormed(Store(Survivors(st.entities), st.nextId))
    ensures Sane(st.entities) ==> Sane(Survivors(st.entities))
  {
    RemoveIdsWellFormed(st, IdSet(DefeatedUnits(st.entities)));
    if Sane(st.entities) {
      RemoveIdsSane(st.entities, IdSet(DefeatedUnits(st.entities)));
    }
  }

  /** `updateDeath`: remove the defeated units, then count and classify. */
  method UpdateDeath(w: World) returns (result: GameResult)
    requires w.Valid()
    modifies w
    ensures w.Valid()
    ensures w.entities == Survivors(old(w.entities)) && w.nextId == old(w.nextId)
    ensures result == Result(old(w.entities))
  {
    var deadUnits := DefeatedUnits(w.entities);
    RemoveEach(w, deadUnits);
    var playerUnits := TeamUnits(w.entities, Player);
    var enemyUnits := TeamUnits(w.entities, Enemy);
    if |playerUnits| == 0 && |enemyUnits| == 0 {
      return Draw;
    }
    if |playerUnits| == 0 {
      return EnemyWin;
    }
    if |enemyUnits| == 0 {
      return PlayerWin;
    }
    return Ongoing;
  }
}
