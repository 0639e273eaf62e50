/** The state invariant the game keeps across every transition: bounded
    vitals, a well-formed inventory, live enemies, a consistent clock. */
module Invariants {
  import opened Types
  import opened Stacks
  import opened Commands
  import opened WorldGen
  import opened Simulation

  predicate ValidEnemy(e: Enemy)
  {
    0 < e.health <= FullHealth && (e.state == Patrol || e.state == Watch || e.state == Chase)
  }

  predicate Valid(s: GameState)
  {
    && StatsInRange(s.player.stats)
    && WellFormed(s.player.inventory)
    && EdgeMargin <= s.player.position.x <= WorldSize - EdgeMargin
    && EdgeMargin <= s.player.position.y <= WorldSize - EdgeMargin
    && (forall i :: 0 <= i < |s.resources| ==> 1 <= s.resources[i].amount <= 3)
    && (forall i :: 0 <= i < |s.enemies| ==> ValidEnemy(s.enemies[i]))
    && 0.0 <= s.timeOfDay < HoursPerDay && s.dayCount >= 1
    && (s.isNight <==> IsNightAt(s.timeOfDay))
  }

  lemma ValidInitial()
    ensures Valid(InitialState)
  {
  }

  /** A started game is valid: the generator's resources hold 1 to 3 units
      and its enemies are at full health and patrolling. */
  lemma ValidStart(rs: seq<Resource>, es: seq<Enemy>)
    requires forall i :: 0 <= i < |rs| ==> 1 <= rs[i].amount <= 3
    requires forall i :: 0 <= i < |es| ==> es[i].health == FullHealth && es[i].state == Patrol
    ensures Valid(InitialState.(resources := rs, enemies := es, phase := Playing))
  {
  }

  lemma ValidMove(s: GameState, dir: Position)
    requires Valid(s)
    ensures Valid(MovePlayer(s, dir))
  {
  }

  lemma ValidCollect(s: GameState, id: string)
    requires Valid(s)
    ensures Valid(CollectResource(s, id))
  {
    var r := CollectResource(s, id);
    if FindResource(s.resources, id).Some? {
      var res := FindResource(s.resources, id).value;
      var inv := s.player.inventory;
      AddToStackSpec(inv, KindName(res.kind), res.amount, ResourceIcon(KindName(res.kind)));
      forall i | 0 <= i < |r.resources| ensures 1 <= r.resources[i].amount <= 3 {
        assert r.resources[i] in s.resources;
      }
    }
  }

  lemma ValidCraft(s: GameState, itemId: string, reqs: seq<Requirement>)
    requires Valid(s)
    ensures Valid(CraftItem(s, itemId, reqs))
  {
  }

  lemma ValidPlace(s: GameState, kind: BuildingKind, now: nat)
    requires Valid(s)
    ensures Valid(PlaceBuilding(s, kind, now))
  {
  }

  /** Attacks keep every enemy alive and within full health, as long as the
      damage is positive (the callers pass 10 or 30). */
  lemma ValidAttack(s: GameState, id: string, damage: int)
    requires Valid(s) && damage > 0
    ensures Valid(AttackEnemy(s, id, damage))
  {
    var r := AttackEnemy(s, id, damage);
    if FindEnemy(s.enemies, id).Some? {
      var e := FindEnemy(s.enemies, id).value;
      var j :| 0 <= j < |s.enemies| && s.enemies[j] == e;
      assert ValidEnemy(s.enemies[j]);
      forall i | 0 <= i < |r.enemies| ensures ValidEnemy(r.enemies[i]) {
        if e.health - damage <= 0 {
          assert r.enemies[i] in s.enemies;
        }
      }
    }
  }

  lemma ValidTrigger(s: GameState, ending: Option<Ending>)
    requires Valid(s)
    ensures Valid(TriggerEnding(s, ending))
  {
  }

  lemma ValidGameOver(s: GameState)
    requires Valid(s)
    ensures Valid(GameOverCheck(s))
  {
  }

  /** A tick keeps the invariant: vitals stay in [0, 100], the clock stays
      within the day and agrees with `isNight`, enemies keep their health and
      take only patrol/watch/chase, and spawned entities are well-formed. */
  lemma ValidTick(s: GameState, d: TickDraws, step: Stepper)
    requires Valid(s) && ValidTickDraws(d, |s.enemies|)
    ensures Valid(TickResult(s, d, step))
  {
    var r := TickResult(s, d, step);
    forall i | 0 <= i < |r.enemies| ensures ValidEnemy(r.enemies[i]) {
      if i < |s.enemies| {
        TickEnemies(s, d, step, i);
        assert ValidEnemy(s.enemies[i]);
      }
    }
  }
}
