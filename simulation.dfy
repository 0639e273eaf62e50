/** The 100 ms game tick (the `setInterval` body in src/hooks/useGameState.ts):
    clock, vital decay, enemy AI and movement, contact damage and spawning.
    The tick is an explicit call. `Math.random()` and `Date.now()` arrive as
    a TickDraws record, and the normalised step `(dx/dist)*speed` toward a
    target is the `step` parameter, left abstract. */
module Simulation {
  import opened Types
  import opened WorldGen
  import opened Commands

  /** Hours the clock advances per tick. */
  const TickHours: real := 0.05
  const HoursPerDay: real := 24.0

  const HungerRate: real := 0.1
  const ThirstRate: real := 0.15
  const StarvationDamage: real := 0.5

  /** Squared distance thresholds of the AI (150, 100, 200, 5 and 30 units). */
  const NightChase2: real := 22500.0
  const Close2: real := 10000.0
  const Watch2: real := 40000.0
  const Arrive2: real := 25.0
  const Contact2: real := 900.0

  const ChaseSpeed: real := 2.0
  const PatrolSpeed: real := 0.5

  const MaxResources: nat := 40
  const MaxEnemies: nat := 15

  /** The abstract movement step: from, target, speed to new position. */
  type Stepper = (Position, Position, real) -> Position

  /** Night is from 20:00 up to 06:00. */
  predicate IsNightAt(t: real) { t >= 20.0 || t < 6.0 }

  datatype Clock = Clock(time: real, day: nat)

  /** The clock advances by 0.05 h; reaching 24 h or more it is set to exactly
      0 and the day counter goes up by one. */
  function AdvanceClock(t: real, day: nat): (c: Clock)
    ensures t + TickHours >= HoursPerDay ==> c == Clock(0.0, day + 1)
    ensures t + TickHours < HoursPerDay ==> c == Clock(t + TickHours, day)
    ensures 0.0 <= t < HoursPerDay ==> 0.0 <= c.time < HoursPerDay
  {
    var newTime := t + TickHours;
    if newTime >= HoursPerDay then Clock(0.0, day + 1) else Clock(newTime, day)
  }

  /** The clock after `n` ticks. */
  function ClockAfter(t: real, day: nat, n: nat): Clock
    decreases n
  {
    if n == 0 then Clock(t, day) else var c := AdvanceClock(t, day); ClockAfter(c.time, c.day, n - 1)
  }

  /** From midnight, the clock reads k * 0.05 h for the first 480 ticks; the
      480th tick wraps it to midnight of the next day. */
  lemma {:induction false} DayLength(day: nat, k: nat)
    requires k < 480
    ensures ClockAfter(0.0, day, k) == Clock(k as real * TickHours, day)
    ensures ClockAfter(0.0, day, 480) == Clock(0.0, day + 1)
  {
    ClockFrom(day, k);
    ClockFrom(day, 479);
    ClockAfterSplit(0.0, day, 479, 1);
  }

  lemma {:induction false} ClockFrom(day: nat, k: nat)
    requires k < 480
    ensures ClockAfter(0.0, day, k) == Clock(k as real * TickHours, day)
  {
    if k > 0 {
      ClockFrom(day, k - 1);
      ClockAfterSplit(0.0, day, k - 1, 1);
    }
  }

  lemma {:induction false} ClockAfterSplit(t: real, day: nat, m: nat, n: nat)
    ensures ClockAfter(t, day, m + n) == var c := ClockAfter(t, day, m); ClockAfter(c.time, c.day, n)
    decreases m
  {
    if m > 0 {
      var c := AdvanceClock(t, day);
      ClockAfterSplit(c.time, c.day, m - 1, n);
    }
  }

  predicate InRange(v: real) { 0.0 <= v <= 100.0 }

  predicate StatsInRange(st: PlayerStats)
  {
    InRange(st.health) && InRange(st.hunger) && InRange(st.thirst) && InRange(st.sanity)
  }

  /** The vital decay of one tick, before contact damage. */
  function DecayStats(st: PlayerStats, night: bool): (r: PlayerStats)
    ensures StatsInRange(st) ==> StatsInRange(r)
    ensures 0.0 <= r.hunger && 0.0 <= r.thirst && InRange(r.sanity) && r.health >= Min(st.health, 0.0)
    ensures st.hunger >= HungerRate ==> r.hunger == st.hunger - HungerRate
    ensures st.hunger < HungerRate ==> r.hunger == 0.0
    ensures st.thirst >= ThirstRate ==> r.thirst == st.thirst - ThirstRate
    ensures st.thirst < ThirstRate ==> r.thirst == 0.0
    ensures !night && 0.0 <= st.sanity <= 99.95 ==> r.sanity == st.sanity + 0.05
    ensures !night && st.sanity > 99.95 ==> r.sanity == 100.0
    ensures night && 0.1 <= st.sanity <= 100.0 ==> r.sanity == st.sanity - 0.1
    ensures night && st.sanity < 0.1 ==> r.sanity == 0.0
    ensures st.hunger > 0.0 && st.thirst > 0.0 ==> r.health == st.health
    ensures st.hunger <= 0.0 || st.thirst <= 0.0 ==> r.health == Max(0.0, st.health - StarvationDamage)
  {
    var sanityRate := if night then 0.1 else -0.05;
    PlayerStats(
      if st.hunger <= 0.0 || st.thirst <= 0.0 then Max(0.0, st.health - StarvationDamage) else st.health,
      Max(0.0, st.hunger - HungerRate),
      Max(0.0, st.thirst - ThirstRate),
      Max(0.0, Min(100.0, st.sanity - sanityRate)))
  }

  /** The draws one enemy's AI may consume this tick: the chase/watch coin,
      the retarget coin, and a fresh target. */
  datatype AiDraw = AiDraw(chase: real, retarget: real, tx: real, ty: real)

  predicate ValidAiDraw(d: AiDraw)
  {
    Unit(d.chase) && Unit(d.retarget) && Unit(d.tx) && Unit(d.ty)
  }

  function SpeedOf(st: EnemyState): real
  {
    if st == Chase then ChaseSpeed else PatrolSpeed
  }

  /** The decision half of the AI: new state and target from the distance to
      the player before the tick. */
  function Decide(e: Enemy, player: Position, night: bool, d: AiDraw): (EnemyState, Option<Position>)
  {
    var d2 := Dist2(e.position, player);
    if d2 < NightChase2 && night then (Chase, Some(player))
    else if d2 < Close2 then (if d.chase > 0.3 then (Chase, Some(player)) else (Watch, e.target))
    else if d2 < Watch2 then (Watch, e.target)
    else (Patrol, if e.target.None? || d.retarget < 0.01 then Some(RandomPosition(d.tx, d.ty)) else e.target)
  }

  /** One enemy's tick. */
  function EnemyAi(e: Enemy, player: Position, night: bool, d: AiDraw, step: Stepper): (r: Enemy)
    // only position, state and target change; health is untouched
    ensures r == e.(position := r.position, state := r.state, target := r.target)
    ensures r.state == Patrol || r.state == Watch || r.state == Chase
    ensures r.state == Chase ==> r.target == Some(player)
    ensures Dist2(e.position, player) < NightChase2 && night ==> r.state == Chase
    ensures !(Dist2(e.position, player) < NightChase2 && night) && Dist2(e.position, player) < Close2 ==>
      (r.state == Chase <==> d.chase > 0.3) && (r.state != Chase ==> r.state == Watch && r.target == e.target)
    ensures !(Dist2(e.position, player) < NightChase2 && night) && Close2 <= Dist2(e.position, player) < Watch2 ==>
      r.state == Watch && r.target == e.target
    ensures Watch2 <= Dist2(e.position, player) ==>
      && r.state == Patrol && r.target.Some?
      && (e.target.Some? && d.retarget >= 0.01 ==> r.target == e.target)
      && (e.target.None? || d.retarget < 0.01 ==> r.target == Some(RandomPosition(d.tx, d.ty)))
    // watchers and enemies within 5 units of their target stay put; the others take one step
    ensures r.state == Watch || r.target.None? || Dist2(r.target.value, e.position) <= Arrive2 ==>
      r.position == e.position
    ensures r.state != Watch && r.target.Some? && Dist2(r.target.value, e.position) > Arrive2 ==>
      r.position == step(e.position, r.target.value, SpeedOf(r.state))
  {
    var (newState, newTarget) := Decide(e, player, night, d);
    var newPos :=
      if newTarget.Some? && (newState == Chase || newState == Patrol) && Dist2(newTarget.value, e.position) > Arrive2
      then step(e.position, newTarget.value, SpeedOf(newState))
      else e.position;
    e.(position := newPos, state := newState, target := newTarget)
  }

  /** The enemies after the AI step (the `map` over the previous enemies). */
  function MoveEnemies(es: seq<Enemy>, player: Position, night: bool, ai: seq<AiDraw>, step: Stepper): (r: seq<Enemy>)
    requires |ai| == |es|
    ensures |r| == |es|
  {
    seq(|es|, i requires 0 <= i < |es| => EnemyAi(es[i], player, night, ai[i], step))
  }

  /** Whether an enemy deals contact damage: chasing and closer than 30. */
  predicate Touches(e: Enemy, player: Position)
  {
    Dist2(e.position, player) < Contact2 && e.state == Chase
  }

  function ContactOf(e: Enemy, player: Position): int
  {
    if Touches(e, player) then (if e.kind == Mutant then 2 else 1) else 0
  }

  /** Summed contact damage: 2 per touching mutant, 1 per touching cannibal. */
  function ContactDamage(es: seq<Enemy>, player: Position): (r: int)
    ensures 0 <= r <= 2 * |es|
    ensures r == 0 <==> forall i :: 0 <= i < |es| ==> !Touches(es[i], player)
    ensures (forall i :: 0 <= i < |es| ==> Touches(es[i], player)) ==> r >= |es|
  {
    if es == [] then 0
    else ContactDamage(es[..|es| - 1], player) + ContactOf(es[|es| - 1], player)
  }

  /** Contact damage is applied only when positive, floored at 0. */
  function ApplyContact(health: real, damage: int): (h: real)
    ensures damage <= 0 ==> h == health
    ensures damage > 0 ==> h == Max(0.0, health - damage as real)
  {
    if damage > 0 then Max(0.0, health - damage as real) else health
  }

  /** Everything the tick draws from `Math.random()` and `Date.now()`. */
  datatype TickDraws = TickDraws(
    ai: seq<AiDraw>,
    resourceRoll: real, resource: ResourceDraw,
    enemyRoll: real, enemy: EnemyDraw,
    now: nat)

  predicate ValidTickDraws(d: TickDraws, enemyCount: nat)
  {
    && |d.ai| == enemyCount
    && (forall i :: 0 <= i < |d.ai| ==> ValidAiDraw(d.ai[i]))
    && Unit(d.resourceRoll) && ValidResourceDraw(d.resource)
    && Unit(d.enemyRoll) && ValidEnemyDraw(d.enemy)
  }

  /** A resource appears with chance 0.01 while fewer than 40 exist. */
  function SpawnResources(rs: seq<Resource>, d: TickDraws): (r: seq<Resource>)
    requires ValidResourceDraw(d.resource)
    ensures r == rs || (|rs| < MaxResources && r == rs + [NewResource(ResourceId(d.now), d.resource)])
  {
    if d.resourceRoll < 0.01 && |rs| < MaxResources then rs + [NewResource(ResourceId(d.now), d.resource)] else rs
  }

  /** An enemy appears at night with chance 0.005 while fewer than 15 existed
      before the tick. */
  function SpawnEnemies(prevCount: nat, moved: seq<Enemy>, night: bool, d: TickDraws): (r: seq<Enemy>)
    requires ValidEnemyDraw(d.enemy)
    ensures r == moved || (night && prevCount < MaxEnemies && r == moved + [NewEnemy(EnemyId(d.now), d.enemy)])
  {
    if night && d.enemyRoll < 0.005 && prevCount < MaxEnemies then moved + [NewEnemy(EnemyId(d.now), d.enemy)] else moved
  }

  /** The state after one tick. */
  function TickResult(prev: GameState, d: TickDraws, step: Stepper): GameState
    requires ValidTickDraws(d, |prev.enemies|)
  {
    var c := AdvanceClock(prev.timeOfDay, prev.dayCount);
    var night := IsNightAt(c.time);
    var stats := DecayStats(prev.player.stats, night);
    var moved := MoveEnemies(prev.enemies, prev.player.position, night, d.ai, step);
    var damage := ContactDamage(moved, prev.player.position);
    prev.(
      timeOfDay := c.time,
      dayCount := c.day,
      isNight := night,
      resources := SpawnResources(prev.resources, d),
      enemies := SpawnEnemies(|prev.enemies|, moved, night, d),
      player := prev.player.(stats := stats.(health := ApplyContact(stats.health, damage))))
  }

  /** The AI loop of the tick: each enemy in turn, decided against the
      player's position before the tick. */
  method MoveEnemiesLoop(es: seq<Enemy>, player: Position, night: bool, ai: seq<AiDraw>, step: Stepper)
    returns (moved: seq<Enemy>)
    requires |ai| == |es|
    ensures moved == MoveEnemies(es, player, night, ai, step)
  {
    moved := [];
    var i := 0;
    while i < |es|
      invariant 0 <= i <= |es|
      invariant |moved| == i
      invariant forall j :: 0 <= j < i ==> moved[j] == EnemyAi(es[j], player, night, ai[j], step)
    {
      moved := moved + [EnemyAi(es[i], player, night, ai[i], step)];
      i := i + 1;
    }
  }

  /** The damage loop of the tick: sums the contact damage of the moved
      enemies against the player's position before the tick. */
  method ContactDamageLoop(moved: seq<Enemy>, player: Position) returns (damage: int)
    ensures damage == ContactDamage(moved, player)
  {
    damage := 0;
    var k := 0;
    while k < |moved|
      invariant 0 <= k <= |moved|
      invariant damage == ContactDamage(moved[..k], player)
    {
      if Dist2(moved[k].position, player) < Contact2 && moved[k].state == Chase {
        damage := damage + (if moved[k].kind == Mutant then 2 else 1);
      }
      assert moved[..k + 1][..k] == moved[..k];
      k := k + 1;
    }
    assert moved[..k] == moved;
  }

  /** The tick body as the source runs it: local variables updated step by
      step, the AI and damage loops, and pushes for the spawns. */
  method Tick(prev: GameState, d: TickDraws, step: Stepper) returns (next: GameState)
    requires ValidTickDraws(d, |prev.enemies|)
    ensures next == TickResult(prev, d, step)
  {
    var newTime := prev.timeOfDay + TickHours;
    var newDay := prev.dayCount;
    if newTime >= HoursPerDay {
      newTime := 0.0;
      newDay := newDay + 1;
    }
    ghost var c := AdvanceClock(prev.timeOfDay, prev.dayCount);
    assert newTime == c.time && newDay == c.day;
    var night := newTime >= 20.0 || newTime < 6.0;
    var stats := DecayStats(prev.player.stats, night);
    var player := prev.player.position;

    var newEnemies := MoveEnemiesLoop(prev.enemies, player, night, d.ai, step);
    var damage := ContactDamageLoop(newEnemies, player);
    if damage > 0 {
      stats := stats.(health := Max(0.0, stats.health - damage as real));
    }
    assert stats == DecayStats(prev.player.stats, night).(health := ApplyContact(DecayStats(prev.player.stats, night).health, damage));

    var newResources := prev.resources;
    if d.resourceRoll < 0.01 && |prev.resources| < MaxResources {
      newResources := newResources + [NewResource(ResourceId(d.now), d.resource)];
    }
    if night && d.enemyRoll < 0.005 && |prev.enemies| < MaxEnemies {
      newEnemies := newEnemies + [NewEnemy(EnemyId(d.now), d.enemy)];
    }
    assert newResources == SpawnResources(prev.resources, d);
    assert newEnemies == SpawnEnemies(|prev.enemies|, MoveEnemies(prev.enemies, player, night, d.ai, step), night, d);

    next := prev.(
      timeOfDay := newTime, dayCount := newDay, isNight := night,
      resources := newResources, enemies := newEnemies,
      player := prev.player.(stats := stats));
  }

  /** The clock part of a tick: the 24 h wrap, the day counter, and `isNight`
      recomputed from the new time; commands and entities untouched by it. */
  lemma TickClock(prev: GameState, d: TickDraws, step: Stepper)
    requires ValidTickDraws(d, |prev.enemies|)
    ensures var next := TickResult(prev, d, step);
      && (prev.timeOfDay + TickHours >= HoursPerDay ==> next.timeOfDay == 0.0 && next.dayCount == prev.dayCount + 1)
      && (prev.timeOfDay + TickHours < HoursPerDay ==> next.timeOfDay == prev.timeOfDay + TickHours && next.dayCount == prev.dayCount)
      && (next.isNight <==> next.timeOfDay >= 20.0 || next.timeOfDay < 6.0)
      && next.phase == prev.phase && next.ending == prev.ending && next.progress == prev.progress
      && next.buildings == prev.buildings && next.player.inventory == prev.player.inventory
      && next.player.position == prev.player.position
  {
  }

  /** Health after a tick: starvation first (from the previous hunger and
      thirst), then the summed contact damage of the moved enemies, both
      floored at 0; it never rises. */
  lemma TickHealth(prev: GameState, d: TickDraws, step: Stepper)
    requires ValidTickDraws(d, |prev.enemies|)
    requires 0.0 <= prev.player.stats.health
    ensures var next := TickResult(prev, d, step);
      var st := prev.player.stats;
      var moved := MoveEnemies(prev.enemies, prev.player.position, next.isNight, d.ai, step);
      var afterHunger := if st.hunger <= 0.0 || st.thirst <= 0.0 then Max(0.0, st.health - StarvationDamage) else st.health;
      && next.player.stats.health == ApplyContact(afterHunger, ContactDamage(moved, prev.player.position))
      && 0.0 <= next.player.stats.health <= st.health
      && ((st.hunger > 0.0 && st.thirst > 0.0 && forall i :: 0 <= i < |moved| ==> !Touches(moved[i], prev.player.position))
          ==> next.player.stats.health == st.health)
  {
  }

  /** The AI part of a tick: the i-th enemy before the tick becomes the i-th
      after it, decided from the pre-tick player position; enemies keep their
      health, and the simulation never assigns `attack` or `retreat`. */
  lemma TickEnemies(prev: GameState, d: TickDraws, step: Stepper, i: int)
    requires ValidTickDraws(d, |prev.enemies|)
    requires 0 <= i < |prev.enemies|
    ensures var next := TickResult(prev, d, step);
      && i < |next.enemies|
      && next.enemies[i] == EnemyAi(prev.enemies[i], prev.player.position, next.isNight, d.ai[i], step)
      && next.enemies[i].health == prev.enemies[i].health
      && next.enemies[i].id == prev.enemies[i].id
      && next.enemies[i].state != Attack && next.enemies[i].state != Retreat
  {
  }

  /** Population control: at most one enemy and one resource appear per tick;
      an enemy only at night and only below 15 enemies, a resource only below
      40 resources. So a world at or under those caps stays under them. */
  lemma TickPopulation(prev: GameState, d: TickDraws, step: Stepper)
    requires ValidTickDraws(d, |prev.enemies|)
    ensures var next := TickResult(prev, d, step);
      && |prev.enemies| <= |next.enemies| <= |prev.enemies| + 1
      && (|next.enemies| > |prev.enemies| ==> next.isNight && |prev.enemies| < MaxEnemies)
      && (|prev.enemies| <= MaxEnemies ==> |next.enemies| <= MaxEnemies)
      && |prev.resources| <= |next.resources| <= |prev.resources| + 1
      && next.resources[..|prev.resources|] == prev.resources
      && (|next.resources| > |prev.resources| ==> |prev.resources| < MaxResources)
      && (|prev.resources| <= MaxResources ==> |next.resources| <= MaxResources)
  {
  }

  /** The decay of a daytime tick, independent of the enemies: sanity +0.05,
      hunger -0.1, thirst -0.15 (each clamped). */
  lemma DaytimeDecay(prev: GameState, d: TickDraws, step: Stepper)
    requires ValidTickDraws(d, |prev.enemies|)
    requires StatsInRange(prev.player.stats)
    requires !TickResult(prev, d, step).isNight
    ensures var st := prev.player.stats; var nst := TickResult(prev, d, step).player.stats;
      && nst.sanity == (if st.sanity <= 99.95 then st.sanity + 0.05 else 100.0)
      && nst.hunger == (if st.hunger >= HungerRate then st.hunger - HungerRate else 0.0)
      && nst.thirst == (if st.thirst >= ThirstRate then st.thirst - ThirstRate else 0.0)
  {
  }
}
