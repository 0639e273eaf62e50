/** World generation and the start of a session (src/hooks/useGameState.ts):
    generateResources, generateEnemies, initialState and startGame.
    `Math.random()` is replaced by draw records whose fields are the values
    the source's calls would return, each in [0, 1). */
module WorldGen {
  import opened Types
  import Decimal

  const InitialResources: nat := 30
  const InitialEnemies: nat := 5
  const FullHealth: int := 100

  predicate Unit(u: real) { 0.0 <= u < 1.0 }

  /** The four draws one resource consumes: type index, x, y, amount. */
  datatype ResourceDraw = ResourceDraw(kind: real, x: real, y: real, amount: real)

  /** The five draws one enemy consumes: type, x, y, target x, target y. */
  datatype EnemyDraw = EnemyDraw(kind: real, x: real, y: real, tx: real, ty: real)

  predicate ValidResourceDraw(d: ResourceDraw)
  {
    Unit(d.kind) && Unit(d.x) && Unit(d.y) && Unit(d.amount)
  }

  predicate ValidEnemyDraw(d: EnemyDraw)
  {
    Unit(d.kind) && Unit(d.x) && Unit(d.y) && Unit(d.tx) && Unit(d.ty)
  }

  /** A point of the world, `[0, WORLD_SIZE)` on both axes. */
  predicate InWorld(p: Position)
  {
    0.0 <= p.x < WorldSize && 0.0 <= p.y < WorldSize
  }

  /** `{ x: Math.random() * WORLD_SIZE, y: Math.random() * WORLD_SIZE }`. */
  function RandomPosition(ux: real, uy: real): (p: Position)
    ensures Unit(ux) && Unit(uy) ==> InWorld(p)
  {
    Position(ux * WorldSize, uy * WorldSize)
  }

  /** `types[Math.floor(Math.random() * types.length)]`: the unit interval is
      cut into six bands of width 1/6, the i-th band giving the i-th kind. */
  function RandomKind(u: real): (k: ResourceKind)
    requires Unit(u)
    ensures forall i :: 0 <= i < 6 ==>
      (k == ResourceKinds[i] <==> i as real / 6.0 <= u < (i + 1) as real / 6.0)
  {
    var j := (u * 6.0).Floor;
    ResourceKindsComplete();
    forall i | 0 <= i < 6
      ensures ResourceKinds[j] == ResourceKinds[i] <==> i as real / 6.0 <= u < (i + 1) as real / 6.0
    {
      FloorBand(u, i);
    }
    ResourceKinds[j]
  }

  /** `floor(6u)` is `i` exactly when `u` lies in the i-th sixth. */
  lemma FloorBand(u: real, i: int)
    ensures (u * 6.0).Floor == i <==> i as real / 6.0 <= u < (i + 1) as real / 6.0
  {
  }

  /** Every kind can be generated: the left end of its band draws it. */
  lemma RandomKindReachable(k: ResourceKind)
    ensures exists u :: Unit(u) && RandomKind(u) == k
  {
    ResourceKindsComplete();
    assert k in ResourceKinds;
    var i :| 0 <= i < |ResourceKinds| && ResourceKinds[i] == k;
    var u := i as real / 6.0;
    assert Unit(u);
    assert RandomKind(u) == ResourceKinds[i];
  }

  /** `Math.floor(Math.random() * 3) + 1`. */
  function RandomAmount(u: real): (n: int)
    requires Unit(u)
    ensures 1 <= n <= 3
  {
    (u * 3.0).Floor + 1
  }

  /** A freshly generated resource. */
  function NewResource(id: string, d: ResourceDraw): (r: Resource)
    requires ValidResourceDraw(d)
    ensures r.id == id && 1 <= r.amount <= 3 && InWorld(r.position)
  {
    Resource(id, RandomKind(d.kind), RandomPosition(d.x, d.y), RandomAmount(d.amount))
  }

  /** A freshly generated enemy: mutant when the draw exceeds 0.7, else
      cannibal; full health, patrolling, with a target. */
  function NewEnemy(id: string, d: EnemyDraw): (e: Enemy)
    requires ValidEnemyDraw(d)
    ensures e.id == id && e.health == FullHealth && e.state == Patrol
    ensures e.kind == (if d.kind > 0.7 then Mutant else Cannibal)
    ensures InWorld(e.position) && e.target.Some? && InWorld(e.target.value)
    ensures e.lastSeenPlayer == None
  {
    Enemy(id, if d.kind > 0.7 then Mutant else Cannibal, RandomPosition(d.x, d.y), FullHealth, Patrol,
          Some(RandomPosition(d.tx, d.ty)), None)
  }

  function ResourceId(n: nat): string { "resource-" + Decimal.NatToString(n) }

  function EnemyId(n: nat): string { "enemy-" + Decimal.NatToString(n) }

  /** generateResources: 30 resources, the i-th with id `resource-i`. */
  method GenerateResources(draws: seq<ResourceDraw>) returns (resources: seq<Resource>)
    requires |draws| == InitialResources
    requires forall i :: 0 <= i < |draws| ==> ValidResourceDraw(draws[i])
    ensures |resources| == InitialResources
    ensures forall i :: 0 <= i < |resources| ==> resources[i] == NewResource(ResourceId(i), draws[i])
  {
    resources := [];
    var i := 0;
    while i < InitialResources
      invariant 0 <= i <= InitialResources
      invariant |resources| == i
      invariant forall j :: 0 <= j < i ==> resources[j] == NewResource(ResourceId(j), draws[j])
    {
      resources := resources + [NewResource(ResourceId(i), draws[i])];
      i := i + 1;
    }
  }

  /** generateEnemies: 5 enemies, the i-th with id `enemy-i`. */
  method GenerateEnemies(draws: seq<EnemyDraw>) returns (enemies: seq<Enemy>)
    requires |draws| == InitialEnemies
    requires forall i :: 0 <= i < |draws| ==> ValidEnemyDraw(draws[i])
    ensures |enemies| == InitialEnemies
    ensures forall i :: 0 <= i < |enemies| ==> enemies[i] == NewEnemy(EnemyId(i), draws[i])
  {
    enemies := [];
    var i := 0;
    while i < InitialEnemies
      invariant 0 <= i <= InitialEnemies
      invariant |enemies| == i
      invariant forall j :: 0 <= j < i ==> enemies[j] == NewEnemy(EnemyId(j), draws[j])
    {
      enemies := enemies + [NewEnemy(EnemyId(i), draws[i])];
      i := i + 1;
    }
  }

  const NoProgress: Progress := Progress(0, 0, false, 0)

  /** initialState: the player in the middle of the world with every stat at
      100 and nothing in hand, 08:00 on day 1, in the menu. */
  const InitialState: GameState := GameState(
    Player(Position(WorldSize / 2.0, WorldSize / 2.0), PlayerStats(100.0, 100.0, 100.0, 100.0), []),
    [], [], [], 8.0, 1, false, Menu, None, NoProgress)

  /** startGame: the initial state with a freshly generated world, playing.
      Whatever the previous session held is gone. */
  method StartGame(resourceDraws: seq<ResourceDraw>, enemyDraws: seq<EnemyDraw>) returns (s: GameState)
    requires |resourceDraws| == InitialResources
    requires forall i :: 0 <= i < |resourceDraws| ==> ValidResourceDraw(resourceDraws[i])
    requires |enemyDraws| == InitialEnemies
    requires forall i :: 0 <= i < |enemyDraws| ==> ValidEnemyDraw(enemyDraws[i])
    ensures s == InitialState.(resources := s.resources, enemies := s.enemies, phase := Playing)
    ensures s.timeOfDay == 8.0 && s.dayCount == 1 && !s.isNight && s.ending == None
    ensures s.player.stats == PlayerStats(100.0, 100.0, 100.0, 100.0)
    ensures s.player.inventory == [] && s.buildings == [] && s.progress == NoProgress
    ensures |s.resources| == InitialResources
    ensures forall i :: 0 <= i < |s.resources| ==>
      s.resources[i].id == ResourceId(i) && 1 <= s.resources[i].amount <= 3 && InWorld(s.resources[i].position)
    ensures |s.enemies| == InitialEnemies
    ensures forall i :: 0 <= i < |s.enemies| ==>
      && s.enemies[i].id == EnemyId(i) && s.enemies[i].health == FullHealth
      && s.enemies[i].state == Patrol && s.enemies[i].target.Some?
  {
    var resources := GenerateResources(resourceDraws);
    var enemies := GenerateEnemies(enemyDraws);
    s := InitialState.(resources := resources, enemies := enemies, phase := Playing);
  }

  /** Generated ids are pairwise distinct, and no resource id is an enemy id. */
  lemma GeneratedIdsDistinct(i: nat, j: nat)
    ensures ResourceId(i) == ResourceId(j) <==> i == j
    ensures EnemyId(i) == EnemyId(j) <==> i == j
    ensures ResourceId(i) != EnemyId(j)
  {
    Decimal.PrefixedIdsDistinct("resource-", i, j);
    Decimal.PrefixedIdsDistinct("enemy-", i, j);
    assert ResourceId(i)[0] == 'r' && EnemyId(j)[0] == 'e';
  }
}
