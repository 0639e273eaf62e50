/** The player commands of the game-state hook (src/hooks/useGameState.ts):
    each is a pure function from the previous state to the next one, and each
    fails silently (returns the state unchanged) on an unknown id or missing
    materials. */
module Commands {
  import opened Types
  import opened Stacks
  import Decimal

  const MoveSpeed: real := 5.0
  /** Closest the player may come to the world's edge. */
  const EdgeMargin: real := 20.0

  function Max(a: real, b: real): real { if a >= b then a else b }
  function Min(a: real, b: real): real { if a <= b then a else b }

  /** `Math.max(lo, Math.min(hi, v))`. */
  function Clamp(v: real, lo: real, hi: real): (r: real)
    ensures lo <= hi ==> lo <= r <= hi
    ensures lo <= v <= hi ==> r == v
    ensures v < lo ==> r == lo
    ensures lo <= hi && hi < v ==> r == hi
  {
    Max(lo, Min(hi, v))
  }

  /** movePlayer: outside `playing` nothing happens; otherwise each
      coordinate moves by five times the direction and is clamped to
      [20, 780]; nothing but the player's position changes. */
  function MovePlayer(s: GameState, dir: Position): (r: GameState)
    ensures s.phase != Playing ==> r == s
    ensures s.phase == Playing ==>
      && r == s.(player := s.player.(position := r.player.position))
      && EdgeMargin <= r.player.position.x <= WorldSize - EdgeMargin
      && EdgeMargin <= r.player.position.y <= WorldSize - EdgeMargin
    ensures s.phase == Playing ==>
      var wantX := s.player.position.x + dir.x * MoveSpeed;
      var wantY := s.player.position.y + dir.y * MoveSpeed;
      && (EdgeMargin <= wantX <= WorldSize - EdgeMargin ==> r.player.position.x == wantX)
      && (EdgeMargin <= wantY <= WorldSize - EdgeMargin ==> r.player.position.y == wantY)
      && (wantX < EdgeMargin ==> r.player.position.x == EdgeMargin)
      && (wantY < EdgeMargin ==> r.player.position.y == EdgeMargin)
      && (wantX > WorldSize - EdgeMargin ==> r.player.position.x == WorldSize - EdgeMargin)
      && (wantY > WorldSize - EdgeMargin ==> r.player.position.y == WorldSize - EdgeMargin)
  {
    if s.phase != Playing then s
    else
      var p := s.player.position;
      var newX := Clamp(p.x + dir.x * MoveSpeed, EdgeMargin, WorldSize - EdgeMargin);
      var newY := Clamp(p.y + dir.y * MoveSpeed, EdgeMargin, WorldSize - EdgeMargin);
      s.(player := s.player.(position := Position(newX, newY)))
  }

  /** `resources.find(r => r.id === id)`. */
  function FindResource(rs: seq<Resource>, id: string): (r: Option<Resource>)
    ensures r.Some? <==> exists i :: 0 <= i < |rs| && rs[i].id == id
    ensures r.Some? ==> r.value in rs && r.value.id == id
  {
    if rs == [] then None
    else if rs[0].id == id then Some(rs[0])
    else FindResource(rs[1..], id)
  }

  /** `resources.filter(r => r.id !== id)`. */
  function WithoutResource(rs: seq<Resource>, id: string): (r: seq<Resource>)
    ensures forall x :: x in r <==> x in rs && x.id != id
    ensures |r| <= |rs|
  {
    if rs == [] then []
    else if rs[0].id == id then WithoutResource(rs[1..], id)
    else [rs[0]] + WithoutResource(rs[1..], id)
  }

  predicate UniqueResourceIds(rs: seq<Resource>)
  {
    forall i, j :: 0 <= i < j < |rs| ==> rs[i].id != rs[j].id
  }

  /** With unique ids, removing a present id removes exactly one resource;
      removing an absent id removes none. */
  lemma {:induction false} WithoutResourceCount(rs: seq<Resource>, id: string)
    requires UniqueResourceIds(rs)
    ensures |WithoutResource(rs, id)| == if FindResource(rs, id).Some? then |rs| - 1 else |rs|
  {
    if rs != [] {
      var tail := rs[1..];
      assert UniqueResourceIds(tail);
      WithoutResourceCount(tail, id);
      if rs[0].id == id {
        assert forall j :: 0 <= j < |tail| ==> tail[j] == rs[j + 1];
      }
    }
  }

  /** collectResource: an unknown id leaves the state unchanged; otherwise the
      resource leaves the world and its amount is merged into the stack of its
      kind (or a new stack), and nothing else changes. */
  function CollectResource(s: GameState, id: string): (r: GameState)
    ensures FindResource(s.resources, id).None? ==> r == s
    ensures FindResource(s.resources, id).Some? ==>
      var res := FindResource(s.resources, id).value;
      var inv := s.player.inventory;
      && r == s.(resources := r.resources, player := s.player.(inventory := r.player.inventory))
      && (forall x :: x in r.resources <==> x in s.resources && x.id != id)
      && (UniqueKinds(inv) ==>
            && UniqueKinds(r.player.inventory)
            && forall k :: AmountOf(r.player.inventory, k) ==
                 AmountOf(inv, k) + (if k == KindName(res.kind) then res.amount else 0))
  {
    match FindResource(s.resources, id)
    case None => s
    case Some(res) =>
      var name := KindName(res.kind);
      var inv := s.player.inventory;
      var newInv := AddToStack(inv, name, res.amount, ResourceIcon(name));
      var r := s.(resources := WithoutResource(s.resources, id), player := s.player.(inventory := newInv));
      if UniqueKinds(inv) then AddToStackSpec(inv, name, res.amount, ResourceIcon(name)); r else r
  }

  /** The ending counters after crafting `itemId`. */
  function CraftProgress(p: Progress, itemId: string): (r: Progress)
    ensures r.planeParts == p.planeParts + (if itemId == "plane_part" then 1 else 0)
    ensures r.boatParts == p.boatParts + (if itemId == "boat_part" then 1 else 0)
    ensures r.radioFixed == (p.radioFixed || itemId == "radio")
    ensures r.enemiesKilled == p.enemiesKilled
  {
    var p1 := if itemId == "plane_part" then p.(planeParts := p.planeParts + 1) else p;
    var p2 := if itemId == "boat_part" then p1.(boatParts := p1.boatParts + 1) else p1;
    if itemId == "radio" then p2.(radioFixed := true) else p2
  }

  /** craftItem: all or nothing. Without every material the state is
      unchanged; otherwise the required amounts are consumed (emptied stacks
      dropped), one unit of the product is merged or appended, and the ending
      counters advance for plane parts, boat parts and the radio. */
  function CraftItem(s: GameState, itemId: string, reqs: seq<Requirement>): (r: GameState)
    ensures !HasResources(s.player.inventory, reqs) ==> r == s
    ensures HasResources(s.player.inventory, reqs) ==>
      && r == s.(player := s.player.(inventory := r.player.inventory), progress := CraftProgress(s.progress, itemId))
      && (WellFormed(s.player.inventory) ==>
            && WellFormed(r.player.inventory)
            && forall k :: AmountOf(r.player.inventory, k) ==
                 AmountOf(s.player.inventory, k) - RequiredOf(reqs, k) + (if k == itemId then 1 else 0))
  {
    var inv := s.player.inventory;
    if !HasResources(inv, reqs) then s
    else
      var consumed := Consume(inv, reqs);
      var newInv := AddToStack(consumed, itemId, 1, CraftedIcon(itemId));
      var r := s.(player := s.player.(inventory := newInv), progress := CraftProgress(s.progress, itemId));
      if WellFormed(inv) then
        ConsumeSpec(inv, reqs);
        AddToStackSpec(consumed, itemId, 1, CraftedIcon(itemId));
        r
      else r
  }

  /** Id of a building placed at clock reading `now` (`building-${Date.now()}`). */
  function BuildingId(now: nat): string
  {
    "building-" + Decimal.NatToString(now)
  }

  /** placeBuilding: always appends one building of the given kind, with full
      health, at the player's current position; checks neither phase nor
      materials, and changes nothing else. */
  function PlaceBuilding(s: GameState, kind: BuildingKind, now: nat): (r: GameState)
    ensures r == s.(buildings := r.buildings)
    ensures |r.buildings| == |s.buildings| + 1 && r.buildings[..|s.buildings|] == s.buildings
    ensures r.buildings[|s.buildings|] == Building(BuildingId(now), kind, s.player.position, 100)
  {
    s.(buildings := s.buildings + [Building(BuildingId(now), kind, s.player.position, 100)])
  }

  /** `enemies.find(e => e.id === id)`. */
  function FindEnemy(es: seq<Enemy>, id: string): (r: Option<Enemy>)
    ensures r.Some? <==> exists i :: 0 <= i < |es| && es[i].id == id
    ensures r.Some? ==> r.value in es && r.value.id == id
  {
    if es == [] then None
    else if es[0].id == id then Some(es[0])
    else FindEnemy(es[1..], id)
  }

  /** `enemies.filter(e => e.id !== id)`. */
  function WithoutEnemy(es: seq<Enemy>, id: string): (r: seq<Enemy>)
    ensures forall x :: x in r <==> x in es && x.id != id
    ensures |r| <= |es|
  {
    if es == [] then []
    else if es[0].id == id then WithoutEnemy(es[1..], id)
    else [es[0]] + WithoutEnemy(es[1..], id)
  }

  /** Sanity lost for a kill. */
  const KillSanityCost: real := 5.0

  /** attackEnemy: an unknown id is a no-op. When the hit brings the found
      enemy's health to 0 or below, every enemy with that id is removed, the
      kill counter goes up by exactly one and sanity drops by 5, floored at
      0. Otherwise enemies with that id get the reduced health and are forced
      into `chase`; no other enemy and nothing else changes. */
  function AttackEnemy(s: GameState, id: string, damage: int): (r: GameState)
    ensures FindEnemy(s.enemies, id).None? ==> r == s
    ensures FindEnemy(s.enemies, id).Some? && FindEnemy(s.enemies, id).value.health - damage <= 0 ==>
      && (forall x :: x in r.enemies <==> x in s.enemies && x.id != id)
      && r.progress == s.progress.(enemiesKilled := s.progress.enemiesKilled + 1)
      && r.player.stats == s.player.stats.(sanity := Max(0.0, s.player.stats.sanity - KillSanityCost))
      && r == s.(enemies := r.enemies, progress := r.progress,
                 player := s.player.(stats := r.player.stats))
    ensures FindEnemy(s.enemies, id).Some? && FindEnemy(s.enemies, id).value.health - damage > 0 ==>
      var newHealth := FindEnemy(s.enemies, id).value.health - damage;
      && r == s.(enemies := r.enemies)
      && |r.enemies| == |s.enemies|
      && forall i :: 0 <= i < |s.enemies| ==>
           r.enemies[i] == if s.enemies[i].id == id
                           then s.enemies[i].(health := newHealth, state := Chase)
                           else s.enemies[i]
  {
    match FindEnemy(s.enemies, id)
    case None => s
    case Some(enemy) =>
      var newHealth := enemy.health - damage;
      if newHealth <= 0 then
        s.(enemies := WithoutEnemy(s.enemies, id),
           progress := s.progress.(enemiesKilled := s.progress.enemiesKilled + 1),
           player := s.player.(stats := s.player.stats.(sanity := Max(0.0, s.player.stats.sanity - KillSanityCost))))
      else
        s.(enemies := seq(|s.enemies|, i requires 0 <= i < |s.enemies| =>
             if s.enemies[i].id == id then s.enemies[i].(health := newHealth, state := Chase) else s.enemies[i]))
  }

  /** triggerEnding: always moves to the ending phase and records the given
      ending (which may be null) verbatim, whatever the current phase or
      progress. */
  function TriggerEnding(s: GameState, ending: Option<Ending>): (r: GameState)
    ensures r.phase == Ended && r.ending == ending
    ensures r == s.(phase := r.phase, ending := r.ending)
  {
    s.(phase := Ended, ending := ending)
  }

  /** The game-over effect: health at or below 0 while playing forces the
      `plane_death` ending; any other state is left alone. */
  function GameOverCheck(s: GameState): (r: GameState)
    ensures !(r.player.stats.health <= 0.0 && r.phase == Playing)
    ensures s.player.stats.health <= 0.0 && s.phase == Playing ==> r == TriggerEnding(s, Some(PlaneDeath))
    ensures !(s.player.stats.health <= 0.0 && s.phase == Playing) ==> r == s
  {
    if s.player.stats.health <= 0.0 && s.phase == Playing then TriggerEnding(s, Some(PlaneDeath)) else s
  }
}
