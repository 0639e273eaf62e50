/** The game controller (src/components/game/Game.tsx): the set of held
    keys, the movement step that turns it into a direction, the craft
    handler that auto-places buildings, and the use-item handler. */
module GameController {
  import opened Types
  import opened Stacks
  import opened Commands
  import InventoryPanel

  /** keydown: the code joins the held set. */
  function KeyDown(keys: set<string>, code: string): (r: set<string>)
    ensures code in r
    ensures forall c :: c != code ==> (c in r <==> c in keys)
  {
    keys + {code}
  }

  /** keyup: the code leaves the held set. */
  function KeyUp(keys: set<string>, code: string): (r: set<string>)
    ensures code !in r
    ensures forall c :: c != code ==> (c in r <==> c in keys)
  {
    keys - {code}
  }

  /** Pressing and releasing a key that was not held restores the set. */
  lemma PressRelease(keys: set<string>, code: string)
    requires code !in keys
    ensures KeyUp(KeyDown(keys, code), code) == keys
  {
  }

  predicate Held(keys: set<string>, a: string, b: string)
  {
    a in keys || b in keys
  }

  /** One axis of the movement loop: the positive keys win over the negative
      ones because they are tested last. */
  function Axis(keys: set<string>, neg1: string, neg2: string, pos1: string, pos2: string): (v: int)
    ensures v == -1 || v == 0 || v == 1
    ensures v == 1 <==> Held(keys, pos1, pos2)
    ensures v == -1 <==> Held(keys, neg1, neg2) && !Held(keys, pos1, pos2)
  {
    if Held(keys, pos1, pos2) then 1 else if Held(keys, neg1, neg2) then -1 else 0
  }

  function DirX(keys: set<string>): int { Axis(keys, "KeyA", "ArrowLeft", "KeyD", "ArrowRight") }
  function DirY(keys: set<string>): int { Axis(keys, "KeyW", "ArrowUp", "KeyS", "ArrowDown") }

  /** The body of the 16 ms movement loop: `let dx = 0, dy = 0` and four
      successive ifs. */
  method MovementDirection(keys: set<string>) returns (dx: int, dy: int)
    ensures dx == DirX(keys) && dy == DirY(keys)
  {
    dx := 0;
    dy := 0;
    if "KeyW" in keys || "ArrowUp" in keys { dy := -1; }
    if "KeyS" in keys || "ArrowDown" in keys { dy := 1; }
    if "KeyA" in keys || "ArrowLeft" in keys { dx := -1; }
    if "KeyD" in keys || "ArrowRight" in keys { dx := 1; }
  }

  /** One iteration of the movement loop, which runs only while playing:
      movePlayer is called with the raw direction (diagonals are not
      normalised) unless both components are 0. */
  method MovementStep(s: GameState, keys: set<string>) returns (r: GameState)
    ensures s.phase == Playing && (DirX(keys) != 0 || DirY(keys) != 0) ==>
      r == MovePlayer(s, Position(DirX(keys) as real, DirY(keys) as real))
    ensures !(s.phase == Playing && (DirX(keys) != 0 || DirY(keys) != 0)) ==> r == s
  {
    r := s;
    if s.phase != Playing {
      return;
    }
    var dx, dy := MovementDirection(keys);
    if dx != 0 || dy != 0 {
      r := MovePlayer(s, Position(dx as real, dy as real));
    }
  }

  /** Holding W and S together moves the player down by a full step of 5
      units when that stays inside the margins. */
  lemma DownWinsOverUp(s: GameState, keys: set<string>)
    requires s.phase == Playing
    requires "KeyW" in keys && "KeyS" in keys
    requires "KeyA" !in keys && "ArrowLeft" !in keys && "KeyD" !in keys && "ArrowRight" !in keys
    requires s.player.position.y + MoveSpeed <= WorldSize - EdgeMargin
    requires EdgeMargin <= s.player.position.x <= WorldSize - EdgeMargin
    requires EdgeMargin <= s.player.position.y
    ensures var r := MovePlayer(s, Position(DirX(keys) as real, DirY(keys) as real));
      r.player.position == Position(s.player.position.x, s.player.position.y + MoveSpeed)
  {
    assert DirX(keys) == 0 && DirY(keys) == 1;
  }

  /** The recipes whose product handleCraft places in the world. */
  function AutoPlaced(itemId: string): (r: Option<BuildingKind>)
    ensures r.Some? <==> itemId in {"shelter", "fire", "trap"}
    ensures r == Some(Shelter) <==> itemId == "shelter"
    ensures r == Some(Fire) <==> itemId == "fire"
    ensures r == Some(Trap) <==> itemId == "trap"
  {
    if itemId == "shelter" then Some(Shelter)
    else if itemId == "fire" then Some(Fire)
    else if itemId == "trap" then Some(Trap)
    else None
  }

  /** handleCraft: craftItem always, then placeBuilding for shelter, fire
      and trap, whether or not the craft took anything. `now` stands for
      the clock reading that names the building. */
  function HandleCraft(s: GameState, itemId: string, reqs: seq<Requirement>, now: nat): (r: GameState)
    ensures AutoPlaced(itemId).None? ==> r == CraftItem(s, itemId, reqs)
    ensures AutoPlaced(itemId).Some? ==>
      r == CraftItem(s, itemId, reqs).(buildings :=
        s.buildings + [Building(BuildingId(now), AutoPlaced(itemId).value, s.player.position, 100)])
  {
    var crafted := CraftItem(s, itemId, reqs);
    match AutoPlaced(itemId)
    case Some(kind) => PlaceBuilding(crafted, kind, now)
    case None => crafted
  }

  /** The placement does not depend on the craft: without the materials a
      fire is still placed and the inventory is left as it was. */
  lemma PlacedWithoutMaterials(s: GameState, reqs: seq<Requirement>, now: nat)
    requires !HasResources(s.player.inventory, reqs)
    ensures var r := HandleCraft(s, "fire", reqs, now);
      && r.player == s.player && r.progress == s.progress
      && |r.buildings| == |s.buildings| + 1
  {
  }

  /** Through the inventory panel the craft is always gated, so an
      auto-placed building always comes with the materials taken. */
  lemma GatedPlacementPaid(s: GameState, i: int, now: nat)
    requires WellFormed(s.player.inventory)
    requires 0 <= i < |InventoryPanel.CraftableItems|
    requires InventoryPanel.OnCraftClick(s.player.inventory, InventoryPanel.CraftableItems[i]).Some?
    ensures var item := InventoryPanel.CraftableItems[i];
      var r := HandleCraft(s, item.id, item.requirements, now);
      && (forall k :: k != item.id ==>
            AmountOf(r.player.inventory, k) == AmountOf(s.player.inventory, k) - RequiredOf(item.requirements, k))
      && (AutoPlaced(item.id).Some? ==> |r.buildings| == |s.buildings| + 1)
  {
    InventoryPanel.GatedCraftSucceeds(s, i);
  }

  datatype Toast = AteFood | DrankWater

  /** What handleUseItem does: it computes an inventory with one unit of the
      kind taken (and an emptied stack dropped), shows a toast for food or
      water, and hands the new inventory to nobody. */
  datatype UseOutcome = UseOutcome(state: GameState, toast: Option<Toast>, discarded: seq<InventoryItem>)

  function ToastFor(kind: string): Option<Toast>
  {
    if kind == "food" then Some(AteFood) else if kind == "water" then Some(DrankWater) else None
  }

  /** handleUseItem: an early return when there is no stack of the kind or
      its amount is not positive; the game state never changes. */
  function HandleUseItem(s: GameState, kind: string): (r: UseOutcome)
    ensures r.state == s
    ensures r.toast.Some? <==>
      FindStack(s.player.inventory, kind).Some? && FindStack(s.player.inventory, kind).value.amount > 0 &&
      (kind == "food" || kind == "water")
    ensures r.toast == Some(AteFood) ==> kind == "food"
    ensures r.toast == Some(DrankWater) ==> kind == "water"
    ensures WellFormed(s.player.inventory) && FindStack(s.player.inventory, kind).Some? ==>
      && WellFormed(r.discarded)
      && forall k :: AmountOf(r.discarded, k) == AmountOf(s.player.inventory, k) - (if k == kind then 1 else 0)
  {
    var inv := s.player.inventory;
    match FindStack(inv, kind)
    case None => UseOutcome(s, None, inv)
    case Some(item) =>
      if item.amount <= 0 then UseOutcome(s, None, inv)
      else
        var one := [Requirement(kind, 1)];
        assert HasResources(inv, one);
        if WellFormed(inv) then
          ConsumeSpec(inv, one);
          UseOutcome(s, ToastFor(kind), Consume(inv, one))
        else UseOutcome(s, ToastFor(kind), Consume(inv, one))
  }
}
