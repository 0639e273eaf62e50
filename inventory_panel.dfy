/** The inventory panel's rules (src/components/game/Inventory.tsx): the
    recipe table, the craft gate, the per-requirement status, and which
    clicks issue commands. */
module InventoryPanel {
  import opened Types
  import opened Stacks
  import Commands

  /** CRAFTABLE_ITEMS, in display order (names are the English ones). */
  const CraftableItems: seq<CraftableItem> := [
    CraftableItem("axe", "Axe", Tool, [Requirement("wood", 2), Requirement("stone", 1)]),
    CraftableItem("spear", "Spear", Weapon, [Requirement("wood", 3), Requirement("stone", 1)]),
    CraftableItem("shelter", "Shelter", Construction, [Requirement("wood", 5), Requirement("cloth", 2)]),
    CraftableItem("fire", "Fire", Construction, [Requirement("wood", 3)]),
    CraftableItem("trap", "Trap", Construction, [Requirement("wood", 2), Requirement("metal", 1)]),
    CraftableItem("armor", "Armor", Tool, [Requirement("cloth", 3), Requirement("metal", 2)]),
    CraftableItem("plane_part", "Plane Part", Special, [Requirement("metal", 5), Requirement("cloth", 2)]),
    CraftableItem("boat_part", "Boat Part", Special, [Requirement("wood", 6), Requirement("cloth", 3)]),
    CraftableItem("radio", "Radio", Special, [Requirement("metal", 4), Requirement("stone", 2)])
  ]

  predicate CraftMaterial(kind: string)
  {
    kind == "wood" || kind == "stone" || kind == "cloth" || kind == "metal"
  }

  /** The shape every recipe of the table has: requirement amounts at least
      1, requirement kinds distinct and among wood, stone, cloth, metal, and
      the product not among its own requirements. */
  predicate WellFormedRecipe(item: CraftableItem)
  {
    var reqs := item.requirements;
    && (forall i :: 0 <= i < |reqs| ==> reqs[i].amount >= 1 && CraftMaterial(reqs[i].kind) && reqs[i].kind != item.id)
    && (forall i, j :: 0 <= i < j < |reqs| ==> reqs[i].kind != reqs[j].kind)
  }

  /** Nine recipes with distinct ids, each well-formed. */
  lemma CraftTable()
    ensures |CraftableItems| == 9
    ensures forall i, j :: 0 <= i < j < |CraftableItems| ==> CraftableItems[i].id != CraftableItems[j].id
    ensures forall i :: 0 <= i < |CraftableItems| ==> WellFormedRecipe(CraftableItems[i])
  {
    forall i | 0 <= i < |CraftableItems| ensures WellFormedRecipe(CraftableItems[i]) {
      var item := CraftableItems[i];
      assert item.requirements[0].kind != item.id;
    }
  }

  /** canCraft: every requirement has a stack of its kind with enough units;
      it is the very test craftItem applies, and with unique kinds it means
      "some stack of each required kind holds enough". */
  function CanCraft(items: seq<InventoryItem>, item: CraftableItem): (r: bool)
    ensures r == HasResources(items, item.requirements)
    ensures UniqueKinds(items) ==> (r <==> Covers(items, item.requirements))
  {
    if UniqueKinds(items) then
      HasResourcesMeaning(items, item.requirements);
      HasResources(items, item.requirements)
    else HasResources(items, item.requirements)
  }

  datatype RequirementStatus = RequirementStatus(has: int, needed: int, satisfied: bool)

  /** getRequirementStatus: what the player has of the kind (0 without a
      stack), what the recipe needs, and whether that is enough. */
  function GetRequirementStatus(items: seq<InventoryItem>, req: Requirement): (r: RequirementStatus)
    ensures r.needed == req.amount && (r.satisfied <==> r.has >= r.needed)
    ensures (forall j :: 0 <= j < |items| ==> items[j].kind != req.kind) ==> r.has == 0
    ensures UniqueKinds(items) ==> forall j :: 0 <= j < |items| && items[j].kind == req.kind ==> r.has == items[j].amount
  {
    var has := match FindStack(items, req.kind) case Some(it) => it.amount case None => 0;
    if UniqueKinds(items) then
      assert forall j :: 0 <= j < |items| && items[j].kind == req.kind ==> has == items[j].amount by {
        forall j | 0 <= j < |items| && items[j].kind == req.kind { FindStackAt(items, j); }
      }
      RequirementStatus(has, req.amount, has >= req.amount)
    else RequirementStatus(has, req.amount, has >= req.amount)
  }

  /** The badges agree with the gate: a recipe whose amounts are all at least
      1 can be crafted exactly when every one of its badges is satisfied. */
  lemma CanCraftIffAllSatisfied(items: seq<InventoryItem>, item: CraftableItem)
    requires forall i :: 0 <= i < |item.requirements| ==> item.requirements[i].amount >= 1
    ensures CanCraft(items, item) <==>
      forall i :: 0 <= i < |item.requirements| ==> GetRequirementStatus(items, item.requirements[i]).satisfied
  {
  }

  datatype CraftCommand = CraftCommand(itemId: string, requirements: seq<Requirement>)

  /** Clicking a recipe card calls onCraft only when canCraft holds, with
      the recipe's own id and requirements. */
  function OnCraftClick(items: seq<InventoryItem>, item: CraftableItem): (r: Option<CraftCommand>)
    ensures r.Some? <==> CanCraft(items, item)
    ensures r.Some? ==> r.value == CraftCommand(item.id, item.requirements)
  {
    if CanCraft(items, item) then Some(CraftCommand(item.id, item.requirements)) else None
  }

  /** Clicking a stack calls onUseItem('food') for food, onUseItem('water')
      for water, and nothing for any other stack. */
  function OnStackClick(item: InventoryItem): (calls: seq<string>)
    ensures item.kind == "food" ==> calls == ["food"]
    ensures item.kind == "water" ==> calls == ["water"]
    ensures item.kind != "food" && item.kind != "water" ==> calls == []
  {
    (if item.kind == "food" then ["food"] else []) + (if item.kind == "water" then ["water"] else [])
  }

  /** A craft issued from a card of the table always succeeds on the state it
      was gated against: the materials are taken, one unit of the product is
      added, and the state therefore changes. */
  lemma GatedCraftSucceeds(s: GameState, i: int)
    requires WellFormed(s.player.inventory)
    requires 0 <= i < |CraftableItems|
    requires OnCraftClick(s.player.inventory, CraftableItems[i]).Some?
    ensures var item := CraftableItems[i];
      var r := Commands.CraftItem(s, item.id, item.requirements);
      && AmountOf(r.player.inventory, item.id) == AmountOf(s.player.inventory, item.id) + 1
      && (forall k :: k != item.id ==>
            AmountOf(r.player.inventory, k) == AmountOf(s.player.inventory, k) - RequiredOf(item.requirements, k))
      && r != s
  {
    var item := CraftableItems[i];
    CraftTable();
    assert WellFormedRecipe(item);
    assert FindRequirement(item.requirements, item.id).None?;
  }
}
