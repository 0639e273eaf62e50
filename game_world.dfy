/** The 2D world view's rules (src/components/game/GameWorld.tsx): the
    camera that follows the player, and the key handler that turns Space
    and KeyE into attack and collect commands for everything in range.
    The handler's comments speak of the nearest target, but the code issues
    a command for every enemy or resource in range; the model follows the
    code. */
module GameWorld {
  import opened Types
  import opened Stacks
  import opened Commands

  const CanvasWidth: real := 600.0
  const CanvasHeight: real := 500.0

  /** attackRange 50 and collectRange 40, squared. */
  const AttackRange2: real := 2500.0
  const CollectRange2: real := 1600.0

  const WeaponHitDamage: int := 30
  const BareHandDamage: int := 10

  /** cameraOffset: the canvas is centred on the player, clamped so that it
      never shows anything beyond the world's edges. */
  function CameraOffset(p: Position, worldSize: real): (r: Position)
    ensures 0.0 <= r.x && 0.0 <= r.y
    ensures worldSize >= CanvasWidth ==> r.x <= worldSize - CanvasWidth
    ensures worldSize >= CanvasHeight ==> r.y <= worldSize - CanvasHeight
    ensures CanvasWidth / 2.0 <= p.x <= worldSize - CanvasWidth / 2.0 ==> r.x == p.x - CanvasWidth / 2.0
    ensures CanvasHeight / 2.0 <= p.y <= worldSize - CanvasHeight / 2.0 ==> r.y == p.y - CanvasHeight / 2.0
  {
    Position(Max(0.0, Min(p.x - CanvasWidth / 2.0, worldSize - CanvasWidth)),
             Max(0.0, Min(p.y - CanvasHeight / 2.0, worldSize - CanvasHeight)))
  }

  /** Wherever the player stands in the world, the camera keeps them on the
      600 by 500 canvas. */
  lemma PlayerOnCanvas(p: Position)
    requires 0.0 <= p.x <= WorldSize && 0.0 <= p.y <= WorldSize
    ensures var r := CameraOffset(p, WorldSize);
      && 0.0 <= p.x - r.x <= CanvasWidth
      && 0.0 <= p.y - r.y <= CanvasHeight
  {
  }

  /** `inventory.some(i => i.type === 'axe' || i.type === 'spear')`. */
  predicate HasWeapon(inv: seq<InventoryItem>)
  {
    exists i :: 0 <= i < |inv| && (inv[i].kind == "axe" || inv[i].kind == "spear")
  }

  /** The damage of one hit: 30 with an axe or a spear in the inventory,
      10 bare-handed. */
  function WeaponDamage(inv: seq<InventoryItem>): (d: int)
    ensures d == WeaponHitDamage <==> HasWeapon(inv)
    ensures d == BareHandDamage <==> !HasWeapon(inv)
  {
    if HasWeapon(inv) then WeaponHitDamage else BareHandDamage
  }

  /** Crafting an axe from a well-formed inventory arms the player. */
  lemma CraftedAxeArms(s: GameState, reqs: seq<Requirement>)
    requires WellFormed(s.player.inventory) && HasResources(s.player.inventory, reqs)
    requires FindRequirement(reqs, "axe").None?
    ensures WeaponDamage(CraftItem(s, "axe", reqs).player.inventory) == WeaponHitDamage
  {
    var inv := CraftItem(s, "axe", reqs).player.inventory;
    CraftedOneMore(s, "axe", reqs);
    StockedAxeArms(s.player.inventory, inv);
    assert HasWeapon(inv);
  }

  /** A successful craft of a product that is not among its own
      requirements leaves one more unit of it. */
  lemma CraftedOneMore(s: GameState, itemId: string, reqs: seq<Requirement>)
    requires WellFormed(s.player.inventory) && HasResources(s.player.inventory, reqs)
    requires FindRequirement(reqs, itemId).None?
    ensures AmountOf(CraftItem(s, itemId, reqs).player.inventory, itemId) == AmountOf(s.player.inventory, itemId) + 1
  {
    assert RequiredOf(reqs, itemId) == 0;
  }

  /** An axe count above what a well-formed inventory held means an axe
      stack exists. */
  lemma StockedAxeArms(inv0: seq<InventoryItem>, inv: seq<InventoryItem>)
    requires WellFormed(inv0)
    requires AmountOf(inv, "axe") == AmountOf(inv0, "axe") + 1
    ensures HasWeapon(inv)
  {
    assert AmountOf(inv0, "axe") >= 0 by {
      if FindStack(inv0, "axe").None? {
        AmountOfAbsentWhenNone(inv0, "axe");
      } else {
        var j :| 0 <= j < |inv0| && inv0[j].kind == "axe";
        FindStackAt(inv0, j);
      }
    }
    assert FindStack(inv, "axe").Some?;
    var j :| 0 <= j < |inv| && inv[j].kind == "axe";
    assert HasWeapon(inv);
  }

  /** No stack of a kind: it shows 0. */
  lemma AmountOfAbsentWhenNone(inv: seq<InventoryItem>, kind: string)
    requires FindStack(inv, kind).None?
    ensures AmountOf(inv, kind) == 0
  {
  }

  /** A callback issued by the handler: onAttackEnemy(id, damage) or
      onCollectResource(id). */
  datatype Command = AttackCmd(id: string, damage: int) | CollectCmd(id: string)

  /** One attack per enemy strictly within range of `p`, in list order. */
  function AttackCommands(es: seq<Enemy>, p: Position, damage: int): (r: seq<Command>)
    ensures |r| <= |es|
    ensures forall c :: c in r ==> c.AttackCmd? && c.damage == damage
  {
    if es == [] then []
    else
      var last := es[|es| - 1];
      AttackCommands(es[..|es| - 1], p, damage) +
        (if Dist2(last.position, p) < AttackRange2 then [AttackCmd(last.id, damage)] else [])
  }

  /** One collect per resource strictly within range of `p`, in list order. */
  function CollectCommands(rs: seq<Resource>, p: Position): (r: seq<Command>)
    ensures |r| <= |rs|
    ensures forall c :: c in r ==> c.CollectCmd?
  {
    if rs == [] then []
    else
      var last := rs[|rs| - 1];
      CollectCommands(rs[..|rs| - 1], p) +
        (if Dist2(last.position, p) < CollectRange2 then [CollectCmd(last.id)] else [])
  }

  /** An attack is issued for an id exactly when an enemy with that id is in
      range. */
  lemma {:induction false} AttackCommandsMembership(es: seq<Enemy>, p: Position, damage: int, id: string)
    ensures AttackCmd(id, damage) in AttackCommands(es, p, damage) <==>
      exists i :: 0 <= i < |es| && es[i].id == id && Dist2(es[i].position, p) < AttackRange2
  {
    if es != [] {
      var init := es[..|es| - 1];
      AttackCommandsMembership(init, p, damage, id);
      if exists i :: 0 <= i < |init| && init[i].id == id && Dist2(init[i].position, p) < AttackRange2 {
        var i :| 0 <= i < |init| && init[i].id == id && Dist2(init[i].position, p) < AttackRange2;
        assert es[i] == init[i];
      }
      if exists i :: 0 <= i < |es| && es[i].id == id && Dist2(es[i].position, p) < AttackRange2 {
        var i :| 0 <= i < |es| && es[i].id == id && Dist2(es[i].position, p) < AttackRange2;
        if i < |es| - 1 {
          assert init[i] == es[i];
        }
      }
    }
  }

  /** A collect is issued for an id exactly when a resource with that id is
      in range. */
  lemma {:induction false} CollectCommandsMembership(rs: seq<Resource>, p: Position, id: string)
    ensures CollectCmd(id) in CollectCommands(rs, p) <==>
      exists i :: 0 <= i < |rs| && rs[i].id == id && Dist2(rs[i].position, p) < CollectRange2
  {
    if rs != [] {
      var init := rs[..|rs| - 1];
      CollectCommandsMembership(init, p, id);
      if exists i :: 0 <= i < |init| && init[i].id == id && Dist2(init[i].position, p) < CollectRange2 {
        var i :| 0 <= i < |init| && init[i].id == id && Dist2(init[i].position, p) < CollectRange2;
        assert rs[i] == init[i];
      }
      if exists i :: 0 <= i < |rs| && rs[i].id == id && Dist2(rs[i].position, p) < CollectRange2 {
        var i :| 0 <= i < |rs| && rs[i].id == id && Dist2(rs[i].position, p) < CollectRange2;
        if i < |rs| - 1 {
          assert init[i] == rs[i];
        }
      }
    }
  }

  /** What the handler issues for a key code: attacks for Space, collects
      for KeyE, nothing for any other key, whatever the game phase. */
  function KeyCommands(code: string, s: GameState): seq<Command>
  {
    if code == "Space" then AttackCommands(s.enemies, s.player.position, WeaponDamage(s.player.inventory))
    else if code == "KeyE" then CollectCommands(s.resources, s.player.position)
    else []
  }

  /** handleKeyDown: the two forEach loops over the snapshot of enemies and
      resources, issuing one command per target in range. */
  method HandleKeyDown(code: string, s: GameState) returns (cmds: seq<Command>)
    ensures cmds == KeyCommands(code, s)
  {
    cmds := [];
    var p := s.player.position;
    if code == "Space" {
      var damage := WeaponDamage(s.player.inventory);
      var i := 0;
      while i < |s.enemies|
        invariant 0 <= i <= |s.enemies|
        invariant cmds == AttackCommands(s.enemies[..i], p, damage)
      {
        assert s.enemies[..i + 1][..i] == s.enemies[..i];
        if Dist2(s.enemies[i].position, p) < AttackRange2 {
          cmds := cmds + [AttackCmd(s.enemies[i].id, damage)];
        }
        i := i + 1;
      }
      assert s.enemies[..i] == s.enemies;
    }
    if code == "KeyE" {
      var i := 0;
      while i < |s.resources|
        invariant 0 <= i <= |s.resources|
        invariant cmds == CollectCommands(s.resources[..i], p)
      {
        assert s.resources[..i + 1][..i] == s.resources[..i];
        if Dist2(s.resources[i].position, p) < CollectRange2 {
          cmds := cmds + [CollectCmd(s.resources[i].id)];
        }
        i := i + 1;
      }
      assert s.resources[..i] == s.resources;
    }
  }

  /** The reducer call behind a command. */
  function Dispatch(s: GameState, c: Command): GameState
  {
    match c
    case AttackCmd(id, damage) => AttackEnemy(s, id, damage)
    case CollectCmd(id) => CollectResource(s, id)
  }

  /** The commands of one key press, applied one after another. */
  function Run(s: GameState, cmds: seq<Command>): GameState
    decreases |cmds|
  {
    if cmds == [] then s else Run(Dispatch(s, cmds[0]), cmds[1..])
  }

  /** Applying collects removes exactly the resources whose id was named. */
  lemma {:induction false} RunCollects(s: GameState, cmds: seq<Command>)
    requires forall c :: c in cmds ==> c.CollectCmd?
    ensures forall x :: x in Run(s, cmds).resources <==> x in s.resources && CollectCmd(x.id) !in cmds
    decreases |cmds|
  {
    if cmds != [] {
      var next := Dispatch(s, cmds[0]);
      assert forall c :: c in cmds[1..] ==> c in cmds;
      RunCollects(next, cmds[1..]);
      forall x ensures x in Run(s, cmds).resources <==> x in s.resources && CollectCmd(x.id) !in cmds {
        assert CollectCmd(x.id) in cmds <==> CollectCmd(x.id) == cmds[0] || CollectCmd(x.id) in cmds[1..];
      }
    }
  }

  /** KeyE then the collects it issues: with distinct resource ids, what is
      left is exactly the resources that were out of range. */
  lemma CollectSweep(s: GameState)
    requires UniqueResourceIds(s.resources)
    ensures forall x :: x in Run(s, KeyCommands("KeyE", s)).resources <==>
      x in s.resources && Dist2(x.position, s.player.position) >= CollectRange2
  {
    var p := s.player.position;
    var cmds := KeyCommands("KeyE", s);
    RunCollects(s, cmds);
    forall x | x in s.resources
      ensures CollectCmd(x.id) in cmds <==> Dist2(x.position, p) < CollectRange2
    {
      CollectCommandsMembership(s.resources, p, x.id);
      var k :| 0 <= k < |s.resources| && s.resources[k] == x;
      if CollectCmd(x.id) in cmds {
        var i :| 0 <= i < |s.resources| && s.resources[i].id == x.id && Dist2(s.resources[i].position, p) < CollectRange2;
        assert i == k;
      }
    }
  }

  /** Applying attacks never increases the number of enemies, and counts at
      most one kill per command. */
  lemma {:induction false} RunAttacksKills(s: GameState, cmds: seq<Command>)
    requires forall c :: c in cmds ==> c.AttackCmd?
    ensures s.progress.enemiesKilled <= Run(s, cmds).progress.enemiesKilled <= s.progress.enemiesKilled + |cmds|
    ensures Run(s, cmds).resources == s.resources && Run(s, cmds).player.inventory == s.player.inventory
    decreases |cmds|
  {
    if cmds != [] {
      assert forall c :: c in cmds[1..] ==> c in cmds;
      RunAttacksKills(Dispatch(s, cmds[0]), cmds[1..]);
    }
  }

  /** Applying attacks spares every enemy that none of them names. */
  lemma {:induction false} RunAttacksSpare(s: GameState, cmds: seq<Command>, x: Enemy)
    requires forall c :: c in cmds ==> c.AttackCmd? && c.id != x.id
    requires x in s.enemies
    ensures x in Run(s, cmds).enemies
    decreases |cmds|
  {
    if cmds != [] {
      var next := Dispatch(s, cmds[0]);
      var id := cmds[0].id;
      if FindEnemy(s.enemies, id).Some? && FindEnemy(s.enemies, id).value.health - cmds[0].damage > 0 {
        var k :| 0 <= k < |s.enemies| && s.enemies[k] == x;
        assert next.enemies[k] == x;
      }
      assert forall c :: c in cmds[1..] ==> c in cmds;
      RunAttacksSpare(next, cmds[1..], x);
    }
  }

  /** Space spares every enemy out of range when enemy ids are distinct. */
  lemma AttackSparesOutOfRange(s: GameState, x: Enemy)
    requires forall i, j :: 0 <= i < j < |s.enemies| ==> s.enemies[i].id != s.enemies[j].id
    requires x in s.enemies && Dist2(x.position, s.player.position) >= AttackRange2
    ensures x in Run(s, KeyCommands("Space", s)).enemies
  {
    var p := s.player.position;
    var damage := WeaponDamage(s.player.inventory);
    var cmds := KeyCommands("Space", s);
    forall c | c in cmds ensures c.AttackCmd? && c.id != x.id {
      AttackCommandsMembership(s.enemies, p, damage, c.id);
    }
    RunAttacksSpare(s, cmds, x);
  }
}
