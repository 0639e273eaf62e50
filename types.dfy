/** The data model of the game (src/types/game.ts): every entity is a value;
    a transition builds a new GameState from the previous one. */
module Types {

  datatype Option<T> = None | Some(value: T)

  /** Side length of the square world, in world units. */
  const WorldSize: real := 800.0

  datatype Position = Position(x: real, y: real)

  /** Squared Euclidean distance: `sqrt(d2) < r` is `d2 < r * r` for r >= 0. */
  function Dist2(a: Position, b: Position): real
  {
    (a.x - b.x) * (a.x - b.x) + (a.y - b.y) * (a.y - b.y)
  }

  datatype PlayerStats = PlayerStats(health: real, hunger: real, thirst: real, sanity: real)

  datatype ResourceKind = Wood | Stone | Food | Water | Cloth | Metal

  /** The generator's lookup table, indexed by `floor(random * 6)`. */
  const ResourceKinds: seq<ResourceKind> := [Wood, Stone, Food, Water, Cloth, Metal]

  /** The string a resource kind has in the inventory. */
  function KindName(k: ResourceKind): string
  {
    match k
    case Wood => "wood"
    case Stone => "stone"
    case Food => "food"
    case Water => "water"
    case Cloth => "cloth"
    case Metal => "metal"
  }

  datatype Resource = Resource(id: string, kind: ResourceKind, position: Position, amount: int)

  /** Icons are emoji looked up by type name; the model keeps only which
      table the lookup went to and with what key. */
  datatype Icon = ResourceIcon(key: string) | CraftedIcon(key: string)

  /** An inventory stack. Its kind is a free string: resource names and
      crafted item ids share the inventory. */
  datatype InventoryItem = InventoryItem(kind: string, amount: int, icon: Icon)

  datatype Requirement = Requirement(kind: string, amount: int)

  datatype Category = Tool | Weapon | Construction | Special

  datatype CraftableItem = CraftableItem(id: string, name: string, category: Category, requirements: seq<Requirement>)

  datatype BuildingKind = Shelter | Wall | Trap | Fire | Radio | Plane | Boat

  datatype Building = Building(id: string, kind: BuildingKind, position: Position, health: int)

  datatype EnemyKind = Cannibal | Mutant

  datatype EnemyState = Patrol | Watch | Chase | Attack | Retreat

  datatype Enemy = Enemy(
    id: string,
    kind: EnemyKind,
    position: Position,
    health: int,
    state: EnemyState,
    target: Option<Position>,
    lastSeenPlayer: Option<Position>)

  /** The four endings; the source's nullable GameEnding is Option<Ending>. */
  datatype Ending = StayFight | PlaneDeath | BoatEscape | RadioRescue

  datatype Phase = Menu | Playing | Paused | Ended

  datatype Progress = Progress(planeParts: nat, boatParts: nat, radioFixed: bool, enemiesKilled: nat)

  datatype Player = Player(position: Position, stats: PlayerStats, inventory: seq<InventoryItem>)

  datatype GameState = GameState(
    player: Player,
    resources: seq<Resource>,
    buildings: seq<Building>,
    enemies: seq<Enemy>,
    timeOfDay: real,
    dayCount: nat,
    isNight: bool,
    phase: Phase,
    ending: Option<Ending>,
    progress: Progress)

  /** The resource table has exactly the six kinds, each once, and their
      names are distinct. */
  lemma ResourceKindsComplete()
    ensures |ResourceKinds| == 6
    ensures forall k: ResourceKind :: k in ResourceKinds
    ensures forall i, j :: 0 <= i < j < 6 ==> ResourceKinds[i] != ResourceKinds[j]
    ensures forall a: ResourceKind, b: ResourceKind :: KindName(a) == KindName(b) ==> a == b
  {
    forall k: ResourceKind ensures k in ResourceKinds {
      match k
      case Wood => assert ResourceKinds[0] == k;
      case Stone => assert ResourceKinds[1] == k;
      case Food => assert ResourceKinds[2] == k;
      case Water => assert ResourceKinds[3] == k;
      case Cloth => assert ResourceKinds[4] == k;
      case Metal => assert ResourceKinds[5] == k;
    }
  }
}
