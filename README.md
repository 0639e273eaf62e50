# Island of Echoes — a verified model of the game core

This project models the rules of "Island of Echoes", a survival game played in the browser. The player walks a square island 800 units across. They collect wood, stone, metal, cloth, food and water, and craft tools, buildings and escape parts from them. They fight cannibals and mutants, and survive a day/night clock that drains hunger, thirst and sanity. The game ends in one of four endings: stay and fight, the plane, the boat or the radio.

The model has two parts:

- **The state reducer.** Every action — start, move, collect, craft, place, attack, trigger an ending, game over — is a pure function from the previous `GameState` to the next one.
- **The 100 ms tick.** It is written as a method whose local variables change step by step, as in the source, and is proved equal to the function `TickResult`.

The modules are:

| module | models |
|---|---|
| `Types` | the game's records (players, resources, enemies, buildings, progress) |
| `Decimal` | the number-to-string rendering behind generated ids and the HUD clock |
| `Stacks` | inventory stacks: lookup, merge-or-append, consume-and-drop-empty |
| `Commands` | the reducers |
| `WorldGen` | the world generators and `startGame` |
| `Simulation` | the tick |
| `Invariants` | the state invariant that every transition keeps |
| `InventoryPanel` | the crafting table and its gating |
| `EndingPanel` | ending availability and the trigger buttons |
| `GameController` | held keys, the movement loop, the craft and use-item handlers |
| `GameWorld` | the 2D view: camera, attack/collect key sweeps |
| `GameWorld3D` | the 3D view's keyboard controls and camera |
| `PlayerHud` | clock text, bar colours, danger pulse, save button |
| `River` | the river's path and its triangle-strip mesh |

These inputs become parameters:

- **Randomness.** Every `Math.random()` call becomes a draw: a real in [0, 1) passed in by the caller.
- **The clock.** `Date.now()` becomes a natural number `now`.
- **Enemy movement.** The normalised step of an enemy towards its target is an abstract function parameter.
- **Distances.** Every distance is compared squared: `sqrt(d2) < r` is `d2 < r*r`.

## Model

| member | source | states |
|---|---|---|
| Types.ResourceKindsComplete | src/hooks/useGameState.ts:10 | the generator's kind table holds exactly the six resource kinds, each once, and kind names are injective |
| Decimal.NatToString | src/hooks/useGameState.ts:14 | the decimal rendering used in ids is non-empty, all digits, one digit exactly below 10 |
| Decimal.ParseNatToString | src/hooks/useGameState.ts:14 | parsing the rendering of n gives back n (round trip) |
| Decimal.NatToStringInjective | src/hooks/useGameState.ts:14 | distinct numbers render differently, in both directions |
| Decimal.PrefixedIdsDistinct | src/hooks/useGameState.ts:14 | `prefix-n` ids are equal iff their numbers are |
| Decimal.PadStart | src/components/game/PlayerHUD.tsx:20 | `padStart` gives max(len, width) characters, the original string as suffix, pad characters in front |
| Decimal.ParseNatLeadingZero | src/components/game/PlayerHUD.tsx:20 | a leading '0' does not change the parsed value |
| Decimal.PadTwoDigits | src/components/game/PlayerHUD.tsx:20 | a number below 100 padded to 2 is two digits that parse back to it |
| Stacks.FindStack | src/hooks/useGameState.ts:105 | `find` by type returns a stack of that type iff one exists |
| Stacks.FindStackAt | src/hooks/useGameState.ts:127-128 | with unique kinds the stack found for kind k is the one holding k, and the amount is its amount |
| Stacks.AmountOfAbsent | src/hooks/useGameState.ts:128 | a kind without a stack has amount 0 |
| Stacks.AddToStackSpec | src/hooks/useGameState.ts:105-110 | merge-or-append keeps kinds unique, adds exactly `amount` to that kind and nothing to the others, grows the list only for a new kind, keeps amounts positive |
| Stacks.FindRequirement | src/hooks/useGameState.ts:135 | the requirement found for a kind exists iff one names it |
| Stacks.HasResourcesMeaning | src/hooks/useGameState.ts:126-129 | the `every`/`find` check holds iff every requirement is covered by some stack of its kind with enough units |
| Stacks.SubtractRequirements | src/hooks/useGameState.ts:134-139 | the mapped inventory keeps length and kinds, and lowers each stack by its requirement |
| Stacks.DropEmpty | src/hooks/useGameState.ts:140 | the `amount > 0` filter keeps exactly the positive stacks |
| Stacks.DropEmptyUnique | src/hooks/useGameState.ts:140 | the filter keeps kinds unique |
| Stacks.DropEmptyAmounts | src/hooks/useGameState.ts:140 | after the filter a kind's amount is its old amount if positive, else 0 |
| Stacks.ConsumeSpec | src/hooks/useGameState.ts:134-140 | consuming covered requirements keeps the inventory well formed and lowers every kind by exactly its requirement |
| Commands.Clamp | src/hooks/useGameState.ts:87-88 | the max/min clamp lies in [lo, hi] and is the identity inside it |
| Commands.MovePlayer | src/hooks/useGameState.ts:82-97 | outside `playing` nothing changes; otherwise only the position changes, by 5 × direction, clamped to [20, 780] |
| Commands.FindResource | src/hooks/useGameState.ts:102 | lookup by id succeeds iff a resource has the id |
| Commands.WithoutResource | src/hooks/useGameState.ts:114 | the filter removes exactly the resources with the id |
| Commands.WithoutResourceCount | src/hooks/useGameState.ts:114 | with unique ids collecting removes exactly one resource, or none for an unknown id |
| Commands.CollectResource | src/hooks/useGameState.ts:100-121 | an unknown id changes nothing; otherwise the resource leaves the world and its amount is added to its kind, nothing else changes |
| Commands.CraftProgress | src/hooks/useGameState.ts:153-156 | crafting advances plane parts, boat parts or the radio flag by itemId and nothing else |
| Commands.CraftItem | src/hooks/useGameState.ts:123-163 | all or nothing: without materials nothing changes; otherwise every kind drops by its requirement, the product gains 1, the progress advances |
| Commands.PlaceBuilding | src/hooks/useGameState.ts:166-180 | exactly one building with id `building-now`, health 100, at the player, is appended; nothing else changes |
| Commands.FindEnemy | src/hooks/useGameState.ts:184 | lookup by id succeeds iff an enemy has the id |
| Commands.WithoutEnemy | src/hooks/useGameState.ts:192 | the filter removes exactly the enemies with the id |
| Commands.AttackEnemy | src/hooks/useGameState.ts:182-214 | unknown id: no change; a kill removes the enemy, counts +1 and costs 5 sanity floored at 0; otherwise only that enemy's health drops and it starts chasing |
| Commands.TriggerEnding | src/hooks/useGameState.ts:216-222 | the phase becomes `ending` with the given ending; nothing else changes |
| Commands.GameOverCheck | src/hooks/useGameState.ts:371-375 | health at or below 0 while playing triggers the plane ending; afterwards that condition never holds |
| WorldGen.RandomPosition | src/hooks/useGameState.ts:16-19 | draws in [0,1) give a point inside the world |
| WorldGen.RandomKind | src/hooks/useGameState.ts:15 | the unit interval is cut into six bands of width 1/6: kind i is drawn iff u lies in [i/6, (i+1)/6) |
| WorldGen.RandomKindReachable | src/hooks/useGameState.ts:15 | every one of the six kinds can be generated |
| WorldGen.RandomAmount | src/hooks/useGameState.ts:20 | amounts are 1 to 3 |
| WorldGen.NewResource | src/hooks/useGameState.ts:13-21 | a generated resource has its id, 1 to 3 units and an in-world position |
| WorldGen.NewEnemy | src/hooks/useGameState.ts:30-43 | a generated enemy is a mutant iff the draw exceeds 0.7, has 100 health, patrols toward an in-world target, has not seen the player |
| WorldGen.GenerateResources | src/hooks/useGameState.ts:8-24 | 30 resources, the i-th built from the i-th draw with id `resource-i` |
| WorldGen.GenerateEnemies | src/hooks/useGameState.ts:26-46 | 5 enemies, the i-th built from the i-th draw with id `enemy-i` |
| WorldGen.StartGame | src/hooks/useGameState.ts:48-80 | the initial state (08:00, day 1, full stats, empty inventory, no progress) with a fresh world, playing |
| WorldGen.GeneratedIdsDistinct | src/hooks/useGameState.ts:14 | resource ids are pairwise distinct, enemy ids too, and no resource id equals an enemy id |
| Simulation.AdvanceClock | src/hooks/useGameState.ts:231-236 | +0.05 h, wrapping to exactly 0 with the next day at 24 h; a clock in [0,24) stays there |
| Simulation.DayLength | src/hooks/useGameState.ts:231-236 | from midnight the clock reads k × 0.05 for k < 480 and a day lasts exactly 480 ticks |
| Simulation.ClockFrom | src/hooks/useGameState.ts:231-236 | within a day the clock after k ticks from midnight is k × 0.05 |
| Simulation.ClockAfterSplit | src/hooks/useGameState.ts:231-236 | m + n ticks equal m ticks followed by n ticks |
| Simulation.DecayStats | src/hooks/useGameState.ts:240-251 | hunger −0.1 and thirst −0.15, floored at 0; sanity +0.05 by day (capped at 100) or −0.1 at night (floored at 0); starvation −0.5 health only when hunger or thirst is empty; stats stay in [0,100] |
| Simulation.EnemyAi | src/hooks/useGameState.ts:254-301 | night within 150: chase; within 100: chase iff the coin exceeds 0.3, else watch; within 200: watch; farther: patrol, keeping the target except when there is none or on a 1% draw, which picks a new random one; chasing always targets the player; watchers and enemies within 5 of their target stay put, the others take one step toward it |
| Simulation.MoveEnemies | src/hooks/useGameState.ts:254 | the AI map keeps the number of enemies |
| Simulation.ContactDamage | src/hooks/useGameState.ts:303-313 | the summed damage lies in [0, 2n], is 0 iff no chasing enemy is closer than 30, and is at least n when all touch |
| Simulation.ApplyContact | src/hooks/useGameState.ts:315-317 | only positive damage is applied, floored at 0 |
| Simulation.SpawnResources | src/hooks/useGameState.ts:319-332 | either no change, or one `resource-now` appended while fewer than 40 exist |
| Simulation.SpawnEnemies | src/hooks/useGameState.ts:334-350 | either no change, or, at night with fewer than 15 before the tick, one `enemy-now` appended |
| Simulation.MoveEnemiesLoop | src/hooks/useGameState.ts:254-301 | the loop over the enemies computes the AI map |
| Simulation.ContactDamageLoop | src/hooks/useGameState.ts:304-313 | the accumulating loop computes the summed contact damage |
| Simulation.Tick | src/hooks/useGameState.ts:229-363 | the step-by-step tick body yields exactly `TickResult` |
| Simulation.TickClock | src/hooks/useGameState.ts:231-237 | a tick advances the clock, wraps the day and sets `isNight` from the new time |
| Simulation.TickHealth | src/hooks/useGameState.ts:248-251 | health after a tick is starvation-adjusted health minus contact damage, floored at 0 |
| Simulation.TickEnemies | src/hooks/useGameState.ts:254-301 | the i-th enemy after a tick is the AI step of the i-th enemy before it, decided against the previous player position |
| Simulation.TickPopulation | src/hooks/useGameState.ts:319-350 | at most one resource and one enemy appear per tick, and none disappears |
| Simulation.DaytimeDecay | src/hooks/useGameState.ts:240-251 | by day sanity recovers by 0.05 up to 100 while hunger and thirst drain |
| Invariants.ValidInitial | src/hooks/useGameState.ts:48-68 | the initial state satisfies the invariant |
| Invariants.ValidStart | src/hooks/useGameState.ts:73-80 | a started game with generated resources and enemies satisfies the invariant |
| Invariants.ValidMove | src/hooks/useGameState.ts:82-97 | moving keeps the invariant (player inside the margins) |
| Invariants.ValidCollect | src/hooks/useGameState.ts:100-121 | collecting keeps the invariant (well-formed inventory, resources of 1 to 3) |
| Invariants.ValidCraft | src/hooks/useGameState.ts:123-163 | crafting keeps the invariant |
| Invariants.ValidPlace | src/hooks/useGameState.ts:166-180 | placing keeps the invariant |
| Invariants.ValidAttack | src/hooks/useGameState.ts:182-214 | an attack with positive damage keeps every enemy alive and within full health |
| Invariants.ValidTrigger | src/hooks/useGameState.ts:216-222 | triggering an ending keeps the invariant |
| Invariants.ValidGameOver | src/hooks/useGameState.ts:371-375 | the game-over check keeps the invariant |
| Invariants.ValidTick | src/hooks/useGameState.ts:229-363 | a tick keeps stats in [0,100], the clock in [0,24) and every enemy valid |
| InventoryPanel.CraftTable | src/components/game/Inventory.tsx:11-21 | nine recipes with distinct ids, each needing positive amounts of resource kinds |
| InventoryPanel.CanCraft | src/components/game/Inventory.tsx:26-31 | the panel's check is the reducer's check, and with unique kinds it holds iff every requirement is covered |
| InventoryPanel.GetRequirementStatus | src/components/game/Inventory.tsx:33-37 | `has` is the stack's amount or 0, `needed` is the requirement, `satisfied` iff has >= needed |
| InventoryPanel.CanCraftIffAllSatisfied | src/components/game/Inventory.tsx:26-37 | a recipe is craftable iff every requirement's status is satisfied |
| InventoryPanel.OnCraftClick | src/components/game/Inventory.tsx:85 | a click calls onCraft iff the recipe is craftable, with its id and requirements |
| InventoryPanel.OnStackClick | src/components/game/Inventory.tsx:68-71 | clicking a stack uses food or water and nothing else |
| InventoryPanel.GatedCraftSucceeds | src/components/game/Inventory.tsx:85 | a craft issued from the panel always consumes its materials and yields the product |
| EndingPanel.EndingTable | src/components/game/EndingPanel.tsx:14-47 | four distinct endings, every ending listed |
| EndingPanel.AvailableMonotone | src/components/game/EndingPanel.tsx:21-45 | more progress never makes an ending unavailable |
| EndingPanel.CraftKeepsAvailable | src/components/game/EndingPanel.tsx:21-45 | crafting never withdraws an available ending |
| EndingPanel.StayFightThreshold | src/components/game/EndingPanel.tsx:21 | 19 kills do not unlock staying to fight; 20 do |
| EndingPanel.ThreePlanePartsUnlock | src/components/game/EndingPanel.tsx:29 | three plane-part crafts from no progress unlock the plane ending, two do not |
| EndingPanel.ButtonsOf | src/components/game/EndingPanel.tsx:55-56 | the rendered buttons are exactly the listed endings that are available |
| EndingPanel.ButtonsDistinct | src/components/game/EndingPanel.tsx:55-56 | no button appears twice |
| EndingPanel.TriggerButtons | src/components/game/EndingPanel.tsx:73-82 | a button is shown for an ending iff it is available, each once |
| EndingPanel.ClickEnding | src/components/game/EndingPanel.tsx:73-82 | clicking entry i triggers it iff it is available |
| EndingPanel.ClickEndsGame | src/components/game/EndingPanel.tsx:77 | a click ends the game with an available ending and leaves the progress as it was |
| GameController.KeyDown | src/components/game/Game.tsx:29-31 | keydown adds exactly the code to the held set |
| GameController.KeyUp | src/components/game/Game.tsx:33-39 | keyup removes exactly the code |
| GameController.PressRelease | src/components/game/Game.tsx:29-39 | pressing and releasing a key not held restores the set |
| GameController.Axis | src/components/game/Game.tsx:58-61 | each axis is −1, 0 or 1, the positive key wins when both are held |
| GameController.MovementDirection | src/components/game/Game.tsx:55-61 | the four successive ifs compute the two axes |
| GameController.MovementStep | src/components/game/Game.tsx:52-65 | while playing with a non-zero direction movePlayer is called with it; otherwise nothing happens |
| GameController.DownWinsOverUp | src/components/game/Game.tsx:58-59 | with W and S held the player moves down by 5 |
| GameController.AutoPlaced | src/components/game/Game.tsx:112 | exactly shelter, fire and trap are auto-placed, as the matching building |
| GameController.HandleCraft | src/components/game/Game.tsx:91-119 | the result is craftItem's state, and for shelter, fire and trap that state with exactly one building appended at the player; nothing else differs |
| GameController.PlacedWithoutMaterials | src/components/game/Game.tsx:112-118 | a fire is placed even when the craft failed, with the inventory untouched |
| GameController.GatedPlacementPaid | src/components/game/Game.tsx:91-119 | through the panel, an auto-placed building always comes with its materials taken |
| GameController.HandleUseItem | src/components/game/Game.tsx:72-88 | the state never changes; a toast shows iff a positive food or water stack exists; the computed inventory has one unit fewer |
| GameWorld.CameraOffset | src/components/game/GameWorld.tsx:16-19 | the offset stays inside the world and centres the player away from the edges |
| GameWorld.PlayerOnCanvas | src/components/game/GameWorld.tsx:16-19 | an in-world player is drawn inside the 600×500 canvas |
| GameWorld.WeaponDamage | src/components/game/GameWorld.tsx:261-262 | damage is 30 iff an axe or spear stack exists, else 10 |
| GameWorld.CraftedAxeArms | src/components/game/GameWorld.tsx:261-262 | after crafting an axe the player hits for 30 |
| GameWorld.CraftedOneMore | src/hooks/useGameState.ts:143-150 | a successful craft whose product is not among its requirements leaves one more unit of the product |
| GameWorld.AttackCommandsMembership | src/components/game/GameWorld.tsx:254-265 | an attack is issued for an id iff some enemy with it is closer than 50 |
| GameWorld.CollectCommandsMembership | src/components/game/GameWorld.tsx:268-279 | a collect is issued for an id iff some resource with it is closer than 40 |
| GameWorld.HandleKeyDown | src/components/game/GameWorld.tsx:251-281 | the two forEach sweeps issue exactly the modelled commands |
| GameWorld.RunCollects | src/hooks/useGameState.ts:100-121 | a run of collects removes exactly the resources named |
| GameWorld.CollectSweep | src/components/game/GameWorld.tsx:268-279 | pressing E removes every resource in range, not only the nearest, and keeps the others |
| GameWorld.RunAttacksKills | src/components/game/GameWorld.tsx:254-265 | a sweep of n attacks kills at most n enemies and leaves resources and inventory alone |
| GameWorld.RunAttacksSpare | src/hooks/useGameState.ts:182-214 | an enemy not named by any attack survives the run |
| GameWorld.AttackSparesOutOfRange | src/components/game/GameWorld.tsx:254-265 | Space never removes an enemy 50 or more away |
| GameWorld3D.KeyboardControls | src/components/game/GameWorld3D.tsx:53-83 | the 3D key handler issues the same commands as the 2D one |
| GameWorld3D.GroundPoint | src/components/game/GameWorld3D.tsx:29-30 | world (x, y) maps to scene (x − ws/2, 0, y − ws/2) |
| GameWorld3D.CameraTarget | src/components/game/GameWorld3D.tsx:29-32 | the camera is 15 high, and the point 15 in front of it on the ground maps back to the player's world position |
| GameWorld3D.CameraFollows | src/components/game/GameWorld3D.tsx:29-32 | the camera follows the player rigidly: a world move by (dx, dy) moves it by (dx, 0, dy), at a fixed offset (0, 15, 15) from the ground point |
| GameWorld3D.GroundPointShift | src/components/game/GameWorld3D.tsx:29-36 | the conversion is invertible, keeps distances, sends the centre to the origin and the world to [−ws/2, ws/2] |
| PlayerHud.JsFraction | src/components/game/PlayerHUD.tsx:19 | `% 1` is the fractional part for non-negative times, in (−1, 0] for negative ones |
| PlayerHud.FormatTime | src/components/game/PlayerHUD.tsx:17-21 | the clock text has at least five characters |
| PlayerHud.FormatTimeOfDay | src/components/game/PlayerHUD.tsx:17-21 | for times in [0,24) the text is HH:MM with hours 00–23 and minutes 00–59 that parse back, in the minute containing t |
| PlayerHud.ClockParts | src/components/game/PlayerHUD.tsx:18-19 | for t in [0,24) the hours are 0–23, the minutes 0–59, and t lies in the minute shown |
| PlayerHud.ClockText | src/components/game/PlayerHUD.tsx:20 | two numbers below 100 render as five characters HH:MM whose halves parse back to them |
| PlayerHud.FormatTimeEvening | src/components/game/PlayerHUD.tsx:17-21 | 20.5 reads "20:30" |
| PlayerHud.FormatTimeMorning | src/components/game/PlayerHUD.tsx:17-21 | 8.0, the starting time, reads "08:00" |
| PlayerHud.GetStatColor | src/components/game/PlayerHUD.tsx:23-27 | at or below 20 the bar is the danger colour, above it the stat's own colour |
| PlayerHud.DangerColorExactly | src/components/game/PlayerHUD.tsx:23-27 | the bar is red iff the value is at most 20 |
| PlayerHud.NumberClass | src/components/game/PlayerHUD.tsx:48 | the number pulses iff the value is at most its threshold (30 for sanity, 20 otherwise) |
| PlayerHud.PulseCoversDanger | src/components/game/PlayerHUD.tsx:90 | every red bar pulses; only sanity pulses between 20 and 30 |
| PlayerHud.SaveButton.constructor | src/components/game/PlayerHUD.tsx:15 | the save status starts idle |
| PlayerHud.SaveButton.HandleSave | src/components/game/PlayerHUD.tsx:29-38 | a save ends saved on success and idle on failure, never leaving the button disabled |
| PlayerHud.SaveButton.SavedTimeout | src/components/game/PlayerHUD.tsx:34 | the timeout returns the status to idle |
| PlayerHud.SaveButton.HandleSaveUnwired | src/components/game/Game.tsx:163-168 | with no save callback the handler throws after 'saving' and the button stays disabled |
| PlayerHud.SaveCycle | src/components/game/PlayerHUD.tsx:29-38 | from any status, a successful save shows saved, then idle, and leaves the button enabled |
| River.RiverPath | src/components/game/3d/River.tsx:14-28 | 51 points, the i-th at x = (i/50 − 0.5) × 0.8 × ws with the given z and width |
| River.PathXIncreasing | src/components/game/3d/River.tsx:21 | the path runs strictly left to right from −0.4 ws to 0.4 ws |
| River.Positions | src/components/game/3d/River.tsx:41-52 | six coordinates per point |
| River.Uvs | src/components/game/3d/River.tsx:55-56 | four uv coordinates per point |
| River.PushVertices | src/components/game/3d/River.tsx:41-52 | the two pushes append the left and right vertices |
| River.PushUvs | src/components/game/3d/River.tsx:55-56 | the two pushes append (0, i/n) and (1, i/n) |
| River.PushSegment | src/components/game/3d/River.tsx:59-63 | the two pushes append the segment's two triangles |
| River.BuildGeometry | src/components/game/3d/River.tsx:36-64 | the forEach builds exactly the position, uv and index buffers |
| River.TrianglesLayout | src/components/game/3d/River.tsx:59-63 | 6 indices per segment, each below 2m + 2, following the strip pattern |
| River.IndexBufferFits | src/components/game/3d/River.tsx:69 | n points give 6(n−1) indices below 2n, so they fit a Uint16Array up to 32768 points |
| River.PositionsLayout | src/components/game/3d/River.tsx:41-52 | vertex 2i and 2i+1 of the buffer are point i's left and right vertices, at height −0.1 |
| River.LastPointPinched | src/components/game/3d/River.tsx:37-39 | the last point's zero direction makes its left and right vertices coincide |
| River.UvsLayout | src/components/game/3d/River.tsx:55-56 | u is 0 and 1, v = i/n lies in [0, 1) |
| River.EveryNthCount | src/components/game/3d/River.tsx:138 | the `i % k === 0` filter keeps ceil(n / k) points |
| River.RocksAndFoam | src/components/game/3d/River.tsx:138-158 | 51 points give 11 rocks and 7 foam patches |

## Left out

- Rendering: canvas drawing, three.js meshes, lights, animation, the blood vignette, the night overlay, `Math.round` on the HUD numbers, and the camera's lerp and lookAt (src/components/game/GameWorld3D.tsx:35-36).
- Audio, menus, toasts' text, the ending screen and the error boundary: presentation only.
- Timers: the 100 ms tick, the 16 ms movement loop and the 2000 ms save timeout are single steps called by the environment. No model of interleavings or of effects being re-armed.
- Simulation.Tick: applies whenever it is called. The `gamePhase === 'playing'` gate sits in the effect that arms the interval, outside the reducer.
- Floating point: every number is an exact real or integer. The AI's normalised step and the river's `Vector2.normalize` are function parameters, because `sqrt` is not modelled. The sine terms of the river path are parameters too (`zAt`, `widthAt`).
- Probabilities: the chance thresholds (0.01, 0.005, 0.7, 0.5) decide branches on the draws. No statement about frequencies is made.
- Emoji icon tables: an icon only records which table it came from.
- Persistence: the save callback itself (local storage) is not part of this model.
- Invariants.ValidAttack: requires positive damage. The source passes only 10 or 30, and a negative damage would heal an enemy past 100.
- Simulation.EnemyAi: takes one AI draw per enemy and requires as many draws as enemies.
- GameWorld.CraftedAxeArms: requires that the axe is not among its own requirements, which holds for every recipe of the crafting table.
- GameWorld.CollectSweep: the source's comments say "nearest", but the code acts on every target in range. The model follows the code.
- River.UvsLayout: v is i / length, so it never reaches 1. This is stated as in the code.
- GameController.HandleUseItem: the new inventory it computes is discarded, as in the source; food and water restore nothing.
- Invariants.Valid: does not include uniqueness of resource and enemy ids. Ticks spawn `resource-<now>` and `enemy-<now>`, and `now` is a free parameter here; uniqueness would need Date.now to be fresh and at least 30, which is not modelled. GameWorld.CollectSweep and GameWorld.AttackSparesOutOfRange require unique ids instead.
- Decimal.NatToString: matches JavaScript's rendering only below 1e21, where it switches to exponent form; clock readings and indices are far below that.

## Findings

| source | as written | input that shows it | evidently intended | confidence | as-written member | corrected member |
|---|---|---|---|---|---|---|
| src/components/game/Game.tsx:163-168 | the HUD is rendered without `onSaveGame`, so `handleSave` (src/components/game/PlayerHUD.tsx:29-38) calls `undefined` after setting 'saving' | one click on the save button | the save callback is wired, and the status ends 'saved' or 'idle' | medium, not executed | PlayerHud.SaveButton.HandleSaveUnwired | PlayerHud.SaveButton.HandleSave |
