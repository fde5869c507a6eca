# Food-Game core in Dafny

This project models the game-logic core of Food-Game, a 2D brawler built on GXPEngine. It covers three parts:

- **Entities** (`entity.dfy`, module `EntityModel`). Players and enemies have health and take damage. Each hit opens a window of invincibility, which closes only when strictly more than its duration has passed. A lethal hit schedules destruction for the end of the frame. Each frame the entity:
  - picks its Stand/Walk/Jump state and animation cycle from its velocity;
  - when it has velocity, asks the engine to move along Y and then along X;
  - faces by the sign of its horizontal velocity (the entity, its model and its weapon alike);
  - uses up that velocity.
- **Stages** (`stage.dfy`, module `StageModel`). A stage is built from a parsed tile map and is refused when the map has no layer. Loading appends these children, in order:
  - a background;
  - one object per spawning cell of the first layer, column by column;
  - three border barriers.

  Each frame the stage runs a draw-order sort meant to order the children by their vertical position. As written it does not always order them (see "## Findings"); a corrected sort is modelled beside it. The stage also lists its entity children and, among those, its enemies.
- **Abilities** (`abilities.dfy`, module `Abilities`). There are six ability variants, each a fixed configuration, plus the actions of the two ranged abilities. The meatball shooter fires in the direction its owner faces. The seed shooter fires towards the player.

`entity.dfy` and `stage.dfy` are imperative, as their sources are. `Entity` and `Stage` are classes whose methods update their fields. The loading and sorting passes are `while` loops, proved against pure specification functions such as `LoadedBodies`, `GridSpawns`, `EntitiesOf` and `SnapshotSort`. Lemmas prove what the game relies on about those functions. The ability catalogue is the pure function `ConfigOf`. The two ability actions are methods that create a projectile and hand it to the stage.

Inputs from outside the model are parameters:

- `now` and `deltaTime` stand for `Time.now` and `Time.deltaTime`.
- The map arrives already parsed, as a `TileMap` value.
- The owner's and the player's positions are passed to the ability actions.
- A pizza bite's two random draws are arguments of its `AbilityKind` value.

The model rests on these engine behaviours (GXPEngine itself is not part of this model):

- `AddChild` appends a child.
- `SetChildIndex(c, i)` removes the first occurrence of `c` and inserts it at index `i`.
- `GetChildren()` returns a copy of the child list.
- `Utils.Random(min, max)` returns a value with `min <= value < max`.
- `LateDestroy` only marks the object for removal.

## Model

| member | source | states |
|---|---|---|
| `EntityModel.CycleTable` | GXPEngine/Entity.cs:231-245 | Stand selects frames (5,3), Walk selects (1,3) and Jump selects (4,1). No two states share a cycle. |
| `EntityModel.StateFollowsVelocity` | GXPEngine/Entity.cs:214-226 | After a state update the entity stands exactly when its velocity is zero, and walks exactly when it is not. Zero velocity overrides Jump, and the update never chooses Jump. |
| `EntityModel.CycleFollowsState` | GXPEngine/Entity.cs:214-226 | The cycle is re-selected to match the new state when the entity stands or starts walking. While it keeps walking, the old cycle stays. |
| `EntityModel.CycleStaysInStep` | GXPEngine/Entity.cs:214-245 | Once the cycle matches the state, it keeps matching over any run of frames. |
| `EntityModel.FreshEntityKeepsSpriteCycleWhileMoving` | GXPEngine/Entity.cs:204-226 | A new entity starts in Walk, the C# default, with the sprite's own cycle. While it keeps moving, the Walk cycle is never selected. |
| `EntityModel.HitWhileDamageable` | GXPEngine/Entity.cs:91-109 | A hit on a damageable entity lowers its health by exactly the amount, even when the hit is lethal. The entity becomes invincible with `damageTime = now`. It is scheduled for destruction iff its health drops to 0 or below, or it already was scheduled. |
| `EntityModel.HitWhileInvincible` | GXPEngine/Entity.cs:91-109 | A hit on an invincible entity changes nothing. |
| `EntityModel.HealIsExact` | GXPEngine/Entity.cs:114-117 | AddHealth raises health by exactly the amount, with no cap. It leaves damageability and the destruction mark alone. |
| `EntityModel.WindowClosesStrictly` | GXPEngine/Entity.cs:152-157 | After a frame the entity is damageable iff it already was, or `now - damageTime > invincibilityDuration`. At equality it is still invincible. Health is untouched. |
| `EntityModel.InvincibleThroughWindow` | GXPEngine/Entity.cs:91-157 | During a series of hits, heals and frames that all fall inside the window, an invincible entity changes only by the health added. |
| `EntityModel.HitOpensWindow` | GXPEngine/Entity.cs:91-157 | After a hit on a damageable entity, followed by events inside the window, health is the old health minus the damage plus what was added. The entity stays invincible, and the hit time is kept. |
| `EntityModel.LethalHitIsFinal` | GXPEngine/Entity.cs:93-157 | After a lethal hit and the frame at the same moment, the entity is scheduled for destruction, is still invincible, and a further hit does not change its health. |
| `EntityModel.Entity.constructor` | GXPEngine/Entity.cs:49-61 | A new entity is damageable, not scheduled for destruction, not mirrored, has zero velocity, is in state Walk and has no weapon. |
| `EntityModel.Entity.SetVelocity` | GXPEngine/Entity.cs:27 | The velocity becomes the given one. This stands for the writes that player input and enemy behaviour make to the protected `velocity` field before the entity's frame. |
| `EntityModel.Entity.SetWeapon` | GXPEngine/Entity.cs:66-70 | The entity's weapon is the new one. |
| `EntityModel.Entity.Damage` | GXPEngine/Entity.cs:91-109 | The new vitals (health, damageable, damage time, destruction mark) are `Hit` of the old ones. |
| `EntityModel.Entity.AddHealth` | GXPEngine/Entity.cs:114-117 | The new vitals are `Healed` of the old ones: only health changes, by the amount. |
| `EntityModel.Entity.Kill` | GXPEngine/Entity.cs:122-125 | The entity is marked for deferred destruction. |
| `EntityModel.Entity.UpdateAnimation` | GXPEngine/Entity.cs:231-245 | The selected cycle is the current state's cycle. |
| `EntityModel.Entity.UpdateState` | GXPEngine/Entity.cs:214-226 | The state and cycle become `NextState` and `NextCycle` of the old state, the old cycle and the velocity. |
| `EntityModel.Entity.UpdateMovement` | GXPEngine/Entity.cs:179-199 | Appends a Y move request and then an X move request. Each is velocity component times frame time times speed. The entity, its model and its weapon (if any) are mirrored iff the old horizontal velocity was negative. Velocity ends at zero. |
| `EntityModel.Entity.Update` | GXPEngine/Entity.cs:131-163 | State and cycle follow the old velocity. With non-zero velocity, the movement step runs. With zero velocity, there are no move requests and no change of facing. Velocity ends at zero. Vitals are `Ticked`: damageable again only once strictly more than the window has passed. Health, damage, speed and weapon are unchanged. |
| `StageModel.CellSpawnTable` | GXPEngine/StageManagement/Stage.cs:65-109 | A cell spawns one object if its code is 1 to 6 and nothing otherwise. Codes 1, 2, 5 and 6 spawn at the cell's pixel position. Code 3 spawns a candy cane offset by (-128,-128). Code 4 spawns a lollipop offset by (-128,-32). |
| `StageModel.GridSpawnCount` | GXPEngine/StageManagement/Stage.cs:62-110 | The grid pass adds exactly as many objects as the layer has cells with codes 1 to 6. |
| `StageModel.GridSpawnsExactly` | GXPEngine/StageManagement/Stage.cs:62-110 | An object is among the grid spawns iff some cell (col, row) of the layer spawns it at (col·tileSize, row·tileSize). |
| `StageModel.LoadedCount` | GXPEngine/StageManagement/Stage.cs:51-132 | Loading adds 1 + (the number of cells with codes 1 to 6) + 3 children. |
| `StageModel.LastPlayerIsLast` | GXPEngine/StageManagement/Stage.cs:78-81 | The player reference is a Player child with no Player child after it. If it is None, there is no Player child. |
| `StageModel.EntitiesExactly` | GXPEngine/StageManagement/Stage.cs:157-168 | The entity list holds exactly the children that are entities: players and zombies. It is a subsequence of the child list, so child order is kept. |
| `StageModel.EnemiesExactly` | GXPEngine/StageManagement/Stage.cs:171-183 | The enemy list holds exactly the zombie children, as a subsequence of the child list. |
| `StageModel.EnemiesOfEntities` | GXPEngine/StageManagement/Stage.cs:171-183 | Filtering the entity list for enemies gives the same list as filtering all children for enemies. |
| `StageModel.SetChildIndex` | GXPEngine/StageManagement/Stage.cs:149 | Moving a child keeps the list's length and its multiset of children. |
| `StageModel.SnapshotSort` | GXPEngine/StageManagement/Stage.cs:137-154 | The sort as written produces a permutation of the children. |
| `StageModel.SnapshotSortKeepsSorted` | GXPEngine/StageManagement/Stage.cs:137-154 | On children already ordered by y, the sort as written leaves the list as it is. |
| `StageModel.SnapshotSortMisorders` | GXPEngine/StageManagement/Stage.cs:137-154 | Children at y = 5, 3, 1 end in the order y = 1, 5, 3, which is not ordered by y. |
| `StageModel.Stage.constructor` | GXPEngine/StageManagement/Stage.cs:24-42 | A stage built from a map with a layer has tile size = tile width. Its pixel size is map size times tile size. Its children are the loaded bodies, numbered in creation order, and the player reference is the last player. |
| `StageModel.Stage.Open` | GXPEngine/StageManagement/Stage.cs:24-42 | Opening fails iff the map has no layer, with the message naming the stage file. Otherwise the result is a loaded stage with the loaded bodies and the last player. |
| `StageModel.Stage.SpawnCell` | GXPEngine/StageManagement/Stage.cs:68-109 | Appends what the cell's code spawns. The player reference stays the last Player child. |
| `StageModel.Stage.LoadStage` | GXPEngine/StageManagement/Stage.cs:51-132 | Sets `stageWidth = Width·TileWidth` and `stageHeight = Height·TileHeight`. The children become background, then grid spawns in column-major order, then the left, ground and right barriers. The player reference is the last spawned player, and no child appears twice. |
| `StageModel.Stage.LoadGrid` | GXPEngine/StageManagement/Stage.cs:62-110 | The nested column/row loop appends exactly `GridSpawns` of the layer. |
| `StageModel.Stage.LoadColumn` | GXPEngine/StageManagement/Stage.cs:63-109 | The row loop over one column appends exactly that column's `ColumnSpawns`, top to bottom. |
| `StageModel.Stage.AddBarrier` | GXPEngine/StageManagement/Stage.cs:112-131 | Appends the barrier without disturbing the player reference. |
| `StageModel.Stage.SortDisplayHierarchy` | GXPEngine/StageManagement/Stage.cs:137-154 | The loops, with indices into the copy and moves in the live list, produce `SnapshotSort` of the children, a permutation of them. On children already ordered by y they make no moves. |
| `StageModel.Stage.SnapshotPass` | GXPEngine/StageManagement/Stage.cs:143-152 | The inner loop of the sort as written compares copy index i against every earlier index and leaves `SnapshotInner` of the child list. On an already ordered list it makes no moves. |
| `StageModel.Stage.SortDisplayHierarchyLive` | GXPEngine/StageManagement/Stage.cs:137-154 | The corrected sort: the same loops, reading the live list, leave the children a permutation of the old ones, ordered by y, with no repeats. On children already ordered by y they make no moves. |
| `StageModel.Stage.Update` | GXPEngine/StageManagement/Stage.cs:43-46 | Each frame runs the sort as written: the children become `SnapshotSort` of the old ones, a permutation of them, with no repeats. Children already ordered by y stay as they are. |
| `StageModel.Stage.GetEntities` | GXPEngine/StageManagement/Stage.cs:157-168 | The loop returns `EntitiesOf(children)`. |
| `StageModel.Stage.GetEnemies` | GXPEngine/StageManagement/Stage.cs:171-183 | The loop over the entity list returns `EnemiesOf(children)`. |
| `Abilities.ConfigOf` | GXPEngine/Abilities/Abilities.cs:8-122 | Every variant's damage is 1 or 2, and its cool-down is positive. Exactly the ranged variants have a speed, and they set no attack duration and no alpha. Every variant except the meatball shooter has a sound. Every melee attack lasts no longer than its cool-down, whatever a pizza bite drew. |
| `Abilities.BurgerPunchSettings` | GXPEngine/Abilities/Abilities.cs:13-17 | Burger punch: damage 2, attack 300, cool-down 1500. |
| `Abilities.PastaWhipSettings` | GXPEngine/Abilities/Abilities.cs:28-32 | Pasta whip: damage 1, attack 300, cool-down 1000. |
| `Abilities.BurgerExplosionSettings` | GXPEngine/Abilities/Abilities.cs:60-65 | Burger explosion: damage 2, attack 500, cool-down 500. |
| `Abilities.ShooterSettings` | GXPEngine/Abilities/Abilities.cs:76-120 | Seed shooter: damage 1, speed 0.7, cool-down 500. Meatball shooter: damage 2, speed 1.0, cool-down 500. |
| `Abilities.PizzaBiteSettings` | GXPEngine/Abilities/Abilities.cs:40-51 | A pizza bite does damage 1. Its attack and cool-down are the values drawn once from [300,1000) and [1000,2500). For any sprite size, its hitbox x range and y equal the burger punch's. |
| `Abilities.Facing` | GXPEngine/Abilities/Abilities.cs:127 | The meatball's direction has unit length along x and points left iff the owner is mirrored. |
| `Abilities.MeatballShooterAction` | GXPEngine/Abilities/Abilities.cs:124-133 | Creates one fresh meatball and hands it to the stage. It heads the way the owner faces and carries the shooter's speed and damage and the owner. It ends 120 above the owner. The stage holds the same object, so it sees that final position. |
| `Abilities.SeedShooterAction` | GXPEngine/Abilities/Abilities.cs:85-108 | Creates one fresh seed, placed 50 above the owner and then handed to the stage. It heads along the offset from the owner to the player and carries the shooter's speed and damage and the owner. |

## Left out

- Floating point: health, velocity, speeds and hitbox factors are exact reals. 32-bit float rounding and `Vector2.Magnitude` underflow are not modelled. A velocity counts as zero only when both components are 0.
- Integer width: `Time.now` and other `int` values are unbounded, so the wrap-around of a 32-bit clock is not modelled.
- EntityModel.Entity.UpdateMovement: records the two move requests instead of applying them. Collision resolution by `MoveUntilCollision` is the engine's, so the entity's position is not modelled.
- EntityModel.Entity.Update: `model.Animate`, the debug canvas, `SetColor` and the random alpha flicker while invincible are rendering effects and are not modelled.
- EntityModel.Entity.Damage: the colour change and the console line are left out.
- `SetBodyHitbox`, the model and canvas sprites and the entity's `tag` serve collision and rendering only.
- `SetAnimationDelay` (Entity.cs:171-174) is not modelled. It selects the cycle (1, frame count) on the model sprite, so a subclass constructor that calls it leaves the cycle different from the sprite's own.
- EntityModel.FreshEntityKeepsSpriteCycleWhileMoving: holds for the base entity constructor only. It assumes no subclass constructor calls `SetAnimationDelay` or otherwise selects a cycle.
- EntityModel.Entity.SetWeapon: the weapon is not added as a display child, and `SetWeapon(null)` is not modelled.
- StageModel.Stage.Open: `myGame.AddChild(this)`, which runs before the layer check and so also for a refused stage, is not modelled. Reading and parsing the `.tmx` file is outside the model: the map is an input.
- StageModel.Stage.LoadStage: `myGame.player` is a game-wide reference, while the model keeps it in the stage's `player` field and starts it at None. When no cell has code 2, the source leaves the game's reference at whatever it held before; the model's None stands for that unchanged value.
- StageModel.Stage.LoadStage: sprite images, the decorations' animation settings and scales (2.0 and 1.25), and the barriers' colliders are reduced to kind, position and size.
- StageModel.IsEnemy: which classes derive from `Enemy` is assumed (the two zombies), since the entity classes are not part of this model.
- Abilities.SeedShooterAction: the direction is kept as the unnormalised offset from owner to player. `Normalize` and `InverseTransformPoint` are float geometry in the ability's local frame. The console line is left out.
- Abilities.ConfigOf: the sprite's width and height are kept symbolic (`Scaled`), and sound playback is reduced to the path and volume.
- Cooldown and activation timing, and the melee hit test, belong to the `Ability` and `BasicMelee` base classes, which are not part of this model.
- `StageLoader.AddObject` is modelled as a list of pending objects (`PendingObjects`). Adding them to the running stage is not part of this model.

## Findings

| source | as written | input that shows it | evidently intended | confidence | as-written member | corrected member |
|---|---|---|---|---|---|---|
| GXPEngine/StageManagement/Stage.cs:139-153 | The comparisons index `children`, a copy taken before the loops, while `SetChildIndex` moves children in the live list. After the first move, index `i` of the copy no longer names the child at index `i`. | Three children at y = 5, 3, 1 in child order end at y = 1, 5, 3. | Children drawn in order of increasing y, which the same loops give when they read the live list. | medium, not executed; rests on `GetChildren()` returning a copy | `StageModel.SnapshotSortMisorders` | `StageModel.Stage.SortDisplayHierarchyLive` |
