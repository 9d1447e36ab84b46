# RPG entity manager: the per-frame systems

This project models the runtime core of a tile-based 2D role-playing game,
`RPG/Manager.cpp`. It covers the entity manager and the systems it runs once
per frame over its entities:

- **Registry** (`addEntity`): appends a fresh entity with no components.
- **Input** (`ControlSystem`): the pressed key sets the velocity of the
  entities that have a position and a control component with
  `inControl` set.
- **Motion** (`PositionSystem`): every positioned entity tries a step of twice
  its velocity. The step is rolled back to the saved coordinates when the
  collision resolver rejects it.
- **Collision** (`CollisionSystem`, `getPositionFromCoords`,
  `hasCollidableAtPosition`): a new position is rejected when it leaves the
  screen. It is also rejected when one of four sampled pixels of the sprite's
  lower half lies on a tile whose stacked ids include a collidable one. Tile
  indices are 1-based and row-major.
- **Animation** (`AnimationSystem`): standing still shows the middle frame.
  The sheet row follows the velocity, with priority right > left > down > up.
  Every tenth frame the frame column ping-pongs across 0, W and 2W, where W
  is the sprite width.

Files:

- `components.dfy` (module `Components`): the components, the entity record
  and the injected configuration.
- `collision.dfy` (module `Collision`): the collision rule.
- `motion.dfy` (module `Motion`): the motion rule for one entity.
- `animation.dfy` (module `Animation`): the animation rule for one entity.
- `control.dfy` (module `Control`): the input rule for one entity.
- `manager.dfy` (module `GameManager`): the class `Manager`. It owns
  `entities: seq<Entity>`, and its system methods loop over the entities and
  rewrite them one at a time. Each system method is proved against the
  per-entity rule of its module.

Each entity is a record of four optional components:

- Position: `destX`, `destY`, `deltaX`, `deltaY`.
- Sprite: `srcX`, `srcY`.
- Animation: `frameCount`, `deltaFrame`.
- Control: `inControl`.

A system skips an entity that lacks a component it needs.

The game and sprite constants are declared in headers that are not part of
this model: `Game::GAME_WIDTH`, `GAME_HEIGHT`, `TILE_SIZE`,
`SpriteComponent::SPRITE_WIDTH`, `INGAME_WIDTH`, `INGAME_HEIGHT` and the four
`*_SPRITE` rows. They are fields of an injected `Config`. `Config.Valid()`
asks for positive sizes and for an in-game sprite no larger than the screen.
The sprite rows are left unconstrained.

The tile map service is a `TileMap` value. It holds the lookup
`TileMap::getTilesAtPosition` as an uninterpreted function `int -> seq<int>`
and the `collidableTiles` list.

Two behaviours of the code are modelled as written:

- The bottom pair of samples sits `INGAME_WIDTH - 1` pixels below the top
  pair, not a height-based offset. `Collision.SamplesWithinSpriteRows`
  states when these samples stay inside the sprite.
- The idle reset sets `frameCount` to 0, and the same frame then increments
  it, so an idle entity leaves the animation system with `frameCount == 1`,
  not 0.

The constants' actual values are unknown here. So the model does not decide
whether the bottom samples leave the sprite, or whether a screen width that is
not a whole number of tiles makes the right edge alias into the next row
(`Collision.RightEdgeWraps`). It proves under which constants each happens.

## Model

| member | source | states |
|---|---|---|
| `GameManager.Manager.AddEntity` | RPG/Manager.cpp:14-21 | the list grows by one entity with no components at the end; earlier entities are unchanged; the returned index names the new entity |
| `GameManager.Manager.PositionSystem` | RPG/Manager.cpp:23-47 | the length is kept; every entity becomes its `MoveEntity` image; an entity that started on screen is still on screen |
| `Motion.MoveEntity` | RPG/Manager.cpp:25-45 | an entity without a position is unchanged; otherwise the velocity and the other components are kept, and the position is either the target (2·velocity away, not blocked) or the original (target blocked) |
| `Motion.ZeroVelocityStays` | RPG/Manager.cpp:33-45 | an entity with zero velocity never changes |
| `Motion.MoveStaysInBounds` | RPG/Manager.cpp:37-45 | a position on screen is still on screen after the move or the rollback |
| `Motion.OffScreenStepReverts` | RPG/Manager.cpp:37-45 | a step whose target leaves the screen leaves the entity as it was |
| `GameManager.Manager.CollisionSystem` | RPG/Manager.cpp:177-215 | the early-return checks reject a position exactly when `Blocked` holds: off screen, or some sample lies on a tile with a collidable id |
| `Collision.AcceptedIsInBounds` | RPG/Manager.cpp:180-191 | `destX < 0`, `destY < 0`, `destX > GAME_WIDTH - INGAME_WIDTH` or `destY > GAME_HEIGHT - INGAME_HEIGHT` always blocks, whatever the tile map holds, so an accepted position is on screen |
| `Collision.NoCollidablesOnlyBounds` | RPG/Manager.cpp:193-214 | with an empty collidable list only the bounds check can reject a position |
| `Collision.SamplePoints` | RPG/Manager.cpp:194-211 | there are four samples; each lies horizontally within the sprite's width and vertically at or below its middle row; for an on-screen position each has non-negative coordinates and an x inside the screen |
| `Collision.SamplesWithinSpriteRows` | RPG/Manager.cpp:206-211 | the width-based offset keeps the bottom samples inside the sprite exactly when `INGAME_WIDTH <= INGAME_HEIGHT - INGAME_HEIGHT / 2` |
| `Collision.SampleColumnsInsideMap` | RPG/Manager.cpp:194-211 | when `GAME_WIDTH` is a multiple of `TILE_SIZE`, every sample of an on-screen sprite lies in a tile column inside the map |
| `Collision.RightEdgeWraps` | RPG/Manager.cpp:217-225 | when `GAME_WIDTH` is not a multiple of `TILE_SIZE`, the last pixel column gets the same index as the first column one tile row lower |
| `GameManager.Manager.HasCollidableAtPosition` | RPG/Manager.cpp:227-237 | the loop with early return answers true exactly when some looked-up tile id is in the collidable list |
| `Collision.TileIndex` | RPG/Manager.cpp:217-225 | for non-negative pixel coordinates the index is at least 1, and at least the 1-based tile column |
| `Collision.SameTileSameIndex` | RPG/Manager.cpp:217-225 | any two pixels of tile (col, row) get the same index, `(col + 1) + row · (GAME_WIDTH / TILE_SIZE)` |
| `Collision.TileIndexDecodes` | RPG/Manager.cpp:217-225 | when the tile column is inside the map width, `index - 1` splits back into that column (remainder) and row (quotient) |
| `Collision.DistinctTilesDistinctIndex` | RPG/Manager.cpp:217-225 | for columns inside the map width, two pixels share an index exactly when they lie in the same tile column and row |
| `GameManager.Manager.AnimationSystem` | RPG/Manager.cpp:76-134 | the length is kept; every entity becomes its `AnimateEntity` image; every entity that held the ping-pong invariant still holds it |
| `Animation.AnimateEntity` | RPG/Manager.cpp:78-86 | the position and control are kept; an entity lacking a position, sprite or animation is unchanged; otherwise its sprite and animation become the `AnimateStep` image |
| `Animation.AnimateStep` | RPG/Manager.cpp:88-131 | the row is the facing row of the velocity; standing still gives the middle column, direction 1 and counter 1; while moving, a counter other than 9 counts up and keeps column and direction, and a counter of 9 takes one `NextColumn` step (ping-pong turn at 0 and 2W) and restarts at 0 |
| `Animation.IdleResets` | RPG/Manager.cpp:89-131 | zero velocity gives `srcX = SPRITE_WIDTH`, `deltaFrame = 1` and `frameCount = 1`, and keeps `srcY` |
| `Animation.FacingPriority` | RPG/Manager.cpp:97-112 | `deltaX = 1` gives the right row, else `deltaX = -1` the left row, else `deltaY = 1` the down row, else `deltaY = -1` the up row; otherwise the row is kept |
| `Animation.PingPongPreserved` | RPG/Manager.cpp:115-131 | one frame keeps `srcX ∈ {0, W, 2W}`, `deltaFrame ∈ {-1, 1}`, `srcX = 2W ⇒ deltaFrame = -1`, `srcX = 0 ⇒ deltaFrame = 1` and `frameCount ∈ [0, 9]` |
| `Animation.ColumnTiming` | RPG/Manager.cpp:115-131 | for a moving entity, a counter below 9 only counts up and keeps the column; a counter of 9 restarts it and moves the column by one step, which always changes it |
| `Animation.ColumnPeriodFour` | RPG/Manager.cpp:117-125 | four column steps from any ping-pong state return to the same column and direction |
| `Animation.CountingKeepsColumn` | RPG/Manager.cpp:128-131 | while moving, `n` frames that do not reach a counter of 9 keep the column and raise the counter by `n` |
| `Animation.TenFramesOneColumn` | RPG/Manager.cpp:115-131 | while moving, ten frames from a counter of 0 make exactly one column step and end with the counter at 0 |
| `GameManager.Manager.ControlSystem` | RPG/Manager.cpp:136-175 | the length is kept; every entity becomes its `ControlEntity` image |
| `Control.KeyVelocity` | RPG/Manager.cpp:148-173 | at most one axis is non-zero and each axis is a unit step; W/Up select (0, -1), A/Left (-1, 0), S/Down (0, 1) and D/Right (1, 0), each in both directions; any other key gives (0, 0) |
| `Control.ControlEntity` | RPG/Manager.cpp:138-175 | entities lacking a position or control, or not in control, are unchanged; a controlled entity gets the key's velocity (a unit velocity) and keeps its coordinates and other components |
| `Control.OtherKeyStops` | RPG/Manager.cpp:171-172 | an unrecognised key zeroes the controlled entity's velocity |

## Left out

- `DrawSystem` (RPG/Manager.cpp:49-74) is left out. It loads a texture through `TextureManager::loadTexture` and draws with `SDL_RenderCopy`, which is rendering and I/O.
- `TileMap::getTilesAtPosition` parses the hard-coded `tilemaps/testlevel.tmx` file. It is modelled as the uninterpreted lookup `TileMap.tilesAt`. `std::find` over the collidable list is modelled as sequence membership.
- `std::unique_ptr` ownership and the `new Entity()` allocation are not modelled. The registry is a sequence of entity values. `AddEntity` returns the new entity's index instead of a reference.
- Aliasing through the `Entity&` that `addEntity` returns is not modelled. Neither is aliasing through the component references the systems take. A system's in-place update of a component is a reassignment of that entity's slot in `entities`.
- Attaching components (`Entity::addComponent`), `hasComponent` and `getComponent` are in headers that are not part of this model. Components are `Option` fields of the entity record.
- The SDL key codes are not modelled. A `Key` datatype names the eight movement keys and carries any other code as `Other`. `keyPressed` is passed by value, so it cannot change.
- 32-bit `int` overflow is not modelled, and neither is C++ truncating division. `getPositionFromCoords` is only reached after the bounds check has made its arguments non-negative, and there Dafny's division agrees with C++'s. All arithmetic uses unbounded integers.
- A null `TileMap*` is not modelled. The tile map is always present.
