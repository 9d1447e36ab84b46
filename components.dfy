/** Components and configuration of the entity-component manager.
 *
 *  An entity is a bag of optional components; every system skips an
 *  entity that lacks one of the components it needs.  The game constants
 *  (`Game::GAME_WIDTH`, `SpriteComponent::SPRITE_WIDTH`, ...) live in headers
 *  outside this model, so they are gathered in an injected `Config`.
 */
module Components {

  datatype Option<T> = None | Some(value: T)

  /** The game and sprite constants the systems read. */
  datatype Config = Config(
    gameWidth: int,     // Game::GAME_WIDTH
    gameHeight: int,    // Game::GAME_HEIGHT
    tileSize: int,      // Game::TILE_SIZE
    spriteWidth: int,   // SpriteComponent::SPRITE_WIDTH (one frame column of the sheet)
    ingameWidth: int,   // SpriteComponent::INGAME_WIDTH
    ingameHeight: int,  // SpriteComponent::INGAME_HEIGHT
    rightSprite: int,   // SpriteComponent::RIGHT_SPRITE (sheet rows)
    leftSprite: int,    // SpriteComponent::LEFT_SPRITE
    downSprite: int,    // SpriteComponent::DOWN_SPRITE
    upSprite: int)      // SpriteComponent::UP_SPRITE
  {
    /** Positive sizes, and an in-game sprite that fits on the screen. */
    predicate Valid() {
      && gameWidth > 0 && gameHeight > 0 && tileSize > 0 && spriteWidth > 0
      && ingameWidth > 0 && ingameHeight > 0
      && ingameWidth <= gameWidth && ingameHeight <= gameHeight
    }

    /** Number of tile columns in one row of the tile map. */
    function Columns(): int
      requires Valid()
    {
      gameWidth / tileSize
    }
  }

  /** Pixel destination on screen and velocity in steps per frame. */
  datatype PositionComponent = Position(destX: int, destY: int, deltaX: int, deltaY: int)

  /** Source coordinates on the sprite sheet: frame column and facing row. */
  datatype SpriteComponent = Sprite(srcX: int, srcY: int)

  /** Frames elapsed since the last column change, and the column direction. */
  datatype AnimationComponent = Animation(frameCount: int, deltaFrame: int)

  /** Marks the entity that follows keyboard input. */
  datatype ControlComponent = Control(inControl: bool)

  datatype Entity = Entity(
    position: Option<PositionComponent>,
    sprite: Option<SpriteComponent>,
    animation: Option<AnimationComponent>,
    control: Option<ControlComponent>)

  /** A freshly created entity carries no component. */
  function EmptyEntity(): Entity {
    Entity(None, None, None, None)
  }

  /** Velocity components in {-1, 0, 1}. */
  predicate UnitVelocity(p: PositionComponent) {
    -1 <= p.deltaX <= 1 && -1 <= p.deltaY <= 1
  }

  /** The key codes the input system tells apart; `Other` is any other code. */
  datatype Key = KeyW | KeyA | KeyS | KeyD | KeyUp | KeyLeft | KeyDown | KeyRight | Other(code: int)
}
