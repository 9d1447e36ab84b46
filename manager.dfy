/** The entity manager: it owns the entity list and runs the per-frame
 *  systems over it.  Each system visits the entities in order and rewrites,
 *  in place, the components of those that have what it needs.
 */
module GameManager {
  import opened Components
  import opened Collision
  import opened Motion
  import opened Animation
  import opened Control

  class Manager {
    const cfg: Config
    var entities: seq<Entity>

    constructor (cfg: Config)
      requires cfg.Valid()
      ensures this.cfg == cfg && entities == []
    {
      this.cfg := cfg;
      entities := [];
    }

    /** Appends a fresh entity with no components; the result is its index,
     *  the handle through which components are attached. */
    method AddEntity() returns (id: nat)
      modifies this
      ensures entities == old(entities) + [EmptyEntity()]
      ensures id == |old(entities)| && entities[id] == EmptyEntity()
    {
      id := |entities|;
      entities := entities + [EmptyEntity()];
    }

    /** Moves every positioned entity by twice its velocity, rolling the move
     *  back when the collision resolver rejects the new place. */
    method PositionSystem(tilemap: TileMap)
      requires cfg.Valid()
      modifies this
      ensures |entities| == |old(entities)|
      ensures forall i :: 0 <= i < |entities| ==> entities[i] == MoveEntity(cfg, tilemap, old(entities)[i])
      ensures forall i :: 0 <= i < |entities| && OnScreen(cfg, old(entities)[i]) ==> OnScreen(cfg, entities[i])
    {
      for i := 0 to |entities|
        invariant |entities| == |old(entities)|
        invariant forall j :: 0 <= j < i ==> entities[j] == MoveEntity(cfg, tilemap, old(entities)[j])
        invariant forall j :: i <= j < |entities| ==> entities[j] == old(entities)[j]
      {
        var e := entities[i];
        if !e.position.Some? { continue; }
        var positionCom := e.position.value;
        var originalX, originalY := positionCom.destX, positionCom.destY;
        positionCom := positionCom.(destX := positionCom.destX + positionCom.deltaX * 2,
                                    destY := positionCom.destY + positionCom.deltaY * 2);
        var collided := CollisionSystem(positionCom, tilemap);
        if collided {
          positionCom := positionCom.(destX := originalX, destY := originalY);
        }
        assert e.(position := Some(positionCom)) == MoveEntity(cfg, tilemap, e);
        entities := entities[i := e.(position := Some(positionCom))];
      }
      forall i | 0 <= i < |entities| && OnScreen(cfg, old(entities)[i])
        ensures OnScreen(cfg, entities[i])
      {
        MoveStaysInBounds(cfg, tilemap, old(entities)[i]);
      }
    }

    /** Updates facing row, frame column and frame counter of every entity
     *  with position, sprite and animation. */
    method AnimationSystem()
      requires cfg.Valid()
      modifies this
      ensures |entities| == |old(entities)|
      ensures forall i :: 0 <= i < |entities| ==> entities[i] == AnimateEntity(cfg, old(entities)[i])
      ensures forall i :: 0 <= i < |entities| && AnimationInRange(cfg, old(entities)[i]) ==>
                AnimationInRange(cfg, entities[i])
    {
      for i := 0 to |entities|
        invariant |entities| == |old(entities)|
        invariant forall j :: 0 <= j < i ==> entities[j] == AnimateEntity(cfg, old(entities)[j])
        invariant forall j :: i <= j < |entities| ==> entities[j] == old(entities)[j]
      {
        var e := entities[i];
        if !e.position.Some? { continue; }
        if !e.sprite.Some? { continue; }
        if !e.animation.Some? { continue; }
        var positionCom, spriteCom, animationCom := e.position.value, e.sprite.value, e.animation.value;

        // standing still shows the middle frame
        if positionCom.deltaX == 0 && positionCom.deltaY == 0 {
          spriteCom := spriteCom.(srcX := cfg.spriteWidth * 1);
          animationCom := animationCom.(deltaFrame := 1);
          animationCom := animationCom.(frameCount := 0);
        }

        if positionCom.deltaX == 1 {
          spriteCom := spriteCom.(srcY := cfg.rightSprite);
        } else if positionCom.deltaX == -1 {
          spriteCom := spriteCom.(srcY := cfg.leftSprite);
        } else if positionCom.deltaY == 1 {
          spriteCom := spriteCom.(srcY := cfg.downSprite);
        } else if positionCom.deltaY == -1 {
          spriteCom := spriteCom.(srcY := cfg.upSprite);
        }

        if animationCom.frameCount == 9 {
          spriteCom := spriteCom.(srcX := spriteCom.srcX + cfg.spriteWidth * animationCom.deltaFrame);
          if spriteCom.srcX == cfg.spriteWidth * 2 {
            animationCom := animationCom.(deltaFrame := -1);
          } else if spriteCom.srcX == 0 {
            animationCom := animationCom.(deltaFrame := 1);
          }
          animationCom := animationCom.(frameCount := 0);
        } else {
          animationCom := animationCom.(frameCount := animationCom.frameCount + 1);
        }
        entities := entities[i := e.(sprite := Some(spriteCom), animation := Some(animationCom))];
      }
      forall i | 0 <= i < |entities| && AnimationInRange(cfg, old(entities)[i])
        ensures AnimationInRange(cfg, entities[i])
      {
        var e := old(entities)[i];
        PingPongPreserved(cfg, e.position.value, e.sprite.value, e.animation.value);
      }
    }

    /** Sets the velocity of every controlled entity from the pressed key. */
    method ControlSystem(keyPressed: Key)
      modifies this
      ensures |entities| == |old(entities)|
      ensures forall i :: 0 <= i < |entities| ==> entities[i] == ControlEntity(old(entities)[i], keyPressed)
    {
      for i := 0 to |entities|
        invariant |entities| == |old(entities)|
        invariant forall j :: 0 <= j < i ==> entities[j] == ControlEntity(old(entities)[j], keyPressed)
        invariant forall j :: i <= j < |entities| ==> entities[j] == old(entities)[j]
      {
        var e := entities[i];
        if !e.position.Some? { continue; }
        if !e.control.Some? { continue; }
        if !e.control.value.inControl { continue; }
        var positionCom := e.position.value;

        positionCom := positionCom.(deltaX := 0, deltaY := 0);
        match keyPressed {
          case KeyW | KeyUp => positionCom := positionCom.(deltaY := -1);
          case KeyA | KeyLeft => positionCom := positionCom.(deltaX := -1);
          case KeyS | KeyDown => positionCom := positionCom.(deltaY := 1);
          case KeyD | KeyRight => positionCom := positionCom.(deltaX := 1);
          case Other(_) =>
        }
        entities := entities[i := e.(position := Some(positionCom))];
      }
    }

    /** Decides whether a position is rejected: off screen, or one of the four
     *  samples of the sprite's lower half lies on a collidable tile.  The
     *  first failing check decides. */
    method CollisionSystem(positionCom: PositionComponent, tilemap: TileMap) returns (blocked: bool)
      requires cfg.Valid()
      ensures blocked <==> Blocked(cfg, tilemap, positionCom.destX, positionCom.destY)
    {
      if positionCom.destX < 0 { return true; }
      if positionCom.destY < 0 { return true; }
      if positionCom.destX > cfg.gameWidth - cfg.ingameWidth { return true; }
      if positionCom.destY > cfg.gameHeight - cfg.ingameHeight { return true; }

      var xCoord := positionCom.destX;
      var yCoord := positionCom.destY + cfg.ingameHeight / 2;
      ghost var pts := SamplePoints(cfg, positionCom.destX, positionCom.destY);
      var hit;

      // top left
      hit := HasCollidableAtPosition(TileIndex(cfg, xCoord, yCoord), tilemap);
      if hit { assert pts[0] in pts; return true; }
      // top right
      hit := HasCollidableAtPosition(TileIndex(cfg, xCoord + (cfg.ingameWidth - 1), yCoord), tilemap);
      if hit { assert pts[1] in pts; return true; }
      // bottom left, offset by the width as the source has it
      hit := HasCollidableAtPosition(TileIndex(cfg, xCoord, yCoord + (cfg.ingameWidth - 1)), tilemap);
      if hit { assert pts[2] in pts; return true; }
      // bottom right
      hit := HasCollidableAtPosition(
        TileIndex(cfg, xCoord + (cfg.ingameWidth - 1), yCoord + (cfg.ingameWidth - 1)), tilemap);
      if hit { assert pts[3] in pts; return true; }

      return false;
    }

    /** Looks the tile ids at a tile index up and reports whether any of them
     *  is collidable. */
    method HasCollidableAtPosition(position: int, tilemap: TileMap) returns (found: bool)
      ensures found <==> AnyCollidable(tilemap.tilesAt(position), tilemap.collidableTiles)
    {
      var tiles := tilemap.tilesAt(position);
      for i := 0 to |tiles|
        invariant forall j :: 0 <= j < i ==> tiles[j] !in tilemap.collidableTiles
      {
        if tiles[i] in tilemap.collidableTiles {
          return true;
        }
      }
      return false;
    }
  }
}
