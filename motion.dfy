/** The motion rule for one entity: attempt a step of twice the velocity and
 *  roll back to the saved coordinates when the collision resolver objects.
 */
module Motion {
  import opened Components
  import opened Collision

  /** The entity has a position and it is on screen. */
  predicate OnScreen(cfg: Config, e: Entity) {
    e.position.Some? && InBounds(cfg, e.position.value.destX, e.position.value.destY)
  }

  /** The position after one frame of `PositionSystem`. */
  function MoveEntity(cfg: Config, tm: TileMap, e: Entity): (r: Entity)
    requires cfg.Valid()
    ensures r.sprite == e.sprite && r.animation == e.animation && r.control == e.control
    ensures e.position.None? ==> r == e
    ensures e.position.Some? ==> r.position.Some?
    ensures e.position.Some? ==>
              var p, q := e.position.value, r.position.value;
              && q.deltaX == p.deltaX && q.deltaY == p.deltaY
              && ((&& q.destX == p.destX + 2 * p.deltaX && q.destY == p.destY + 2 * p.deltaY
                   && !Blocked(cfg, tm, q.destX, q.destY))
                  || (&& q.destX == p.destX && q.destY == p.destY
                      && Blocked(cfg, tm, p.destX + 2 * p.deltaX, p.destY + 2 * p.deltaY)))
  {
    match e.position
    case None => e
    case Some(p) =>
      var moved := p.(destX := p.destX + p.deltaX * 2, destY := p.destY + p.deltaY * 2);
      if Blocked(cfg, tm, moved.destX, moved.destY) then e
      else e.(position := Some(moved))
  }

  /** An entity standing still never changes position. */
  lemma ZeroVelocityStays(cfg: Config, tm: TileMap, e: Entity)
    requires cfg.Valid() && e.position.Some?
    requires e.position.value.deltaX == 0 && e.position.value.deltaY == 0
    ensures MoveEntity(cfg, tm, e) == e
  {
  }

  /** A position on screen stays on screen: the bounds check rejects every
   *  step that would leave it. */
  lemma MoveStaysInBounds(cfg: Config, tm: TileMap, e: Entity)
    requires cfg.Valid() && e.position.Some?
    requires InBounds(cfg, e.position.value.destX, e.position.value.destY)
    ensures MoveEntity(cfg, tm, e).position.Some?
    ensures InBounds(cfg, MoveEntity(cfg, tm, e).position.value.destX,
                     MoveEntity(cfg, tm, e).position.value.destY)
  {
    var q := MoveEntity(cfg, tm, e).position.value;
    AcceptedIsInBounds(cfg, tm, q.destX, q.destY);
  }

  /** A step that would leave the screen is rolled back. */
  lemma OffScreenStepReverts(cfg: Config, tm: TileMap, e: Entity)
    requires cfg.Valid() && e.position.Some?
    requires !InBounds(cfg, e.position.value.destX + 2 * e.position.value.deltaX,
                       e.position.value.destY + 2 * e.position.value.deltaY)
    ensures MoveEntity(cfg, tm, e) == e
  {
  }
}
