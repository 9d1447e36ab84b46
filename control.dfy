/** The input rule for one entity: the pressed key sets the velocity of the
 *  player-controlled entity.
 */
module Control {
  import opened Components

  /** The velocity a key selects: W/Up, A/Left, S/Down, D/Right move along one
   *  axis, every other key stops. */
  function KeyVelocity(key: Key): (v: (int, int))
    ensures v.0 == 0 || v.1 == 0
    ensures -1 <= v.0 <= 1 && -1 <= v.1 <= 1
    ensures v == (0, -1) <==> key == KeyW || key == KeyUp
    ensures v == (-1, 0) <==> key == KeyA || key == KeyLeft
    ensures v == (0, 1) <==> key == KeyS || key == KeyDown
    ensures v == (1, 0) <==> key == KeyD || key == KeyRight
    ensures v == (0, 0) <==> key.Other?
  {
    match key
    case KeyW | KeyUp => (0, -1)
    case KeyA | KeyLeft => (-1, 0)
    case KeyS | KeyDown => (0, 1)
    case KeyD | KeyRight => (1, 0)
    case Other(_) => (0, 0)
  }

  /** The entities `ControlSystem` acts on. */
  predicate Controlled(e: Entity) {
    e.position.Some? && e.control.Some? && e.control.value.inControl
  }

  /** The entity after `ControlSystem` has seen `key`. */
  function ControlEntity(e: Entity, key: Key): (r: Entity)
    ensures !Controlled(e) ==> r == e
    ensures Controlled(e) ==> Controlled(r)
    ensures Controlled(e) ==>
              && r.position.value.destX == e.position.value.destX
              && r.position.value.destY == e.position.value.destY
              && (r.position.value.deltaX, r.position.value.deltaY) == KeyVelocity(key)
              && UnitVelocity(r.position.value)
    ensures r.sprite == e.sprite && r.animation == e.animation && r.control == e.control
  {
    if Controlled(e) then
      var v := KeyVelocity(key);
      e.(position := Some(e.position.value.(deltaX := v.0, deltaY := v.1)))
    else e
  }

  /** An unrecognised key stops the controlled entity. */
  lemma OtherKeyStops(e: Entity, code: int)
    requires Controlled(e)
    ensures ControlEntity(e, Other(code)).position.value.deltaX == 0
    ensures ControlEntity(e, Other(code)).position.value.deltaY == 0
  {
  }
}
