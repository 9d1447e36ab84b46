/** The animation rule for one entity: idle reset, facing row, and a frame
 *  column that ping-pongs across the three columns of the sheet every ten
 *  frames.
 */
module Animation {
  import opened Components

  /** The velocity is zero: the entity stands still. */
  predicate Idle(p: PositionComponent) {
    p.deltaX == 0 && p.deltaY == 0
  }

  /** The sheet row for a velocity; horizontal motion wins over vertical, and
   *  a velocity outside the unit steps keeps the current row. */
  function Facing(cfg: Config, p: PositionComponent, row: int): int {
    if p.deltaX == 1 then cfg.rightSprite
    else if p.deltaX == -1 then cfg.leftSprite
    else if p.deltaY == 1 then cfg.downSprite
    else if p.deltaY == -1 then cfg.upSprite
    else row
  }

  /** The column step taken when the counter reaches 9: move one column in the
   *  current direction and turn round on reaching either end of the sheet. */
  function NextColumn(cfg: Config, srcX: int, deltaFrame: int): (int, int) {
    var x := srcX + cfg.spriteWidth * deltaFrame;
    (x, if x == cfg.spriteWidth * 2 then -1 else if x == 0 then 1 else deltaFrame)
  }

  /** Sprite and animation state after one frame of `AnimationSystem`. */
  function AnimateStep(cfg: Config, p: PositionComponent, s: SpriteComponent, a: AnimationComponent)
    : (r: (SpriteComponent, AnimationComponent))
    ensures r.0.srcY == Facing(cfg, p, s.srcY)
    ensures Idle(p) ==> r == (Sprite(cfg.spriteWidth, s.srcY), Animation(1, 1))
    ensures !Idle(p) && a.frameCount != 9 ==>
              r.0.srcX == s.srcX && r.1 == a.(frameCount := a.frameCount + 1)
    ensures !Idle(p) && a.frameCount == 9 ==>
              (r.0.srcX, r.1.deltaFrame) == NextColumn(cfg, s.srcX, a.deltaFrame) && r.1.frameCount == 0
  {
    var s1 := if Idle(p) then s.(srcX := cfg.spriteWidth) else s;
    var a1 := if Idle(p) then Animation(0, 1) else a;
    var s2 := s1.(srcY := Facing(cfg, p, s1.srcY));
    if a1.frameCount == 9 then
      var (x, d) := NextColumn(cfg, s2.srcX, a1.deltaFrame);
      (s2.(srcX := x), Animation(0, d))
    else
      (s2, a1.(frameCount := a1.frameCount + 1))
  }

  /** The entities `AnimationSystem` acts on. */
  predicate Animated(e: Entity) {
    e.position.Some? && e.sprite.Some? && e.animation.Some?
  }

  /** The entity after one frame of `AnimationSystem`. */
  function AnimateEntity(cfg: Config, e: Entity): (r: Entity)
    ensures r.position == e.position && r.control == e.control
    ensures Animated(r) <==> Animated(e)
    ensures !Animated(e) ==> r == e
    ensures Animated(e) ==>
              (r.sprite.value, r.animation.value) ==
              AnimateStep(cfg, e.position.value, e.sprite.value, e.animation.value)
  {
    if Animated(e) then
      var (s, a) := AnimateStep(cfg, e.position.value, e.sprite.value, e.animation.value);
      e.(sprite := Some(s), animation := Some(a))
    else e
  }

  /** The ping-pong invariant: the column is one of the three frames, the
   *  direction is a unit step pointing away from the end it last reached,
   *  and the counter stays in 0..9. */
  predicate PingPong(cfg: Config, s: SpriteComponent, a: AnimationComponent) {
    var w := cfg.spriteWidth;
    && (s.srcX == 0 || s.srcX == w || s.srcX == 2 * w)
    && (a.deltaFrame == -1 || a.deltaFrame == 1)
    && (s.srcX == 2 * w ==> a.deltaFrame == -1)
    && (s.srcX == 0 ==> a.deltaFrame == 1)
    && 0 <= a.frameCount <= 9
  }

  /** The entity is animated and its sprite and animation keep the ping-pong
   *  invariant. */
  predicate AnimationInRange(cfg: Config, e: Entity) {
    Animated(e) && PingPong(cfg, e.sprite.value, e.animation.value)
  }

  /** Standing still shows the middle frame, restarts the direction and
   *  leaves the counter at 1 (reset to 0, then counted), whatever the state
   *  was; the row is kept. */
  lemma IdleResets(cfg: Config, p: PositionComponent, s: SpriteComponent, a: AnimationComponent)
    requires Idle(p)
    ensures AnimateStep(cfg, p, s, a).0 == Sprite(cfg.spriteWidth, s.srcY)
    ensures AnimateStep(cfg, p, s, a).1 == Animation(1, 1)
  {
  }

  /** The row follows the velocity with priority right, left, down, up. */
  lemma FacingPriority(cfg: Config, p: PositionComponent, s: SpriteComponent, a: AnimationComponent)
    ensures var row := AnimateStep(cfg, p, s, a).0.srcY;
      && (p.deltaX == 1 ==> row == cfg.rightSprite)
      && (p.deltaX == -1 ==> row == cfg.leftSprite)
      && (p.deltaX != 1 && p.deltaX != -1 && p.deltaY == 1 ==> row == cfg.downSprite)
      && (p.deltaX != 1 && p.deltaX != -1 && p.deltaY == -1 ==> row == cfg.upSprite)
      && (p.deltaX != 1 && p.deltaX != -1 && p.deltaY != 1 && p.deltaY != -1 ==> row == s.srcY)
  {
  }

  /** One frame keeps the ping-pong invariant. */
  lemma PingPongPreserved(cfg: Config, p: PositionComponent, s: SpriteComponent, a: AnimationComponent)
    requires cfg.Valid() && PingPong(cfg, s, a)
    ensures PingPong(cfg, AnimateStep(cfg, p, s, a).0, AnimateStep(cfg, p, s, a).1)
  {
    var w := cfg.spriteWidth;
    if !Idle(p) && a.frameCount == 9 {
      if a.deltaFrame == 1 {
        assert s.srcX + w * a.deltaFrame == s.srcX + w;
      } else {
        assert s.srcX + w * a.deltaFrame == s.srcX - w;
      }
    }
  }

  /** While moving, the column changes only on the frame whose counter was 9,
   *  which also restarts the counter; every other frame just counts. */
  lemma ColumnTiming(cfg: Config, p: PositionComponent, s: SpriteComponent, a: AnimationComponent)
    requires cfg.Valid() && !Idle(p) && PingPong(cfg, s, a)
    ensures var (s', a') := AnimateStep(cfg, p, s, a);
      && (a.frameCount != 9 ==> s'.srcX == s.srcX && a' == a.(frameCount := a.frameCount + 1))
      && (a.frameCount == 9 ==>
            && a'.frameCount == 0
            && s'.srcX == s.srcX + cfg.spriteWidth * a.deltaFrame
            && s'.srcX != s.srcX)
  {
    if a.frameCount == 9 {
      assert cfg.spriteWidth * a.deltaFrame != 0 by {
        if a.deltaFrame == 1 {
          assert cfg.spriteWidth * a.deltaFrame == cfg.spriteWidth;
        } else {
          assert cfg.spriteWidth * a.deltaFrame == -cfg.spriteWidth;
        }
      }
    }
  }

  /** Four column steps from any ping-pong column bring it back to where it
   *  started: the sheet is walked 0, W, 2W, W, 0, ... */
  lemma ColumnPeriodFour(cfg: Config, srcX: int, deltaFrame: int)
    requires cfg.Valid() && PingPong(cfg, Sprite(srcX, 0), Animation(0, deltaFrame))
    ensures var c1 := NextColumn(cfg, srcX, deltaFrame);
      var c2 := NextColumn(cfg, c1.0, c1.1);
      var c3 := NextColumn(cfg, c2.0, c2.1);
      NextColumn(cfg, c3.0, c3.1) == (srcX, deltaFrame)
  {
    var w := cfg.spriteWidth;
    assert w * 1 == w && w * -1 == -w;
  }

  /** `n` consecutive frames with a fixed velocity. */
  function AnimateFrames(cfg: Config, p: PositionComponent, s: SpriteComponent, a: AnimationComponent, n: nat)
    : (SpriteComponent, AnimationComponent)
    decreases n
  {
    if n == 0 then (s, a)
    else
      var (s1, a1) := AnimateStep(cfg, p, s, a);
      AnimateFrames(cfg, p, s1, a1, n - 1)
  }

  /** Counting up from `frameCount` without reaching 9 leaves the column alone. */
  lemma {:induction false} CountingKeepsColumn(cfg: Config, p: PositionComponent, s: SpriteComponent,
                                               a: AnimationComponent, n: nat)
    requires !Idle(p) && 0 <= a.frameCount && a.frameCount + n <= 9
    ensures AnimateFrames(cfg, p, s, a, n).0.srcX == s.srcX
    ensures AnimateFrames(cfg, p, s, a, n).1 == a.(frameCount := a.frameCount + n)
    decreases n
  {
    if n > 0 {
      var (s1, a1) := AnimateStep(cfg, p, s, a);
      assert s1.srcX == s.srcX && a1 == a.(frameCount := a.frameCount + 1);
      CountingKeepsColumn(cfg, p, s1, a1, n - 1);
    }
  }

  /** While moving, ten frames from a restarted counter move the column by
   *  exactly one step and restart the counter again. */
  lemma TenFramesOneColumn(cfg: Config, p: PositionComponent, s: SpriteComponent, a: AnimationComponent)
    requires !Idle(p) && a.frameCount == 0
    ensures var (s', a') := AnimateFrames(cfg, p, s, a, 10);
      (s'.srcX, a'.deltaFrame) == NextColumn(cfg, s.srcX, a.deltaFrame) && a'.frameCount == 0
  {
    CountingKeepsColumn(cfg, p, s, a, 9);
    AnimateFramesSplit(cfg, p, s, a, 9);
  }

  /** One more frame after `n` frames is `n + 1` frames. */
  lemma {:induction false} AnimateFramesSplit(cfg: Config, p: PositionComponent, s: SpriteComponent,
                                              a: AnimationComponent, n: nat)
    ensures var (sn, an) := AnimateFrames(cfg, p, s, a, n);
      AnimateFrames(cfg, p, s, a, n + 1) == AnimateStep(cfg, p, sn, an)
    decreases n
  {
    if n > 0 {
      var (s1, a1) := AnimateStep(cfg, p, s, a);
      AnimateFramesSplit(cfg, p, s1, a1, n - 1);
    }
  }
}
