/** Collision resolution against the tile map: the screen-bounds check, the
 *  four footprint samples of the sprite's lower half, the pixel-to-tile
 *  index conversion and the collidable-tile membership test.
 */
module Collision {
  import opened Components

  /** The tile map service: the tile ids stacked at a 1-based tile index
   *  (`TileMap::getTilesAtPosition`, left abstract) and the ids that block. */
  datatype TileMap = TileMap(tilesAt: int -> seq<int>, collidableTiles: seq<int>)

  /** `getPositionFromCoords`: the 1-based, row-major index of the tile
   *  holding pixel (x, y). */
  function TileIndex(cfg: Config, x: int, y: int): (r: int)
    requires cfg.Valid() && x >= 0 && y >= 0
    ensures r >= 1
    ensures r >= x / cfg.tileSize + 1
  {
    var positionX := x / cfg.tileSize;
    var positionY := y / cfg.tileSize;
    var columns := cfg.Columns();
    assert positionY >= 0 && columns >= 0;
    NonNegProduct(positionY, columns);
    (positionX + 1) + positionY * columns
  }

  lemma NonNegProduct(a: int, b: int)
    requires a >= 0 && b >= 0
    ensures a * b >= 0
  {
  }

  /** A pixel between the left edges of tile c and tile c + 1 lies in tile c. */
  lemma DivWithin(x: int, t: int, c: int)
    requires t > 0 && c * t <= x < (c + 1) * t
    ensures x / t == c
  {
    QuotientUnique(x, t, c, x - c * t);
  }

  /** A positive multiple of n is at least n. */
  lemma MultipleAtLeast(a: int, n: int)
    requires a >= 1 && n > 0
    ensures a * n >= n
  {
    assert a * n == n + (a - 1) * n;
    NonNegProduct(a - 1, n);
  }

  /** Writing k as q * n + m with 0 <= m < n fixes q as k / n and m as k % n. */
  lemma QuotientUnique(k: int, n: int, q: int, m: int)
    requires n > 0 && 0 <= m < n && k == q * n + m
    ensures k / n == q && k % n == m
  {
    var q', m' := k / n, k % n;
    assert (q' - q) * n == m - m';
    if q' > q {
      MultipleAtLeast(q' - q, n);
    } else if q' < q {
      MultipleAtLeast(q - q', n);
    }
  }

  /** Any two pixels of the same on-screen tile get the same index. */
  lemma SameTileSameIndex(cfg: Config, x1: int, y1: int, x2: int, y2: int, col: int, row: int)
    requires cfg.Valid() && col >= 0 && row >= 0
    requires col * cfg.tileSize <= x1 < (col + 1) * cfg.tileSize
    requires col * cfg.tileSize <= x2 < (col + 1) * cfg.tileSize
    requires row * cfg.tileSize <= y1 < (row + 1) * cfg.tileSize
    requires row * cfg.tileSize <= y2 < (row + 1) * cfg.tileSize
    ensures x1 >= 0 && y1 >= 0 && x2 >= 0 && y2 >= 0
    ensures TileIndex(cfg, x1, y1) == TileIndex(cfg, x2, y2) == (col + 1) + row * cfg.Columns()
  {
    NonNegProduct(col, cfg.tileSize);
    NonNegProduct(row, cfg.tileSize);
    DivWithin(x1, cfg.tileSize, col);
    DivWithin(x2, cfg.tileSize, col);
    DivWithin(y1, cfg.tileSize, row);
    DivWithin(y2, cfg.tileSize, row);
  }

  /** (c + r * n) splits back into remainder c and quotient r. */
  lemma DivModOfRowMajor(c: int, r: int, n: int)
    requires n > 0 && 0 <= c < n && r >= 0
    ensures (c + r * n) % n == c && (c + r * n) / n == r
  {
    QuotientUnique(c + r * n, n, r, c);
  }

  /** For a pixel whose tile column lies inside the map's width the index
   *  decodes back into that column and row, so different tiles never share
   *  an index. */
  lemma TileIndexDecodes(cfg: Config, x: int, y: int)
    requires cfg.Valid() && x >= 0 && y >= 0
    requires x / cfg.tileSize < cfg.Columns()
    ensures (TileIndex(cfg, x, y) - 1) % cfg.Columns() == x / cfg.tileSize
    ensures (TileIndex(cfg, x, y) - 1) / cfg.Columns() == y / cfg.tileSize
  {
    DivModOfRowMajor(x / cfg.tileSize, y / cfg.tileSize, cfg.Columns());
  }

  lemma DistinctTilesDistinctIndex(cfg: Config, x1: int, y1: int, x2: int, y2: int)
    requires cfg.Valid() && x1 >= 0 && y1 >= 0 && x2 >= 0 && y2 >= 0
    requires x1 / cfg.tileSize < cfg.Columns() && x2 / cfg.tileSize < cfg.Columns()
    ensures TileIndex(cfg, x1, y1) == TileIndex(cfg, x2, y2) <==>
              x1 / cfg.tileSize == x2 / cfg.tileSize && y1 / cfg.tileSize == y2 / cfg.tileSize
  {
    TileIndexDecodes(cfg, x1, y1);
    TileIndexDecodes(cfg, x2, y2);
  }

  /** The placements the bounds check lets through: the whole in-game sprite
   *  on screen. */
  predicate InBounds(cfg: Config, x: int, y: int) {
    0 <= x <= cfg.gameWidth - cfg.ingameWidth && 0 <= y <= cfg.gameHeight - cfg.ingameHeight
  }

  /** The four sampled pixels of a sprite drawn at (x, y): top-left, top-right,
   *  bottom-left, bottom-right of its lower half.  The bottom pair sits
   *  INGAME_WIDTH - 1 pixels below the top pair, as the source has it. */
  function SamplePoints(cfg: Config, x: int, y: int): (pts: seq<(int, int)>)
    requires cfg.Valid()
    ensures |pts| == 4
    ensures forall pt :: pt in pts ==> x <= pt.0 < x + cfg.ingameWidth
    ensures forall pt :: pt in pts ==> y + cfg.ingameHeight / 2 <= pt.1
    ensures InBounds(cfg, x, y) ==>
              forall pt :: pt in pts ==> 0 <= pt.0 < cfg.gameWidth && 0 <= pt.1
  {
    var top := y + cfg.ingameHeight / 2;
    var right := x + (cfg.ingameWidth - 1);
    var bottom := top + (cfg.ingameWidth - 1);
    [(x, top), (right, top), (x, bottom), (right, bottom)]
  }

  /** The samples stay within the sprite's rows exactly when the width-based
   *  offset of the bottom pair fits in the lower half of the sprite. */
  lemma SamplesWithinSpriteRows(cfg: Config, x: int, y: int)
    requires cfg.Valid()
    ensures (forall pt :: pt in SamplePoints(cfg, x, y) ==> pt.1 < y + cfg.ingameHeight)
            <==> cfg.ingameWidth <= cfg.ingameHeight - cfg.ingameHeight / 2
  {
    var pts := SamplePoints(cfg, x, y);
    assert pts[2] in pts;
  }

  /** When the screen width is a whole number of tiles, every sample of an
   *  on-screen sprite falls in a tile column of the map, so its index decodes
   *  back into that column and row. */
  lemma SampleColumnsInsideMap(cfg: Config, x: int, y: int)
    requires cfg.Valid() && InBounds(cfg, x, y) && cfg.gameWidth % cfg.tileSize == 0
    ensures forall pt :: pt in SamplePoints(cfg, x, y) ==> pt.0 / cfg.tileSize < cfg.Columns()
  {
    var t, n := cfg.tileSize, cfg.Columns();
    QuotientUnique(cfg.gameWidth, t, n, 0);
    assert cfg.gameWidth == n * t;
    forall pt | pt in SamplePoints(cfg, x, y)
      ensures pt.0 / t < n
    {
      DivBelow(pt.0, t, n);
    }
  }

  /** A pixel left of n whole tiles lies in one of the first n tile columns. */
  lemma DivBelow(x: int, t: int, n: int)
    requires t > 0 && 0 <= x < n * t
    ensures x / t < n
  {
    var q := x / t;
    assert x == q * t + x % t;
    if q >= n {
      NonNegProduct(q - n, t);
      assert false;
    }
  }

  /** When the screen width is not a whole number of tiles, the rightmost
   *  pixel column is counted as one more tile column, and its index coincides
   *  with that of the first column one tile row further down. */
  lemma RightEdgeWraps(cfg: Config, y: int)
    requires cfg.Valid() && y >= 0 && cfg.gameWidth % cfg.tileSize != 0
    ensures TileIndex(cfg, cfg.gameWidth - 1, y) == TileIndex(cfg, 0, y + cfg.tileSize)
  {
    var t, n := cfg.tileSize, cfg.Columns();
    QuotientUnique(cfg.gameWidth - 1, t, n, cfg.gameWidth % t - 1);
    QuotientUnique(y + t, t, y / t + 1, y % t);
  }

  /** `hasCollidableAtPosition` as a statement: some looked-up tile id is collidable. */
  predicate AnyCollidable(tiles: seq<int>, collidableTiles: seq<int>) {
    exists i :: 0 <= i < |tiles| && tiles[i] in collidableTiles
  }

  /** The sampled pixel lies on a tile that holds a collidable id. */
  predicate SampleHits(cfg: Config, tm: TileMap, pt: (int, int))
    requires cfg.Valid() && pt.0 >= 0 && pt.1 >= 0
  {
    AnyCollidable(tm.tilesAt(TileIndex(cfg, pt.0, pt.1)), tm.collidableTiles)
  }

  /** `CollisionSystem` as a statement: the placement leaves the screen, or a
   *  sampled pixel lies on a tile with a collidable id. */
  predicate Blocked(cfg: Config, tm: TileMap, x: int, y: int)
    requires cfg.Valid()
  {
    || !InBounds(cfg, x, y)
    || exists pt :: pt in SamplePoints(cfg, x, y) && SampleHits(cfg, tm, pt)
  }

  /** Whatever the tile map holds, a placement off screen is rejected and an
   *  accepted placement is on screen. */
  lemma AcceptedIsInBounds(cfg: Config, tm: TileMap, x: int, y: int)
    requires cfg.Valid()
    ensures !Blocked(cfg, tm, x, y) ==> InBounds(cfg, x, y)
    ensures (x < 0 || y < 0 || x > cfg.gameWidth - cfg.ingameWidth ||
             y > cfg.gameHeight - cfg.ingameHeight) ==> Blocked(cfg, tm, x, y)
  {
  }

  /** With no collidable ids every on-screen placement is accepted. */
  lemma NoCollidablesOnlyBounds(cfg: Config, tm: TileMap, x: int, y: int)
    requires cfg.Valid() && tm.collidableTiles == []
    ensures Blocked(cfg, tm, x, y) <==> !InBounds(cfg, x, y)
  {
  }
}
