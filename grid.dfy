/** A board of tiles (grid.py). Pixel positions, drawing and resizing are not modelled; a tile
    keeps its indices, the size it was created with and its two drawing flags. */
module Grids {
  import opened Board

  /** One square of a grid. Its indices never change; the game sets its hit and miss flags. */
  class Tile {
    const xInd: int
    const yInd: int
    const w: int
    const h: int
    var hit: bool
    var miss: bool

    /** The tile's column and row. */
    function Index(): Cell {
      Cell(xInd, yInd)
    }

    /** A new tile shows neither a hit nor a miss. */
    constructor (w: int, h: int, xInd: int, yInd: int)
      ensures this.w == w && this.h == h && this.xInd == xInd && this.yInd == yInd
      ensures !hit && !miss
    {
      this.w, this.h := w, h;
      this.xInd, this.yInd := xInd, yInd;
      hit, miss := false, false;
    }
  }

  /** The two drawing flags of a tile. */
  datatype Flags = Flags(hit: bool, miss: bool)

  /** The flags of a tile after it is shown grid value `v`: a miss sets the miss flag, a hit
      sets the hit flag, each leaving the other flag alone; any other value clears both. */
  function Shade(f: Flags, v: int): (g: Flags)
    ensures v == Miss ==> g.miss && g.hit == f.hit
    ensures v == Hit ==> g.hit && g.miss == f.miss
    ensures v != Miss && v != Hit ==> !g.hit && !g.miss
  {
    if v == Miss then f.(miss := true)
    else if v == Hit then f.(hit := true)
    else Flags(false, false)
  }

  /** The flags a tile should show for grid value `v`. */
  function Mirror(v: int): Flags {
    Flags(v == Hit, v == Miss)
  }

  /** A tile that shows a grid value keeps showing the grid when the grid only moved on from
      Untried, and showing the same grid again changes nothing. */
  lemma ShadeFollowsRecord(v0: int, v1: int)
    requires Untried <= v0 <= Hit && Untried <= v1 <= Hit
    requires v0 != Untried ==> v1 == v0
    ensures Shade(Mirror(v0), v1) == Mirror(v1)
    ensures Shade(Shade(Mirror(v0), v1), v1) == Shade(Mirror(v0), v1)
  {
  }

  class Grid {
    const r: nat
    const c: nat
    const dim: int
    var tiles: seq<seq<Tile>>

    /** `tiles[y][x]` is the tile with indices (x, y), for `r` rows of `c` tiles. */
    ghost predicate Valid()
      reads this
    {
      |tiles| == r &&
      forall y :: 0 <= y < r ==>
        |tiles[y]| == c && forall x :: 0 <= x < c ==> tiles[y][x].xInd == x && tiles[y][x].yInd == y
    }

    ghost function Tiles(): set<Tile>
      reads this
    {
      set y, x | 0 <= y < |tiles| && 0 <= x < |tiles[y]| :: tiles[y][x]
    }

    /** The tile `w` occurs in some row (identity, not equal indices). */
    ghost predicate Contains(w: Tile)
      reads this
    {
      exists y :: 0 <= y < |tiles| && w in tiles[y]
    }

    /** `dim` is the pixel size of a tile, which the source computes from the widget size. */
    constructor (r: nat, c: nat, dim: int)
      ensures this.r == r && this.c == c && this.dim == dim && Valid()
      ensures forall y, x :: 0 <= y < r && 0 <= x < c ==>
        fresh(tiles[y][x]) && tiles[y][x].w == dim && tiles[y][x].h == dim &&
        !tiles[y][x].hit && !tiles[y][x].miss
    {
      this.r, this.c, this.dim := r, c, dim;
      tiles := [];
      new;
      GenTiles();
      assert tiles[0..] == tiles;
    }

    /** Appends `r` rows of `c` new tiles, row `y` holding the tiles (0, y) .. (c - 1, y). */
    method GenTiles()
      modifies this`tiles
      ensures |tiles| == |old(tiles)| + r && tiles[..|old(tiles)|] == old(tiles)
      ensures var added := tiles[|old(tiles)|..];
        forall y :: 0 <= y < r ==> |added[y]| == c && forall x :: 0 <= x < c ==>
          fresh(added[y][x]) && added[y][x].xInd == x && added[y][x].yInd == y &&
          added[y][x].w == dim && added[y][x].h == dim && !added[y][x].hit && !added[y][x].miss
    {
      var n := |tiles|;
      for y := 0 to r
        invariant |tiles| == n + y && tiles[..n] == old(tiles)
        invariant var added := tiles[n..];
          forall y' :: 0 <= y' < y ==> |added[y']| == c && forall x :: 0 <= x < c ==>
            fresh(added[y'][x]) && added[y'][x].xInd == x && added[y'][x].yInd == y' &&
            added[y'][x].w == dim && added[y'][x].h == dim && !added[y'][x].hit && !added[y'][x].miss
      {
        ghost var before := tiles;
        var row: seq<Tile> := [];
        for x := 0 to c
          invariant tiles == before && |row| == x
          invariant forall y', x' :: 0 <= y' < y && 0 <= x' < c ==>
            !before[n..][y'][x'].hit && !before[n..][y'][x'].miss
          invariant forall x' :: 0 <= x' < x ==>
            fresh(row[x']) && row[x'].xInd == x' && row[x'].yInd == y &&
            row[x'].w == dim && row[x'].h == dim && !row[x'].hit && !row[x'].miss
        {
          var t := new Tile(dim, dim, x, y);
          row := row + [t];
        }
        tiles := tiles + [row];
        assert tiles[n..] == before[n..] + [row];
      }
    }

    /** Shows grid `hitList` on the tiles: tile (x, y) gets `Shade` of its flags and `hitList[y][x]`. */
    method UpdateVisuals(hitList: seq<seq<int>>)
      requires Valid()
      requires |hitList| >= r && forall y :: 0 <= y < r ==> |hitList[y]| >= c
      modifies Tiles()
      ensures forall y, x :: 0 <= y < r && 0 <= x < c ==>
        Flags(tiles[y][x].hit, tiles[y][x].miss) ==
        Shade(old(Flags(tiles[y][x].hit, tiles[y][x].miss)), hitList[y][x])
    {
      for y := 0 to r
        invariant forall y', x' :: 0 <= y' < r && 0 <= x' < c ==>
          Flags(tiles[y'][x'].hit, tiles[y'][x'].miss) ==
          if y' < y then Shade(old(Flags(tiles[y'][x'].hit, tiles[y'][x'].miss)), hitList[y'][x'])
          else old(Flags(tiles[y'][x'].hit, tiles[y'][x'].miss))
      {
        for x := 0 to c
          invariant forall y', x' :: 0 <= y' < r && 0 <= x' < c ==>
            Flags(tiles[y'][x'].hit, tiles[y'][x'].miss) ==
            if y' < y || (y' == y && x' < x) then Shade(old(Flags(tiles[y'][x'].hit, tiles[y'][x'].miss)), hitList[y'][x'])
            else old(Flags(tiles[y'][x'].hit, tiles[y'][x'].miss))
        {
          var t := tiles[y][x];
          if hitList[y][x] == Miss {
            t.miss := true;
          } else if hitList[y][x] == Hit {
            t.hit := true;
          } else {
            t.miss := false;
            t.hit := false;
          }
        }
      }
    }

    /** Whether `wid` is one of this grid's tiles. */
    method WidIn(wid: Tile) returns (found: bool)
      ensures found <==> Contains(wid)
    {
      for y := 0 to |tiles|
        invariant forall y' :: 0 <= y' < y ==> wid !in tiles[y']
      {
        if wid in tiles[y] {
          return true;
        }
      }
      return false;
    }

    /** A tile belongs to a well-formed grid exactly when it is the tile stored at its own indices. */
    lemma ContainsAt(wid: Tile)
      requires Valid()
      ensures Contains(wid) <==>
              0 <= wid.yInd < r && 0 <= wid.xInd < c && tiles[wid.yInd][wid.xInd] == wid
    {
      if Contains(wid) {
        var y :| 0 <= y < |tiles| && wid in tiles[y];
        var x :| 0 <= x < |tiles[y]| && tiles[y][x] == wid;
      }
    }
  }
}
