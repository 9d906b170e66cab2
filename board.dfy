/** Coordinates, ship geometry, attack grids and per-ship hit flags of the game.
    Everything here is pure: the classes of the other modules are specified with it. */
module Board {

  /** Rows and columns of both grids. */
  const Dim: int := 10

  /** Values of an attack grid cell. */
  const Untried: int := 0
  const Miss: int := 1
  const Hit: int := 2

  /** A tile index: column `x`, row `y`, both zero-based. */
  datatype Cell = Cell(x: int, y: int)

  predicate InBounds(c: Cell) {
    0 <= c.x < Dim && 0 <= c.y < Dim
  }

  predicate InGrid(cells: seq<Cell>) {
    forall c :: c in cells ==> InBounds(c)
  }

  /** Two cell lists share a cell (the non-empty set intersection of the source). */
  predicate Meets(a: seq<Cell>, b: seq<Cell>) {
    exists c :: c in a && c in b
  }

  /** The `length` cells a ship anchored at (x, y) covers, in order from the anchor. */
  function Cells(x: int, y: int, length: nat, horizontal: bool): seq<Cell> {
    seq(length, i => if horizontal then Cell(x + i, y) else Cell(x, y + i))
  }

  /** The edge test of a placement: the ship does not run past the last row or column. */
  predicate Fits(x: int, y: int, length: int, horizontal: bool) {
    if horizontal then x + length <= Dim else y + length <= Dim
  }

  /** A cell lies on a ship exactly when it is on the ship's row (or column) within its extent. */
  lemma CellsMember(x: int, y: int, length: nat, horizontal: bool, c: Cell)
    ensures c in Cells(x, y, length, horizontal) <==>
            if horizontal then c.y == y && x <= c.x < x + length
            else c.x == x && y <= c.y < y + length
  {
    var cs := Cells(x, y, length, horizontal);
    if horizontal && c.y == y && x <= c.x < x + length {
      assert cs[c.x - x] == c;
    } else if !horizontal && c.x == x && y <= c.y < y + length {
      assert cs[c.y - y] == c;
    }
  }

  /** For an anchor on the board, the edge test holds iff every cell of the ship is on the board. */
  lemma FitsIffInGrid(x: int, y: int, length: nat, horizontal: bool)
    requires InBounds(Cell(x, y))
    ensures Fits(x, y, length, horizontal) <==> InGrid(Cells(x, y, length, horizontal))
  {
    var cs := Cells(x, y, length, horizontal);
    if length > 0 && !Fits(x, y, length, horizontal) {
      assert cs[length - 1] in cs && !InBounds(cs[length - 1]);
    }
  }

  /** Cutting a ship one cell shorter drops its last cell. */
  lemma CellsSnoc(x: int, y: int, length: nat, horizontal: bool)
    ensures Cells(x, y, length + 1, horizontal) ==
            Cells(x, y, length, horizontal) + [if horizontal then Cell(x + length, y) else Cell(x, y + length)]
  {
  }

  // ---------------------------------------------------------------------------------
  // Attack grids: `grid[y][x]` is Untried, Miss or Hit.

  predicate IsGrid(g: seq<seq<int>>) {
    |g| == Dim && forall y :: 0 <= y < |g| ==> |g[y]| == Dim
  }

  /** A grid whose cells are all Untried, Miss or Hit. */
  predicate IsRecord(g: seq<seq<int>>) {
    IsGrid(g) && forall y, x :: 0 <= y < Dim && 0 <= x < Dim ==> Untried <= g[y][x] <= Hit
  }

  /** The all-untried grid of a new or reset game. */
  function ZeroGrid(): (g: seq<seq<int>>)
    ensures IsRecord(g)
    ensures forall y, x :: 0 <= y < Dim && 0 <= x < Dim ==> g[y][x] == Untried
  {
    seq(Dim, _ => seq(Dim, _ => Untried))
  }

  /** The cell `c` is on the board and marked Hit in `g`. */
  predicate HitAt(g: seq<seq<int>>, c: Cell) {
    IsGrid(g) && InBounds(c) && g[c.y][c.x] == Hit
  }

  /** `b` keeps every decided cell of `a`: cells only ever move away from Untried. */
  predicate Grows(a: seq<seq<int>>, b: seq<seq<int>>)
    requires IsGrid(a) && IsGrid(b)
  {
    forall y, x :: 0 <= y < Dim && 0 <= x < Dim && a[y][x] != Untried ==> b[y][x] == a[y][x]
  }

  // ---------------------------------------------------------------------------------
  // Hit flags of a ship: one boolean per cell.

  /** A ship is destroyed when every one of its hit flags is set. */
  predicate Sunk(hits: seq<bool>) {
    forall i :: 0 <= i < |hits| ==> hits[i]
  }

  /** Number of set hit flags. */
  function CountHits(hits: seq<bool>): (n: nat)
    ensures n <= |hits|
  {
    if hits == [] then 0 else (if hits[0] then 1 else 0) + CountHits(hits[1..])
  }

  lemma {:induction false} SunkIffAllCounted(hits: seq<bool>)
    ensures Sunk(hits) <==> CountHits(hits) == |hits|
  {
    if hits != [] {
      SunkIffAllCounted(hits[1..]);
      if Sunk(hits) {
        assert Sunk(hits[1..]) by {
          forall i | 0 <= i < |hits[1..]| ensures hits[1..][i] { assert hits[1..][i] == hits[i + 1]; }
        }
      } else if CountHits(hits) == |hits| {
        assert hits[0] && CountHits(hits[1..]) == |hits[1..]|;
        forall i | 0 <= i < |hits| ensures hits[i] {
          if i > 0 { assert hits[1..][i - 1] == hits[i]; }
        }
        assert false;
      }
    }
  }

  /** The flags after one more hit on a ship, recorded in the first unset flag; a
      destroyed ship's flags stay as they are. */
  function MarkFirstUnhit(hits: seq<bool>): (r: seq<bool>)
    ensures |r| == |hits|
    ensures forall i :: 0 <= i < |hits| && hits[i] ==> r[i]
    ensures CountHits(r) == if Sunk(hits) then CountHits(hits) else CountHits(hits) + 1
  {
    if hits == [] then []
    else if !hits[0] then [true] + hits[1..]
    else
      assert Sunk(hits) <==> Sunk(hits[1..]) by {
        forall i | 0 <= i < |hits[1..]| ensures hits[1..][i] == hits[i + 1] { }
      }
      [true] + MarkFirstUnhit(hits[1..])
  }

  /** When the flags before index `k` are set and flag `k` is not, one more hit sets exactly flag `k`. */
  lemma {:induction false} MarkFirstUnhitAt(hits: seq<bool>, k: nat)
    requires k < |hits| && !hits[k]
    requires forall j :: 0 <= j < k ==> hits[j]
    ensures MarkFirstUnhit(hits) == hits[k := true]
  {
    if k > 0 {
      MarkFirstUnhitAt(hits[1..], k - 1);
      assert hits[1..][k - 1 := true] == hits[k := true][1..];
    }
  }

  /** One more hit on a destroyed ship changes nothing. */
  lemma {:induction false} MarkFirstUnhitSunk(hits: seq<bool>)
    requires Sunk(hits)
    ensures MarkFirstUnhit(hits) == hits
  {
    if hits != [] {
      assert Sunk(hits[1..]) by {
        forall i | 0 <= i < |hits[1..]| ensures hits[1..][i] { assert hits[1..][i] == hits[i + 1]; }
      }
      MarkFirstUnhitSunk(hits[1..]);
      assert hits == [true] + hits[1..];
    }
  }

  /** The hit flags of an own ship after the opponent's attack grid `g` arrives: flag `i`
      becomes set when the ship's `i`-th location is marked Hit, and no flag is cleared. */
  function Absorb(hits: seq<bool>, locations: seq<Cell>, g: seq<seq<int>>): (r: seq<bool>)
    ensures |r| == |hits|
  {
    seq(|hits|, i requires 0 <= i < |hits| => hits[i] || (i < |locations| && HitAt(g, locations[i])))
  }

  /** Absorbing an attack grid never clears a flag, and a ship all of whose cells are marked
      Hit in the grid is destroyed afterwards. */
  lemma AbsorbKeepsAndSinks(hits: seq<bool>, locations: seq<Cell>, g: seq<seq<int>>)
    ensures forall i :: 0 <= i < |hits| && hits[i] ==> Absorb(hits, locations, g)[i]
    ensures |locations| >= |hits| && (forall c :: c in locations ==> HitAt(g, c)) ==>
            Sunk(Absorb(hits, locations, g))
  {
    if |locations| >= |hits| && (forall c :: c in locations ==> HitAt(g, c)) {
      forall i | 0 <= i < |hits| ensures Absorb(hits, locations, g)[i] {
        assert locations[i] in locations;
      }
    }
  }

  /** Absorbing the same grid twice is the same as absorbing it once. */
  lemma AbsorbIdempotent(hits: seq<bool>, locations: seq<Cell>, g: seq<seq<int>>)
    ensures Absorb(Absorb(hits, locations, g), locations, g) == Absorb(hits, locations, g)
  {
  }
}
