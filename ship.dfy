/** A ship (src/ship.py): the record the game window reads and updates in place. Drawing is
    not modelled; the widget extents are kept as the two numbers `width` and `height`. */
module Ships {
  import opened Board
  import opened Grids

  /** Every field of a ship at one moment, the anchor tile given by its indices. The window's
      invariant and its operations are stated on these values. */
  datatype ShipState = ShipState(
    length: nat, anchor: Cell, valid: bool, placed: bool, retired: bool, horizontal: bool,
    locations: seq<Cell>, hits: seq<bool>, width: int, height: int)

  /** A ship just built on `tile`: not valid, unplaced, in play, no locations, no hits,
      `length` tiles across and one tile down. */
  function NewShip(length: nat, tile: Tile, horizontal: bool): (s: ShipState)
    ensures s.length == length && s.anchor == tile.Index() && s.horizontal == horizontal
    ensures !s.valid && !s.placed && !s.retired && s.locations == []
    ensures |s.hits| == length && (forall i :: 0 <= i < length ==> !s.hits[i]) && CountHits(s.hits) == 0
    ensures s.width == tile.w * length && s.height == tile.h
    ensures ShipOk(s)
  {
    var s := ShipState(length, Cell(tile.xInd, tile.yInd), false, false, false, horizontal, [], seq(length, _ => false),
                       tile.w * length, tile.h);
    NoHitsCounted(s.hits);
    s
  }

  /** One hit flag per cell of the ship, and no more locations than cells. */
  predicate ShipOk(s: ShipState) {
    |s.hits| == s.length && |s.locations| <= s.length
  }

  /** The cells a ship covers according to its anchor tile, length and orientation. */
  function Footprint(s: ShipState): seq<Cell> {
    Cells(s.anchor.x, s.anchor.y, s.length, s.horizontal)
  }

  /** A quarter turn: the orientation flips and the two extents swap. */
  function Rotated(s: ShipState): ShipState {
    s.(horizontal := !s.horizontal, width := s.height, height := s.width)
  }

  /** Turning twice gives the ship back unchanged, and turning keeps its length and its hits. */
  lemma RotatedTwice(s: ShipState)
    ensures Rotated(Rotated(s)) == s
    ensures ShipOk(Rotated(s)) == ShipOk(s)
  {
  }

  /** The part of a game reset that both fleets share: back on the hidden starting tile
      `home`, unplaced, not valid, unhit and horizontal. */
  function Stowed(s: ShipState, home: Tile): (r: ShipState)
    ensures ShipOk(s) ==> ShipOk(r)
    ensures r.anchor == home.Index() && !r.placed && !r.valid && r.horizontal && CountHits(r.hits) == 0
    ensures r.length == s.length && r.retired == s.retired && r.locations == s.locations
    ensures r.width == s.width && r.height == s.height
  {
    var r := s.(anchor := Cell(home.xInd, home.yInd), placed := false, valid := false,
                hits := seq(s.length, _ => false), horizontal := true);
    NoHitsCounted(r.hits);
    r
  }

  /** No set flag, no count. */
  lemma {:induction false} NoHitsCounted(hits: seq<bool>)
    requires forall i :: 0 <= i < |hits| ==> !hits[i]
    ensures CountHits(hits) == 0
  {
    if hits != [] {
      assert forall i :: 0 <= i < |hits[1..]| ==> hits[1..][i] == hits[i + 1];
      NoHitsCounted(hits[1..]);
    }
  }

  class Ship {
    /** Number of tiles the ship takes up. */
    const length: nat
    /** The anchor: the top-left tile the ship sits on. */
    var tile: Tile
    /** Whether the ship is drawn as a legal position. */
    var valid: bool
    var placed: bool
    /** Set on the ships of a finished opponent; the game ignores retired ships. */
    var retired: bool
    var horizontal: bool
    /** Every tile index the ship covers, filled in by the game window. */
    var locations: seq<Cell>
    /** One flag per cell: whether that part of the ship has been hit. */
    var hits: seq<bool>
    var width: int
    var height: int

    ghost function State(): ShipState
      reads this
    {
      ShipState(length, Cell(tile.xInd, tile.yInd), valid, placed, retired, horizontal, locations, hits, width, height)
    }

    /** A new, hidden ship on `tile`, horizontal unless told otherwise. */
    constructor (length: nat, tile: Tile, orientH: bool := true)
      ensures State() == NewShip(length, tile, orientH)
    {
      this.length := length;
      this.tile := tile;
      valid, placed, retired := false, false, false;
      horizontal := orientH;
      locations := [];
      hits := seq(length, _ => false);
      width, height := tile.w * length, tile.h;
    }

    /** Turns the ship a quarter. */
    method Rotate()
      modifies this`horizontal, this`width, this`height
      ensures State() == Rotated(old(State()))
    {
      width, height := height, width;
      horizontal := !horizontal;
    }
  }

  /** Rotating a ship twice gives back its orientation and its extents. */
  method RotateTwice(s: Ship)
    modifies s
    ensures s.State() == old(s.State())
  {
    s.Rotate();
    s.Rotate();
    RotatedTwice(old(s.State()));
  }
}
