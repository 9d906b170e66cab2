/** The three messages two games exchange, distinguished by their shape. Serialisation and
    framing belong to the transport and are not modelled. */
module Protocol {
  import opened Board

  datatype Option<+T> = None | Some(value: T)

  /** One ship of a fleet description: its length, anchor column, anchor row and orientation. */
  datatype FleetRecord = FleetRecord(length: nat, x: int, y: int, horizontal: bool)

  datatype Message =
    | Identity(name: string)              // the user name, sent once after connecting
    | Fleet(ships: seq<FleetRecord>)      // the whole own fleet, sent once all ships are placed
    | HitGrid(grid: seq<seq<int>>)        // the sender's full attack grid, sent after every attack

  /** The cells a described ship covers, once rebuilt by the receiver. */
  function Described(r: FleetRecord): seq<Cell> {
    Cells(r.x, r.y, r.length, r.horizontal)
  }

  /** Every record is anchored on a tile of the grid. */
  predicate OnBoard(recs: seq<FleetRecord>) {
    forall i :: 0 <= i < |recs| ==> InBounds(Cell(recs[i].x, recs[i].y))
  }
}
