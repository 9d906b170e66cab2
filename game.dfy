/** The game logic of the window (window.py: BattleWin) as a function of the window's state.
    `World` holds exactly the fields the window keeps, each ship as the value of its fields;
    each operation of the window is a function from one `World` to the next, and the window's
    invariant `Good` is proved to survive every one of them. */
module Game {
  import opened Board
  import opened Protocol
  import opened Grids
  import opened Ships

  /** Number of own ships; ship `k` has length `k + 1`. */
  const FleetSize: int := 4

  /** What the window is connected to. A server first waits for its one opponent. */
  datatype Connection = NoConnection | Server(accepted: bool) | Client

  /** Which end-of-game popups `check_gameover` opens: a loss, a win, both or neither. */
  datatype GameOver = GameOver(lost: bool, won: bool)

  /** No popup. */
  const Playing := GameOver(false, false)

  datatype World = World(
    own: seq<ShipState>,      // my ships, in placing order
    enemy: seq<ShipState>,    // the opponent's ships of this and of earlier games
    placing: int,             // index of the ship being placed, or -1
    placed: bool,             // all my ships are down
    enemyPlaced: bool,        // the opponent's fleet of this game has arrived
    turn: bool,               // it is my turn to attack
    connection: Connection,
    hitList: seq<seq<int>>,   // the opponent's attacks on me, as last received
    eHitList: seq<seq<int>>,  // my attacks on the opponent
    enemyName: string)

  /** Not yet in touch with an opponent. */
  predicate Idle(c: Connection) {
    c.NoConnection? || c == Server(false)
  }

  // ---------------------------------------------------------------------------------
  // The invariant

  /** Ship `k` has length `k + 1` and one hit flag per cell. */
  predicate Shaped(own: seq<ShipState>, k: int)
    requires 0 <= k < |own|
  {
    own[k].length == k + 1 && ShipOk(own[k])
  }

  predicate FleetShape(own: seq<ShipState>) {
    |own| == FleetSize && forall k :: 0 <= k < |own| ==> Shaped(own, k)
  }

  /** How many of my ships are down: all of them once placing is over. */
  function Progress(w: World): int {
    if w.placed then FleetSize else if w.placing >= 0 then w.placing else 0
  }

  /** Ship `k` is down exactly when it comes before the one being placed. */
  predicate Ordered(w: World, k: int)
    requires 0 <= k < |w.own|
  {
    w.own[k].placed <==> k < Progress(w)
  }

  /** Ships are placed in index order. */
  predicate InOrder(w: World) {
    -1 <= w.placing < |w.own| && (w.placed ==> w.placing == -1) &&
    forall k :: 0 <= k < |w.own| ==> Ordered(w, k)
  }

  /** Ship `k`, once placed, covers the cells its anchor and orientation give, all on the board. */
  predicate Lies(own: seq<ShipState>, k: int)
    requires 0 <= k < |own|
  {
    own[k].placed ==> own[k].locations == Footprint(own[k]) && InGrid(own[k].locations)
  }

  /** Ships `k` and `l`, if both placed, share no cell. */
  predicate Apart(own: seq<ShipState>, k: int, l: int)
    requires 0 <= k < |own| && 0 <= l < |own|
  {
    own[k].placed && own[l].placed ==> !Meets(own[k].locations, own[l].locations)
  }

  /** Every placed ship lies on its own cells on the board, and no two placed ships share a cell. */
  predicate Layout(own: seq<ShipState>) {
    (forall k :: 0 <= k < |own| ==> Lies(own, k)) &&
    (forall k, l :: 0 <= k < l < |own| ==> Apart(own, k, l))
  }

  /** Enemy ship `i` has one hit flag per cell, and before the opponent's fleet of this game
      arrives it is retired. */
  predicate Kept(w: World, i: int)
    requires 0 <= i < |w.enemy|
  {
    ShipOk(w.enemy[i]) && (!w.enemyPlaced ==> w.enemy[i].retired)
  }

  predicate EnemyShape(w: World) {
    forall i :: 0 <= i < |w.enemy| ==> Kept(w, i)
  }

  /** Everything the window keeps true, except the link between the connection and placing. */
  predicate Sound(w: World) {
    FleetShape(w.own) && InOrder(w) && Layout(w.own) && EnemyShape(w) &&
    IsRecord(w.eHitList) && IsGrid(w.hitList)
  }

  /** Placing only happens once an opponent is there. */
  predicate Good(w: World) {
    Sound(w) && (Idle(w.connection) ==> w.placing == -1 && !w.placed)
  }

  /** The enemy part of the invariant only looks at the enemy ships and whether their fleet
      has arrived. */
  lemma EnemyShapeFrom(w: World, v: World)
    requires EnemyShape(w) && v.enemy == w.enemy && v.enemyPlaced == w.enemyPlaced
    ensures EnemyShape(v)
  {
    forall i | 0 <= i < |v.enemy| ensures Kept(v, i) {
      assert Kept(w, i);
    }
  }

  /** The invariant only looks at the ships, at how many of mine are down and at the records,
      so a state that agrees with a sound one on those is sound. */
  lemma SoundFrom(w: World, v: World)
    requires Sound(w) && v.own == w.own && v.enemy == w.enemy && v.enemyPlaced == w.enemyPlaced
    requires -1 <= v.placing < |v.own| && (v.placed ==> v.placing == -1) && Progress(v) == Progress(w)
    requires IsRecord(v.eHitList) && IsGrid(v.hitList)
    ensures Sound(v)
  {
    forall k | 0 <= k < |v.own| ensures Ordered(v, k) {
      assert Ordered(w, k);
    }
    EnemyShapeFrom(w, v);
  }

  /** The window of a new program: four hidden ships on `home`, no opponent, empty records. */
  function Initial(home: Tile): World {
    World(seq(FleetSize, k requires 0 <= k < FleetSize => NewShip(k + 1, home, true)), [], -1,
          false, false, false, NoConnection, ZeroGrid(), ZeroGrid(), "ENEMY")
  }

  /** A new window keeps the invariant: no ship is down and there is no opponent yet. */
  lemma InitialGood(home: Tile)
    ensures Good(Initial(home)) && !SomeActive(Initial(home).enemy)
    ensures forall k :: 0 <= k < FleetSize ==> CountHits(Initial(home).own[k].hits) == 0
  {
    var w := Initial(home);
    forall k | 0 <= k < |w.own| ensures Shaped(w.own, k) && Ordered(w, k) && Lies(w.own, k) {
    }
    forall k, l | 0 <= k < l < |w.own| ensures Apart(w.own, k, l) {
    }
  }

  // ---------------------------------------------------------------------------------
  // Connecting

  /** start_placing. */
  function StartPlacing(w: World): World {
    w.(placing := 0)
  }

  /** host_cb, connected_cb and conn_cb keep the invariant: a placement only starts once the
      connection is no longer idle. */
  lemma ConnectingKeepsGood(w: World)
    requires Good(w) && w.connection.NoConnection?
    ensures Good(w.(connection := Server(false)))
    ensures Good(StartPlacing(w.(connection := Client)))
    ensures Good(StartPlacing(w.(connection := Server(true))))
  {
    SoundFrom(w, w.(connection := Server(false)));
    SoundFrom(w, StartPlacing(w.(connection := Client)));
    SoundFrom(w, StartPlacing(w.(connection := Server(true))));
  }

  /** Placing may start once an opponent is there. */
  lemma StartPlacingGood(w: World)
    requires Good(w) && !Idle(w.connection) && w.placing == -1 && !w.placed
    ensures Good(StartPlacing(w))
  {
    SoundFrom(w, StartPlacing(w));
  }

  // ---------------------------------------------------------------------------------
  // Placement

  /** The cells the ship being placed would cover with its anchor on `anchor`. */
  function Candidate(w: World, anchor: Cell): seq<Cell>
    requires 0 <= w.placing < |w.own|
  {
    Cells(anchor.x, anchor.y, w.own[w.placing].length, w.own[w.placing].horizontal)
  }

  /** The ship being placed, anchored on `anchor`, would share a cell with another placed ship. */
  predicate Overlaps(w: World, anchor: Cell)
    requires 0 <= w.placing < |w.own|
  {
    exists k :: 0 <= k < |w.own| && k != w.placing && w.own[k].placed &&
                Meets(Footprint(w.own[k]), Candidate(w, anchor))
  }

  /** A placement on `anchor` is accepted: the tile is on my grid (`onGrid`), the ship stays on
      the board and overlaps no other placed ship. */
  predicate Accepts(w: World, anchor: Cell, onGrid: bool)
    requires 0 <= w.placing < |w.own|
  {
    onGrid && InGrid(Candidate(w, anchor)) && !Overlaps(w, anchor)
  }

  /** start_game: the server moves first. */
  function BeginGame(w: World): World {
    w.(turn := w.turn || w.connection.Server?)
  }

  /** Some ship of the opponent's fleet is in play. */
  predicate SomeActive(enemy: seq<ShipState>) {
    exists i :: 0 <= i < |enemy| && !enemy[i].retired
  }

  /** all_placed: placing is over; the game starts if the opponent's fleet is in play. */
  function FinishPlacing(w: World): World {
    var d := w.(placing := -1, placed := true);
    if SomeActive(d.enemy) then BeginGame(d) else d
  }

  /** The ship being placed put down on `anchor`: it covers the candidate cells. */
  function Settled(w: World, anchor: Cell): World
    requires 0 <= w.placing < |w.own|
  {
    var k := w.placing;
    w.(own := w.own[k := w.own[k].(anchor := anchor, placed := true, valid := true,
                                   locations := Candidate(w, anchor))])
  }

  /** place_boat: an accepted placement puts the ship down on its cells and moves on to the
      next ship, or finishes placing after the last one; a rejected one changes nothing. */
  function Place(w: World, anchor: Cell, onGrid: bool): World
    requires 0 <= w.placing < |w.own|
  {
    if !Accepts(w, anchor, onGrid) then w
    else if w.placing < |w.own| - 1 then Settled(w, anchor).(placing := w.placing + 1)
    else FinishPlacing(Settled(w, anchor))
  }

  /** The message all_placed sends: one record per own ship, in order. */
  function FleetMessage(w: World): Message {
    Fleet(seq(|w.own|, k requires 0 <= k < |w.own| =>
      FleetRecord(w.own[k].length, w.own[k].anchor.x, w.own[k].anchor.y, w.own[k].horizontal)))
  }

  /** The last ship is down and placing is about to end. */
  predicate LastDown(w: World) {
    FleetShape(w.own) && Layout(w.own) && EnemyShape(w) && IsRecord(w.eHitList) && IsGrid(w.hitList) &&
    !Idle(w.connection) && w.placing == |w.own| - 1 && !w.placed &&
    forall k :: 0 <= k < |w.own| ==> w.own[k].placed
  }

  lemma FinishPlacingGood(w: World)
    requires LastDown(w)
    ensures Good(FinishPlacing(w)) && FinishPlacing(w).placing == -1 && FinishPlacing(w).placed
    ensures FinishPlacing(w).turn == (w.turn || (SomeActive(w.enemy) && w.connection.Server?))
  {
    var d := w.(placing := -1, placed := true);
    forall k | 0 <= k < |d.own| ensures Ordered(d, k) {
    }
    EnemyShapeFrom(w, d);
    SoundFrom(d, BeginGame(d));
  }

  /** An accepted ship anchored on the board lies on the board and meets no other placed ship,
      so every placement keeps my fleet disjoint and on the board. */
  lemma PlaceKeepsGood(w: World, anchor: Cell, onGrid: bool)
    requires Good(w) && w.placing >= 0
    ensures Good(Place(w, anchor, onGrid))
    ensures Accepts(w, anchor, onGrid) && w.placing < |w.own| - 1 ==>
      Place(w, anchor, onGrid) == Settled(w, anchor).(placing := w.placing + 1)
    ensures Accepts(w, anchor, onGrid) && w.placing == |w.own| - 1 ==>
      Place(w, anchor, onGrid) == FinishPlacing(Settled(w, anchor)) && LastDown(Settled(w, anchor))
  {
    if Accepts(w, anchor, onGrid) {
      var k := w.placing;
      var d := Settled(w, anchor);
      var own := d.own;
      forall j | 0 <= j < |own| ensures Shaped(own, j) && Lies(own, j) {
        assert Shaped(w.own, j) && Lies(w.own, j);
      }
      forall i, j | 0 <= i < j < |own| ensures Apart(own, i, j) {
        assert Apart(w.own, i, j) && Ordered(w, i) && Ordered(w, j) && Lies(w.own, i);
        if j == k && own[i].placed {
          assert !Meets(Footprint(w.own[i]), Candidate(w, anchor));
        }
      }
      EnemyShapeFrom(w, d);
      if k < |w.own| - 1 {
        var v := d.(placing := k + 1);
        forall j | 0 <= j < |own| ensures Ordered(v, j) {
          assert Ordered(w, j);
        }
        EnemyShapeFrom(w, v);
      } else {
        forall j | 0 <= j < |own| ensures own[j].placed {
          assert Ordered(w, j);
        }
        FinishPlacingGood(d);
      }
    }
  }

  /** A placement attempt places exactly one more ship when it is accepted and none otherwise. */
  lemma PlaceAdvances(w: World, anchor: Cell, onGrid: bool)
    requires Good(w) && w.placing >= 0
    ensures Progress(Place(w, anchor, onGrid)) == Progress(w) + if Accepts(w, anchor, onGrid) then 1 else 0
    ensures !Accepts(w, anchor, onGrid) ==> Place(w, anchor, onGrid) == w
  {
  }

  /** The fleet message of a window whose ships are down rebuilds exactly the cells of those
      ships, each record anchored on the board. */
  lemma FleetMessageRebuilds(w: World)
    requires Good(w) && w.placed
    ensures FleetMessage(w).Fleet? && |FleetMessage(w).ships| == |w.own|
    ensures OnBoard(FleetMessage(w).ships)
    ensures forall k :: 0 <= k < |w.own| ==> Described(FleetMessage(w).ships[k]) == w.own[k].locations
  {
    var recs := FleetMessage(w).ships;
    forall k | 0 <= k < |w.own|
      ensures InBounds(Cell(recs[k].x, recs[k].y)) && Described(recs[k]) == w.own[k].locations
    {
      assert Ordered(w, k) && Lies(w.own, k) && Shaped(w.own, k);
      assert w.own[k].locations[0] in w.own[k].locations;
    }
  }

  /** The rotate branch of handle: a right click turns the ship being placed, if any. */
  function RotateCurrent(w: World): World {
    if 0 <= w.placing < |w.own| then w.(own := w.own[w.placing := Rotated(w.own[w.placing])]) else w
  }

  /** Turning the ship being placed keeps the invariant (that ship is not down yet), and
      turning it twice undoes the first turn. */
  lemma RotateCurrentGood(w: World)
    requires Good(w)
    ensures Good(RotateCurrent(w))
    ensures RotateCurrent(RotateCurrent(w)) == w
  {
    if 0 <= w.placing < |w.own| {
      var p := w.placing;
      var v := RotateCurrent(w);
      RotatedTwice(w.own[p]);
      assert !w.own[p].placed by {
        assert Ordered(w, p);
      }
      forall j | 0 <= j < |v.own| ensures Shaped(v.own, j) && Ordered(v, j) && Lies(v.own, j) {
        assert Shaped(w.own, j) && Ordered(w, j) && Lies(w.own, j);
      }
      forall i, j | 0 <= i < j < |v.own| ensures Apart(v.own, i, j) {
        assert Apart(w.own, i, j);
      }
      EnemyShapeFrom(w, v);
      assert w.own[p := Rotated(w.own[p])][p := w.own[p]] == w.own;
    }
  }

  // ---------------------------------------------------------------------------------
  // Attacking

  /** Enemy ship `s` is in play and covers cell `c`. */
  predicate Holds(s: ShipState, c: Cell) {
    !s.retired && c in s.locations
  }

  /** The first enemy ship from index `from` on that is in play and covers `c`, or -1. */
  function FirstHolder(enemy: seq<ShipState>, c: Cell, from: nat): (k: int)
    ensures k == -1 || (from <= k < |enemy| && Holds(enemy[k], c))
    ensures k == -1 || forall i :: from <= i < k ==> !Holds(enemy[i], c)
    ensures k == -1 <==> forall i :: from <= i < |enemy| ==> !Holds(enemy[i], c)
    decreases |enemy| - from
  {
    if from >= |enemy| then -1
    else if Holds(enemy[from], c) then from
    else FirstHolder(enemy, c, from + 1)
  }

  /** A click on the tile with indices `c` is an attack: it is my turn, the tile is on the enemy
      grid (`onGrid`), and I have not tried that cell yet. */
  predicate Attackable(w: World, c: Cell, onGrid: bool) {
    w.turn && onGrid && IsGrid(w.eHitList) && InBounds(c) && w.eHitList[c.y][c.x] == Untried
  }

  /** tile_clicked, for an attack on `c`: the cell becomes Hit when some enemy ship in play
      covers it, and that ship (the first such) takes one more hit; otherwise it becomes Miss. */
  function Resolved(w: World, c: Cell): World
    requires IsGrid(w.eHitList) && InBounds(c)
  {
    var k := FirstHolder(w.enemy, c, 0);
    var v := if k >= 0 then Hit else Miss;
    w.(eHitList := w.eHitList[c.y := w.eHitList[c.y][c.x := v]],
       enemy := if k >= 0 then w.enemy[k := w.enemy[k].(hits := MarkFirstUnhit(w.enemy[k].hits))] else w.enemy)
  }

  /** tile_clicked, for an attack on `c`: the attack is resolved and my turn ends. */
  function Strike(w: World, c: Cell): World
    requires IsGrid(w.eHitList) && InBounds(c)
  {
    Resolved(w, c).(turn := false)
  }

  /** An attack decides exactly the attacked cell, as Hit iff some enemy ship in play covers it,
      and leaves every other cell of my record alone. */
  lemma StrikeRecord(w: World, c: Cell, onGrid: bool)
    requires IsRecord(w.eHitList) && Attackable(w, c, onGrid)
    ensures var r := Strike(w, c).eHitList;
      IsRecord(r) && Grows(w.eHitList, r) &&
      (r[c.y][c.x] == Hit <==> exists i :: 0 <= i < |w.enemy| && Holds(w.enemy[i], c)) &&
      (r[c.y][c.x] == Miss <==> forall i :: 0 <= i < |w.enemy| ==> !Holds(w.enemy[i], c)) &&
      forall y, x :: 0 <= y < Dim && 0 <= x < Dim && (y != c.y || x != c.x) ==> r[y][x] == w.eHitList[y][x]
  {
  }

  /** A hit lands on a ship in play: its count of hits goes up by one unless it was already
      destroyed, and no other enemy ship changes. */
  lemma StrikeHitsOnce(w: World, c: Cell)
    requires IsGrid(w.eHitList) && InBounds(c)
    ensures var k := FirstHolder(w.enemy, c, 0); var r := Strike(w, c).enemy;
      |r| == |w.enemy| &&
      (forall i :: 0 <= i < |r| && i != k ==> r[i] == w.enemy[i]) &&
      (k >= 0 ==> !r[k].retired && c in r[k].locations &&
                  CountHits(r[k].hits) == CountHits(w.enemy[k].hits) + if Sunk(w.enemy[k].hits) then 0 else 1)
  {
  }

  lemma StrikeKeepsGood(w: World, c: Cell, onGrid: bool)
    requires Good(w) && Attackable(w, c, onGrid)
    ensures Good(Strike(w, c))
  {
    StrikeRecord(w, c, onGrid);
    var v := Strike(w, c);
    forall k | 0 <= k < |v.own| ensures Ordered(v, k) {
      assert Ordered(w, k);
    }
    forall i | 0 <= i < |v.enemy| ensures Kept(v, i) {
      assert Kept(w, i);
    }
  }

  /** What check_gameover reports: a loss when every one of my ships is destroyed, a win when
      every enemy ship in play is destroyed. */
  function Verdict(w: World): GameOver {
    GameOver(forall k :: 0 <= k < |w.own| ==> Sunk(w.own[k].hits),
             forall i :: 0 <= i < |w.enemy| && !w.enemy[i].retired ==> Sunk(w.enemy[i].hits))
  }

  // ---------------------------------------------------------------------------------
  // Receiving

  /** update_boat_hits, for every own ship. */
  function AbsorbAll(own: seq<ShipState>, g: seq<seq<int>>): seq<ShipState> {
    seq(|own|, k requires 0 <= k < |own| => own[k].(hits := Absorb(own[k].hits, own[k].locations, g)))
  }

  /** The last branch of recv_data: the opponent's attack grid replaces my record of its
      attacks, my ships absorb it, and it becomes my turn. */
  function Absorbed(w: World, g: seq<seq<int>>): World {
    w.(hitList := g, own := AbsorbAll(w.own, g), turn := true)
  }

  /** Absorbing an attack grid keeps the invariant, clears no hit flag, changes nothing but the
      hit flags of my ships, and destroys every placed ship all of whose cells it marks Hit. */
  lemma AbsorbedKeepsGood(w: World, g: seq<seq<int>>)
    requires Good(w) && IsGrid(g)
    ensures Good(Absorbed(w, g))
    ensures forall k :: 0 <= k < |w.own| ==>
      Absorbed(w, g).own[k] == w.own[k].(hits := Absorbed(w, g).own[k].hits) &&
      (forall j :: 0 <= j < |w.own[k].hits| && w.own[k].hits[j] ==> Absorbed(w, g).own[k].hits[j])
    ensures forall k :: (0 <= k < |w.own| && w.own[k].placed &&
                         forall c :: c in w.own[k].locations ==> HitAt(g, c)) ==>
      Sunk(Absorbed(w, g).own[k].hits)
  {
    var v := Absorbed(w, g);
    forall k | 0 <= k < |w.own|
      ensures forall j :: 0 <= j < |w.own[k].hits| && w.own[k].hits[j] ==> v.own[k].hits[j]
      ensures w.own[k].placed && (forall c :: c in w.own[k].locations ==> HitAt(g, c)) ==>
              Sunk(v.own[k].hits)
      ensures Shaped(v.own, k) && Ordered(v, k) && Lies(v.own, k)
    {
      AbsorbKeepsAndSinks(w.own[k].hits, w.own[k].locations, g);
      assert Shaped(w.own, k) && Ordered(w, k) && Lies(w.own, k);
    }
    forall i, j | 0 <= i < j < |v.own| ensures Apart(v.own, i, j) {
      assert Apart(w.own, i, j);
    }
    EnemyShapeFrom(w, v);
  }

  /** Once all my ships are down, an attack grid marking every one of their cells Hit makes
      check_gameover report a loss. */
  lemma FullyHitFleetLoses(w: World, g: seq<seq<int>>)
    requires Good(w) && w.placed && IsGrid(g)
    requires forall k, c :: 0 <= k < |w.own| && c in w.own[k].locations ==> HitAt(g, c)
    ensures Verdict(Absorbed(w, g)).lost
  {
    AbsorbedKeepsGood(w, g);
    forall k | 0 <= k < |w.own| ensures w.own[k].placed {
      assert Ordered(w, k);
    }
  }

  /** The tiles of a well-formed 10 x 10 grid: `tiles[y][x]` has indices (x, y). */
  predicate TileGrid(tiles: seq<seq<Tile>>) {
    |tiles| == Dim &&
    forall y :: 0 <= y < Dim ==>
      |tiles[y]| == Dim && forall x :: 0 <= x < Dim ==> tiles[y][x].xInd == x && tiles[y][x].yInd == y
  }

  /** A ship of the opponent's fleet as first built from its record, on `tile`. */
  function Built(r: FleetRecord, tile: Tile): ShipState {
    NewShip(r.length, tile, r.horizontal)
  }

  /** get_enemy_boats' second loop, for one ship: valid, placed, on the cells its anchor gives. */
  function Deployed(s: ShipState): ShipState {
    s.(valid := true, placed := true, locations := Footprint(s))
  }

  /** get_enemy_boats: one new ship per record is added to the enemy fleet, every enemy ship is
      deployed, and the game starts if my own fleet is already down. */
  function AddFleet(w: World, recs: seq<FleetRecord>, tiles: seq<seq<Tile>>): World
    requires OnBoard(recs) && TileGrid(tiles)
  {
    var all := w.enemy + seq(|recs|, j requires 0 <= j < |recs| => Built(recs[j], tiles[recs[j].y][recs[j].x]));
    var d := w.(enemyPlaced := true, enemy := seq(|all|, i requires 0 <= i < |all| => Deployed(all[i])));
    if w.placed then BeginGame(d) else d
  }

  /** After a fleet arrives, the ships of earlier games stay retired, and one ship per record
      is in play, unhit, of the record's length and orientation, on the cells it describes. */
  lemma AddFleetRebuilds(w: World, recs: seq<FleetRecord>, tiles: seq<seq<Tile>>)
    requires EnemyShape(w) && !w.enemyPlaced && OnBoard(recs) && TileGrid(tiles)
    ensures var e := AddFleet(w, recs, tiles).enemy;
      |e| == |w.enemy| + |recs| &&
      (forall i :: 0 <= i < |w.enemy| ==> e[i].retired) &&
      forall j :: 0 <= j < |recs| ==>
        var s := e[|w.enemy| + j];
        !s.retired && s.placed && s.length == recs[j].length && s.horizontal == recs[j].horizontal &&
        s.locations == Described(recs[j]) && CountHits(s.hits) == 0
  {
    forall i | 0 <= i < |w.enemy| ensures w.enemy[i].retired {
      assert Kept(w, i);
    }
  }

  lemma AddFleetKeepsGood(w: World, recs: seq<FleetRecord>, tiles: seq<seq<Tile>>)
    requires Good(w) && !w.enemyPlaced && OnBoard(recs) && TileGrid(tiles)
    ensures Good(AddFleet(w, recs, tiles)) && AddFleet(w, recs, tiles).enemyPlaced
    ensures AddFleet(w, recs, tiles).turn == (w.turn || (w.placed && w.connection.Server?))
  {
    var all := w.enemy + seq(|recs|, j requires 0 <= j < |recs| => Built(recs[j], tiles[recs[j].y][recs[j].x]));
    var d := w.(enemyPlaced := true, enemy := seq(|all|, i requires 0 <= i < |all| => Deployed(all[i])));
    forall i | 0 <= i < |all| ensures ShipOk(all[i]) {
      if i < |w.enemy| {
        assert Kept(w, i);
      }
    }
    forall i | 0 <= i < |d.enemy| ensures Kept(d, i) {
    }
    forall k | 0 <= k < |d.own| ensures Ordered(d, k) {
      assert Ordered(w, k);
    }
    SoundFrom(d, BeginGame(d));
  }

  /** My fleet message, received by an opponent whose own invariant holds, rebuilds on their
      side exactly my ships' cells, in play and unhit. */
  lemma FleetRoundTrip(mine: World, theirs: World, tiles: seq<seq<Tile>>)
    requires Good(mine) && mine.placed && EnemyShape(theirs) && !theirs.enemyPlaced && TileGrid(tiles)
    ensures OnBoard(FleetMessage(mine).ships)
    ensures var e := AddFleet(theirs, FleetMessage(mine).ships, tiles).enemy;
      |e| == |theirs.enemy| + |mine.own| &&
      forall k :: 0 <= k < |mine.own| ==>
        var s := e[|theirs.enemy| + k];
        !s.retired && s.locations == mine.own[k].locations && CountHits(s.hits) == 0
  {
    FleetMessageRebuilds(mine);
    AddFleetRebuilds(theirs, FleetMessage(mine).ships, tiles);
  }

  /** recv_data: a user name names the opponent, with "2" appended when it is my own name `user`;
      a fleet before the opponent's fleet is in play builds it; otherwise an attack grid is
      absorbed. */
  function Receive(w: World, msg: Message, user: string, tiles: seq<seq<Tile>>): World
    requires msg.Fleet? ==> !w.enemyPlaced && OnBoard(msg.ships)
    requires msg.HitGrid? ==> w.enemyPlaced
    requires TileGrid(tiles)
  {
    if msg.Identity? then w.(enemyName := if msg.name == user then msg.name + "2" else msg.name)
    else if !w.enemyPlaced then AddFleet(w, msg.ships, tiles)
    else Absorbed(w, msg.grid)
  }

  lemma ReceiveKeepsGood(w: World, msg: Message, user: string, tiles: seq<seq<Tile>>)
    requires Good(w) && TileGrid(tiles)
    requires msg.Fleet? ==> !w.enemyPlaced && OnBoard(msg.ships)
    requires msg.HitGrid? ==> w.enemyPlaced && IsGrid(msg.grid)
    ensures Good(Receive(w, msg, user, tiles))
  {
    if msg.Identity? {
      SoundFrom(w, Receive(w, msg, user, tiles));
    } else if msg.Fleet? {
      AddFleetKeepsGood(w, msg.ships, tiles);
    } else {
      AbsorbedKeepsGood(w, msg.grid);
    }
  }

  // ---------------------------------------------------------------------------------
  // Resetting

  /** reset_game's loop over my ships. */
  function StowedFleet(own: seq<ShipState>, home: Tile): seq<ShipState> {
    seq(|own|, k requires 0 <= k < |own| => Stowed(own[k], home))
  }

  /** reset_game's loop over the enemy ships: each is stowed and retired. */
  function RetiredFleet(enemy: seq<ShipState>, home: Tile): seq<ShipState> {
    seq(|enemy|, i requires 0 <= i < |enemy| => Stowed(enemy[i], home).(retired := true))
  }

  /** reset_game: every ship is stowed on `home` and every enemy ship so far is retired; both
      records are cleared and placing and the game are off. */
  function Reset(w: World, home: Tile): World {
    w.(own := StowedFleet(w.own, home), enemy := RetiredFleet(w.enemy, home),
       placing := -1, placed := false, enemyPlaced := false, turn := false,
       hitList := ZeroGrid(), eHitList := ZeroGrid(), enemyName := "ENEMY")
  }

  /** A reset restores the invariant from any state that keeps the rest of it, keeps every
      ship but takes each off the board, horizontal and unhit, retires every enemy ship, and
      resetting twice is resetting once. */
  lemma ResetGood(w: World, home: Tile)
    requires Sound(w)
    ensures Good(Reset(w, home))
    ensures var r := Reset(w, home);
      |r.own| == |w.own| && |r.enemy| == |w.enemy| && !SomeActive(r.enemy) &&
      (forall k :: 0 <= k < |r.own| ==>
         !r.own[k].placed && r.own[k].horizontal && CountHits(r.own[k].hits) == 0) &&
      (forall i :: 0 <= i < |r.enemy| ==>
         r.enemy[i].retired && !r.enemy[i].placed && r.enemy[i].horizontal && CountHits(r.enemy[i].hits) == 0)
    ensures Reset(Reset(w, home), home) == Reset(w, home)
  {
    var v := Reset(w, home);
    forall k | 0 <= k < |v.own| ensures Shaped(v.own, k) && Ordered(v, k) && Lies(v.own, k) {
      assert Shaped(w.own, k);
    }
    forall i, j | 0 <= i < j < |v.own| ensures Apart(v.own, i, j) {
    }
    forall i | 0 <= i < |v.enemy| ensures Kept(v, i) {
      assert Kept(w, i);
    }
    var r := Reset(v, home);
    assert r.own == v.own;
    assert r.enemy == v.enemy;
  }

  /** disconn_cb. */
  function Disconnect(w: World, home: Tile): World {
    Reset(w.(connection := NoConnection), home)
  }

  // ---------------------------------------------------------------------------------
  // The left click of a tile

  /** Tile.handle, left button, on `tile`: while a ship is being placed the click places it
      (`onPlayer`: the tile is on my grid); otherwise it is an attack (`onEnemy`: the tile is on
      the enemy grid). */
  function LeftClick(w: World, c: Cell, onPlayer: bool, onEnemy: bool): World
    requires w.placing < |w.own|
  {
    if w.placing >= 0 then Place(w, c, onPlayer)
    else if Attackable(w, c, onEnemy) then Strike(w, c)
    else w
  }

  /** A click during placing never touches my attack record or the enemy ships; a click after
      it never touches my ships; either way the invariant holds afterwards. */
  lemma LeftClickRoutes(w: World, c: Cell, onPlayer: bool, onEnemy: bool)
    requires Good(w)
    ensures Good(LeftClick(w, c, onPlayer, onEnemy))
    ensures w.placing >= 0 ==>
      LeftClick(w, c, onPlayer, onEnemy).eHitList == w.eHitList &&
      LeftClick(w, c, onPlayer, onEnemy).enemy == w.enemy
    ensures w.placing < 0 ==>
      LeftClick(w, c, onPlayer, onEnemy).own == w.own &&
      LeftClick(w, c, onPlayer, onEnemy).placing == -1
  {
    if w.placing >= 0 {
      PlaceKeepsGood(w, c, onPlayer);
    } else if Attackable(w, c, onEnemy) {
      StrikeKeepsGood(w, c, onEnemy);
    }
  }
}
