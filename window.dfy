/** The game window (window.py: BattleWin) as a class over its own fields and the tiles of its
    two grids. Widgets, labels, popups and the socket are not modelled: a message the window
    would send is returned, a message it receives is an argument, the local user name is an
    argument, and the end-of-game popups are a returned `GameOver`. The window keeps every ship
    as the value of its fields (a `ShipState`) in a sequence it reassigns. Every method is
    proved against the function of module Game that gives the next state of the window. */
module Window {
  import opened Board
  import opened Protocol
  import opened Grids
  import opened Ships
  import opened Game

  class BattleWin {
    const playerGrid: Grid
    const enemyGrid: Grid
    /** My four ships, of lengths 1 to 4, in placing order. */
    var boats: seq<ShipState>
    /** The opponent's ships of this game and of every earlier one (those are retired). */
    var enemyBoats: seq<ShipState>
    var placing: int
    var placed: bool
    var enemyPlaced: bool
    var turn: bool
    var connection: Connection
    var hitList: seq<seq<int>>
    var eHitList: seq<seq<int>>
    var enemyName: string

    /** The window's state as a value. */
    function Model(): World
      reads this
    {
      World(boats, enemyBoats, placing, placed, enemyPlaced, turn, connection, hitList, eHitList, enemyName)
    }

    /** Both grids are 10 x 10 boards of tiles stored at their own indices. */
    ghost predicate BoardsOk()
      reads this, playerGrid, enemyGrid
    {
      playerGrid.Valid() && enemyGrid.Valid() &&
      playerGrid.r == Dim && playerGrid.c == Dim && enemyGrid.r == Dim && enemyGrid.c == Dim &&
      playerGrid != enemyGrid && playerGrid.Tiles() !! enemyGrid.Tiles()
    }

    /** Everything but the link between the connection and placing. */
    ghost predicate Consistent()
      reads this, playerGrid, enemyGrid
    {
      BoardsOk() && Sound(Model())
    }

    ghost predicate Valid()
      reads this, playerGrid, enemyGrid
    {
      BoardsOk() && Good(Model())
    }

    // ------------------------------------------------------------------------------
    // Setting up and connecting

    /** A new window: two grids of tiles `tileDim` pixels wide and four hidden ships of lengths
        1 to 4 parked on the enemy grid's first tile. */
    constructor (tileDim: int)
      ensures Valid() && Model() == Initial(enemyGrid.tiles[0][0])
      ensures forall y, x :: 0 <= y < Dim && 0 <= x < Dim ==>
        !playerGrid.tiles[y][x].hit && !playerGrid.tiles[y][x].miss &&
        !enemyGrid.tiles[y][x].hit && !enemyGrid.tiles[y][x].miss
    {
      var pg := new Grid(Dim, Dim, tileDim);
      var eg := new Grid(Dim, Dim, tileDim);
      assert pg.Tiles() !! eg.Tiles() by {
        forall t | t in pg.Tiles() ensures t !in eg.Tiles() {
          var y, x :| 0 <= y < |pg.tiles| && 0 <= x < |pg.tiles[y]| && pg.tiles[y][x] == t;
        }
      }
      var home := eg.tiles[0][0];
      playerGrid, enemyGrid := pg, eg;
      boats := seq(FleetSize, k requires 0 <= k < FleetSize => NewShip(k + 1, home, true));
      enemyBoats := [];
      placing := -1;
      placed, enemyPlaced, turn := false, false, false;
      connection := NoConnection;
      hitList, eHitList := ZeroGrid(), ZeroGrid();
      enemyName := "ENEMY";
      new;
      InitialGood(home);
    }

    /** host_cb: listen for one opponent. */
    method Host()
      requires Valid() && connection.NoConnection?
      modifies this`connection
      ensures Valid() && Model() == old(Model()).(connection := Server(false))
    {
      connection := Server(false);
      ConnectingKeepsGood(old(Model()));
    }

    /** start_placing: the first ship is the one being placed. */
    method StartPlacing()
      requires Valid() && !Idle(connection) && placing == -1 && !placed
      modifies this`placing
      ensures Valid() && Model() == Game.StartPlacing(old(Model()))
    {
      placing := 0;
      StartPlacingGood(old(Model()));
    }

    /** connected_cb: a waiting server got its opponent; it sends its user name and starts
        placing ships. For a client the callback does nothing. */
    method Accepted(user: string) returns (sent: Option<Message>)
      requires Valid() && connection != Server(true)
      modifies this`connection, this`placing
      ensures Valid()
      ensures old(connection).Server? ==>
        Model() == Game.StartPlacing(old(Model()).(connection := Server(true))) && sent == Some(Identity(user))
      ensures !old(connection).Server? ==> Model() == old(Model()) && sent == None
    {
      sent := None;
      if connection.Server? {
        connection := Server(true);
        sent := Some(Identity(user));
        SoundFrom(old(Model()), Model());
        StartPlacing();
      }
    }

    /** conn_cb: join a listening opponent, send the user name and start placing ships. */
    method Join(user: string) returns (sent: Message)
      requires Valid() && connection.NoConnection?
      modifies this`connection, this`placing
      ensures Valid() && Model() == Game.StartPlacing(old(Model()).(connection := Client))
      ensures sent == Identity(user)
    {
      connection := Client;
      sent := Identity(user);
      SoundFrom(old(Model()), Model());
      StartPlacing();
    }

    // ------------------------------------------------------------------------------
    // Placement

    /** boat_validpos, for the ship being placed anchored on `anchor`: for an anchor on the
        board, the edge test passes exactly when every cell of the ship is on the board. */
    function BoatValidpos(anchor: Tile): (ok: bool)
      reads this, playerGrid
      requires 0 <= placing < |boats| && playerGrid.r == Dim
      ensures InBounds(anchor.Index()) ==> (ok <==> InGrid(Candidate(Model(), anchor.Index())))
    {
      var boat := boats[placing];
      var x, y := anchor.xInd, anchor.yInd;
      var dim := playerGrid.r;
      var ok := if boat.horizontal then x + boat.length <= dim else y + boat.length <= dim;
      if InBounds(Cell(x, y)) then (FitsIffInGrid(x, y, boat.length, boat.horizontal); ok) else ok
    }

    /** boat_overlap: collects the cells of the other placed ships and those of the ship being
        placed (anchored on `anchor`) and reports whether the two sets meet. */
    method BoatOverlap(anchor: Tile) returns (overlap: bool)
      requires 0 <= placing < |boats|
      ensures overlap <==> Overlaps(Model(), anchor.Index())
    {
      var boat := boats[placing];
      var locations: set<Cell> := {};
      for k := 0 to |boats|
        invariant forall c :: c in locations <==>
          exists k' :: 0 <= k' < k && k' != placing && boats[k'].placed && c in Footprint(boats[k'])
      {
        var b := boats[k];
        if k != placing && b.placed {
          var x, y := b.anchor.x, b.anchor.y;
          for i := 0 to b.length
            invariant forall c :: c in locations <==>
              (exists k' :: 0 <= k' < k && k' != placing && boats[k'].placed && c in Footprint(boats[k'])) ||
              c in Cells(x, y, i, b.horizontal)
          {
            CellsSnoc(x, y, i, b.horizontal);
            locations := locations + {if b.horizontal then Cell(x + i, y) else Cell(x, y + i)};
          }
        }
      }
      var boatLocations: set<Cell> := {};
      var x, y := anchor.xInd, anchor.yInd;
      for i := 0 to boat.length
        invariant forall c :: c in boatLocations <==> c in Cells(x, y, i, boat.horizontal)
      {
        CellsSnoc(x, y, i, boat.horizontal);
        boatLocations := boatLocations + {if boat.horizontal then Cell(x + i, y) else Cell(x, y + i)};
      }
      overlap := locations * boatLocations != {};
      ghost var w := Model();
      if Overlaps(w, anchor.Index()) {
        ghost var k :| 0 <= k < |boats| && k != placing && boats[k].placed &&
                       Meets(Footprint(boats[k]), Candidate(w, anchor.Index()));
        ghost var c :| c in Footprint(boats[k]) && c in Candidate(w, anchor.Index());
        assert c in locations * boatLocations;
      }
      if overlap {
        ghost var c :| c in locations * boatLocations;
        ghost var k :| 0 <= k < |boats| && k != placing && boats[k].placed && c in Footprint(boats[k]);
        assert Meets(Footprint(boats[k]), Candidate(w, anchor.Index()));
      }
    }

    /** valid_boat: the ship being placed, anchored on `anchor` on the board, stays on the board
        and clear of the other placed ships. */
    method ValidBoat(anchor: Tile) returns (ok: bool)
      requires 0 <= placing < |boats| && playerGrid.r == Dim
      ensures InBounds(anchor.Index()) ==>
        (ok <==> InGrid(Candidate(Model(), anchor.Index())) && !Overlaps(Model(), anchor.Index()))
    {
      var overlap := BoatOverlap(anchor);
      ok := BoatValidpos(anchor) && !overlap;
    }

    /** place_boat, with the ship being placed anchored on `anchor`; after the last ship it
        returns the fleet message. */
    method PlaceBoat(anchor: Tile) returns (sent: Option<Message>)
      requires Valid() && placing >= 0
      modifies this
      ensures Valid()
      ensures Model() == Place(old(Model()), anchor.Index(), old(playerGrid.Contains(anchor)))
      ensures sent == if placed && !old(placed) then Some(FleetMessage(Model())) else None
    {
      ghost var w := Model();
      sent := None;
      var onGrid := playerGrid.WidIn(anchor);
      if !onGrid {
        return;
      }
      var overlap := BoatOverlap(anchor);
      var fits := BoatValidpos(anchor);
      assert InBounds(anchor.Index()) by {
        playerGrid.ContainsAt(anchor);
      }
      if !fits || overlap {
        return;
      }
      assert Accepts(w, anchor.Index(), onGrid);
      var boat := boats[placing];
      var x, y := anchor.xInd, anchor.yInd;
      boats := boats[placing := boat.(anchor := Cell(x, y), placed := true, valid := true,
                                      locations := Cells(x, y, boat.length, boat.horizontal))];
      PlaceKeepsGood(w, anchor.Index(), onGrid);
      if placing < |boats| - 1 {
        placing := placing + 1;
      } else {
        var fleet := AllPlaced();
        sent := Some(fleet);
      }
    }

    /** all_placed: placing is over; it returns the fleet message and starts the game when the
        opponent's fleet is already in play. */
    method AllPlaced() returns (sent: Message)
      requires BoardsOk() && LastDown(Model())
      modifies this`placing, this`placed, this`turn
      ensures Valid() && Model() == FinishPlacing(old(Model()))
      ensures sent == FleetMessage(Model())
    {
      placing := -1;
      placed := true;
      sent := FleetMessage(Model());
      if SomeActive(enemyBoats) {
        StartGame();
      }
      FinishPlacingGood(old(Model()));
    }

    /** start_game: the server moves first. */
    method StartGame()
      modifies this`turn
      ensures Model() == BeginGame(old(Model()))
    {
      if connection.Server? {
        turn := true;
      }
    }

    /** The rotate branch of handle: a right click turns the ship being placed, if any. */
    method RotateActive()
      requires Valid()
      modifies this`boats
      ensures Valid() && Model() == RotateCurrent(old(Model()))
    {
      if placing >= 0 {
        boats := boats[placing := Rotated(boats[placing])];
      }
      RotateCurrentGood(old(Model()));
    }

    // ------------------------------------------------------------------------------
    // Attacking

    /** A click on `tile` is an attack. */
    ghost predicate AttackOn(tile: Tile)
      reads this, enemyGrid
    {
      Attackable(Model(), tile.Index(), enemyGrid.Contains(tile))
    }

    /** tile_clicked: an attack on `tile` is resolved, my attack grid is sent and shown on the
        enemy grid and my turn ends; any other click changes nothing. A hit that destroys a
        ship reports what check_gameover finds. */
    method TileClicked(tile: Tile) returns (sent: Option<Message>, over: GameOver)
      requires Valid()
      modifies this, enemyGrid.Tiles()
      ensures Valid()
      ensures Model() == (if old(AttackOn(tile)) then Strike(old(Model()), tile.Index()) else old(Model()))
      ensures sent == (if old(AttackOn(tile)) then Some(HitGrid(eHitList)) else None)
      ensures var k := FirstHolder(old(enemyBoats), tile.Index(), 0);
        over == if old(AttackOn(tile)) && k >= 0 && Sunk(enemyBoats[k].hits) then Verdict(Model()) else Playing
      ensures forall y, x :: 0 <= y < Dim && 0 <= x < Dim ==>
        Flags(enemyGrid.tiles[y][x].hit, enemyGrid.tiles[y][x].miss) ==
        if old(AttackOn(tile)) then Shade(old(Flags(enemyGrid.tiles[y][x].hit, enemyGrid.tiles[y][x].miss)), eHitList[y][x])
        else old(Flags(enemyGrid.tiles[y][x].hit, enemyGrid.tiles[y][x].miss))
      ensures forall y, x :: 0 <= y < Dim && 0 <= x < Dim ==>
        Flags(playerGrid.tiles[y][x].hit, playerGrid.tiles[y][x].miss) ==
        old(Flags(playerGrid.tiles[y][x].hit, playerGrid.tiles[y][x].miss))
    {
      sent, over := None, Playing;
      enemyGrid.ContainsAt(tile);
      if turn {
        var onGrid := enemyGrid.WidIn(tile);
        if onGrid && eHitList[tile.yInd][tile.xInd] == Untried {
          sent, over := Attack(tile);
        }
      }
    }

    /** The body of tile_clicked for an attack: it is resolved, my attack grid is sent and
        shown on the enemy grid, and my turn ends. */
    method Attack(tile: Tile) returns (sent: Option<Message>, over: GameOver)
      requires Valid() && AttackOn(tile)
      modifies this, enemyGrid.Tiles()
      ensures Valid() && Model() == Strike(old(Model()), tile.Index()) && sent == Some(HitGrid(eHitList))
      ensures var k := FirstHolder(old(enemyBoats), tile.Index(), 0);
        over == if k >= 0 && Sunk(enemyBoats[k].hits) then Verdict(Model()) else Playing
      ensures forall y, x :: 0 <= y < Dim && 0 <= x < Dim ==>
        Flags(enemyGrid.tiles[y][x].hit, enemyGrid.tiles[y][x].miss) ==
        Shade(old(Flags(enemyGrid.tiles[y][x].hit, enemyGrid.tiles[y][x].miss)), eHitList[y][x])
      ensures forall y, x :: 0 <= y < Dim && 0 <= x < Dim ==>
        Flags(playerGrid.tiles[y][x].hit, playerGrid.tiles[y][x].miss) ==
        old(Flags(playerGrid.tiles[y][x].hit, playerGrid.tiles[y][x].miss))
    {
      ghost var w := Model();
      var c := Cell(tile.xInd, tile.yInd);
      over := ResolveAttack(c);
      sent := Some(HitGrid(eHitList));
      enemyGrid.UpdateVisuals(eHitList);
      turn := false;
      StrikeKeepsGood(w, c, true);
    }

    /** tile_clicked's resolution of an attack on `c`: a Hit on the first enemy ship in play
        that covers `c`, which then takes the hit, or else a Miss. */
    method ResolveAttack(c: Cell) returns (over: GameOver)
      requires IsGrid(eHitList) && InBounds(c)
      modifies this`eHitList, this`enemyBoats
      ensures Model() == Resolved(old(Model()), c)
      ensures var k := FirstHolder(old(enemyBoats), c, 0);
        over == if k >= 0 && Sunk(enemyBoats[k].hits) then Verdict(Model()) else Playing
    {
      var x, y := c.x, c.y;
      var k := ShipAt(enemyBoats, c);
      if k >= 0 {
        eHitList := eHitList[y := eHitList[y][x := Hit]];
        over := HitBoat(k);
      } else {
        eHitList := eHitList[y := eHitList[y][x := Miss]];
        over := Playing;
      }
    }

    /** hit_boat, on enemy ship `k`: one more hit, recorded in its first unset flag; once every
        flag is set the game-over test runs. */
    method HitBoat(k: int) returns (over: GameOver)
      requires 0 <= k < |enemyBoats|
      modifies this`enemyBoats
      ensures enemyBoats == old(enemyBoats)[k := old(enemyBoats)[k].(hits := MarkFirstUnhit(old(enemyBoats)[k].hits))]
      ensures over == if Sunk(enemyBoats[k].hits) then Verdict(Model()) else Playing
    {
      var hits := enemyBoats[k].hits;
      for h := 0 to |hits|
        invariant hits == old(enemyBoats)[k].hits
        invariant forall j :: 0 <= j < h ==> hits[j]
      {
        if !hits[h] {
          MarkFirstUnhitAt(hits, h);
          hits := hits[h := true];
          break;
        }
      }
      if Sunk(old(enemyBoats)[k].hits) {
        MarkFirstUnhitSunk(hits);
      }
      enemyBoats := enemyBoats[k := enemyBoats[k].(hits := hits)];
      if Sunk(hits) {
        over := CheckGameover();
      } else {
        over := Playing;
      }
    }

    /** check_gameover: a loss when every own ship is destroyed, a win when every enemy ship in
        play is destroyed. */
    method CheckGameover() returns (over: GameOver)
      ensures over == Verdict(Model())
    {
      over := Playing;
      var k := 0;
      while k < |boats| && Sunk(boats[k].hits)
        invariant 0 <= k <= |boats|
        invariant forall k' :: 0 <= k' < k ==> Sunk(boats[k'].hits)
      {
        k := k + 1;
      }
      if k == |boats| {
        over := over.(lost := true);
      }
      var i := 0;
      while i < |enemyBoats| && (enemyBoats[i].retired || Sunk(enemyBoats[i].hits))
        invariant 0 <= i <= |enemyBoats|
        invariant forall i' :: 0 <= i' < i && !enemyBoats[i'].retired ==> Sunk(enemyBoats[i'].hits)
      {
        i := i + 1;
      }
      if i == |enemyBoats| {
        over := over.(won := true);
      }
    }

    // ------------------------------------------------------------------------------
    // Receiving

    /** update_boat_hits: every own ship absorbs the received attack grid, then the game-over
        test runs. */
    method UpdateBoatHits() returns (over: GameOver)
      requires FleetShape(boats) && IsGrid(hitList)
      modifies this`boats
      ensures boats == AbsorbAll(old(boats), hitList)
      ensures over == Verdict(Model())
    {
      var coords := HitCoordinates(hitList);
      var ships := boats;
      var fleet := ships;
      for k := 0 to |ships|
        invariant |fleet| == |ships|
        invariant forall k' :: 0 <= k' < |ships| ==>
          fleet[k'] == if k' < k then ships[k'].(hits := Absorb(ships[k'].hits, ships[k'].locations, hitList))
                       else ships[k']
      {
        assert Shaped(ships, k);
        var hits := MarkHits(fleet[k].hits, fleet[k].locations, coords, hitList);
        fleet := fleet[k := fleet[k].(hits := hits)];
      }
      boats := fleet;
      over := CheckGameover();
    }

    /** get_enemy_boats: the opponent's fleet arrives; one new ship per record joins the enemy
        fleet on the enemy grid, and every enemy ship is put down on the cells its anchor gives. */
    method GetEnemyBoats(recs: seq<FleetRecord>)
      requires Valid() && !enemyPlaced && OnBoard(recs)
      modifies this
      ensures Valid() && Model() == AddFleet(old(Model()), recs, enemyGrid.tiles)
    {
      ghost var w := Model();
      enemyPlaced := true;
      var tiles := enemyGrid.tiles;
      assert TileGrid(tiles);
      var all := enemyBoats + seq(|recs|, j requires 0 <= j < |recs| => Built(recs[j], tiles[recs[j].y][recs[j].x]));
      var fleet := all;
      for i := 0 to |fleet|
        invariant |fleet| == |all|
        invariant forall i' :: 0 <= i' < |all| ==> fleet[i'] == if i' < i then Deployed(all[i']) else all[i']
      {
        var b := fleet[i];
        var x, y := b.anchor.x, b.anchor.y;
        fleet := fleet[i := b.(valid := true, placed := true, locations := Cells(x, y, b.length, b.horizontal))];
      }
      assert fleet == AddFleet(w, recs, tiles).enemy;
      enemyBoats := fleet;
      if placed {
        StartGame();
      }
      AddFleetKeepsGood(w, recs, tiles);
    }

    /** recv_data: a user name names the opponent, a fleet before the opponent's fleet is in
        play builds it, and an attack grid replaces my record of the opponent's attacks, is shown
        on my grid and absorbed by my ships, after which it is my turn. */
    method RecvData(msg: Message, user: string) returns (over: GameOver)
      requires Valid()
      requires msg.Fleet? ==> !enemyPlaced && OnBoard(msg.ships)
      requires msg.HitGrid? ==> enemyPlaced && IsGrid(msg.grid)
      modifies this, playerGrid.Tiles()
      ensures Valid() && Model() == Receive(old(Model()), msg, user, enemyGrid.tiles)
      ensures over == if msg.HitGrid? then Verdict(Model()) else Playing
      ensures msg.HitGrid? ==> forall y, x :: 0 <= y < Dim && 0 <= x < Dim ==>
        Flags(playerGrid.tiles[y][x].hit, playerGrid.tiles[y][x].miss) ==
        Shade(old(Flags(playerGrid.tiles[y][x].hit, playerGrid.tiles[y][x].miss)), msg.grid[y][x])
      ensures !msg.HitGrid? ==> forall y, x :: 0 <= y < Dim && 0 <= x < Dim ==>
        Flags(playerGrid.tiles[y][x].hit, playerGrid.tiles[y][x].miss) ==
        old(Flags(playerGrid.tiles[y][x].hit, playerGrid.tiles[y][x].miss))
      ensures forall y, x :: 0 <= y < Dim && 0 <= x < Dim ==>
        Flags(enemyGrid.tiles[y][x].hit, enemyGrid.tiles[y][x].miss) ==
        old(Flags(enemyGrid.tiles[y][x].hit, enemyGrid.tiles[y][x].miss))
    {
      ghost var w := Model();
      assert TileGrid(enemyGrid.tiles);
      over := Playing;
      if msg.Identity? {
        var name := msg.name;
        if name == user {
          name := name + "2";
        }
        enemyName := name;
      } else if !enemyPlaced {
        GetEnemyBoats(msg.ships);
      } else {
        hitList := msg.grid;
        playerGrid.UpdateVisuals(hitList);
        assert Shaped(boats, 0);
        over := UpdateBoatHits();
        turn := true;
      }
      ReceiveKeepsGood(w, msg, user, enemyGrid.tiles);
    }

    // ------------------------------------------------------------------------------
    // Resetting

    /** reset_game: back to the state before placing, with both grids cleared. */
    method ResetGame()
      requires Consistent()
      modifies this, playerGrid.Tiles(), enemyGrid.Tiles()
      ensures Valid() && Model() == Reset(old(Model()), enemyGrid.tiles[0][0])
      ensures forall y, x :: 0 <= y < Dim && 0 <= x < Dim ==>
        !playerGrid.tiles[y][x].hit && !playerGrid.tiles[y][x].miss &&
        !enemyGrid.tiles[y][x].hit && !enemyGrid.tiles[y][x].miss
    {
      ghost var w := Model();
      var home := enemyGrid.tiles[0][0];
      ResetFields(home);
      playerGrid.UpdateVisuals(hitList);
      enemyGrid.UpdateVisuals(eHitList);
      ResetGood(w, home);
    }

    /** reset_game, but for the grids: flags and records cleared, every ship stowed on `home`
        and every enemy ship retired. */
    method ResetFields(home: Tile)
      modifies this
      ensures Model() == Reset(old(Model()), home)
    {
      turn, enemyPlaced, placed := false, false, false;
      placing := -1;
      enemyBoats := RetireAll(enemyBoats, home);
      boats := StowAll(boats, home);
      hitList, eHitList := ZeroGrid(), ZeroGrid();
      enemyName := "ENEMY";
    }

    /** disconn_cb: drop the connection and reset the game. */
    method Disconnect()
      requires Valid()
      modifies this, playerGrid.Tiles(), enemyGrid.Tiles()
      ensures Valid() && Model() == Game.Disconnect(old(Model()), enemyGrid.tiles[0][0])
      ensures forall y, x :: 0 <= y < Dim && 0 <= x < Dim ==>
        !playerGrid.tiles[y][x].hit && !playerGrid.tiles[y][x].miss &&
        !enemyGrid.tiles[y][x].hit && !enemyGrid.tiles[y][x].miss
    {
      connection := NoConnection;
      SoundFrom(old(Model()), Model());
      ResetGame();
    }

    // ------------------------------------------------------------------------------
    // The left click of a tile

    /** Tile.handle, left button: while a ship is being placed the click places it on `tile`,
        otherwise it is an attack on `tile`. */
    method LeftClick(tile: Tile) returns (sent: Option<Message>, over: GameOver)
      requires Valid()
      modifies this, enemyGrid.Tiles()
      ensures Valid()
      ensures Model() == Game.LeftClick(old(Model()), tile.Index(), old(playerGrid.Contains(tile)),
                                        old(enemyGrid.Contains(tile)))
      ensures old(placing) >= 0 ==>
        sent == (if placed && !old(placed) then Some(FleetMessage(Model())) else None) && over == Playing
      ensures old(placing) < 0 ==>
        sent == (if old(AttackOn(tile)) then Some(HitGrid(eHitList)) else None) &&
        var k := FirstHolder(old(enemyBoats), tile.Index(), 0);
        over == if old(AttackOn(tile)) && k >= 0 && Sunk(enemyBoats[k].hits) then Verdict(Model()) else Playing
      ensures forall y, x :: 0 <= y < Dim && 0 <= x < Dim ==>
        Flags(enemyGrid.tiles[y][x].hit, enemyGrid.tiles[y][x].miss) ==
        if old(placing) < 0 && old(AttackOn(tile))
        then Shade(old(Flags(enemyGrid.tiles[y][x].hit, enemyGrid.tiles[y][x].miss)), eHitList[y][x])
        else old(Flags(enemyGrid.tiles[y][x].hit, enemyGrid.tiles[y][x].miss))
      ensures forall y, x :: 0 <= y < Dim && 0 <= x < Dim ==>
        Flags(playerGrid.tiles[y][x].hit, playerGrid.tiles[y][x].miss) ==
        old(Flags(playerGrid.tiles[y][x].hit, playerGrid.tiles[y][x].miss))
    {
      if placing >= 0 {
        sent := PlaceBoat(tile);
        over := Playing;
      } else {
        sent, over := TileClicked(tile);
      }
    }
  }

  /** tile_clicked's search: the first ship of `enemy` in play that covers `c`, or -1. */
  method ShipAt(enemy: seq<ShipState>, c: Cell) returns (k: int)
    ensures k == FirstHolder(enemy, c, 0)
  {
    k := -1;
    for i := 0 to |enemy|
      invariant forall j :: 0 <= j < i ==> !Holds(enemy[j], c)
    {
      var b := enemy[i];
      if !b.retired && c in b.locations {
        k := i;
        break;
      }
    }
  }

  /** reset_game's first loop: every enemy ship is stowed on `home` and retired. */
  method RetireAll(enemy: seq<ShipState>, home: Tile) returns (r: seq<ShipState>)
    ensures r == RetiredFleet(enemy, home)
  {
    r := enemy;
    for i := 0 to |r|
      invariant |r| == |enemy|
      invariant forall i' :: 0 <= i' < |r| ==> r[i'] == if i' < i then Stowed(enemy[i'], home).(retired := true) else enemy[i']
    {
      var b := r[i];
      r := r[i := b.(anchor := home.Index(), placed := false, valid := false,
                     hits := seq(b.length, _ => false), horizontal := true, retired := true)];
    }
  }

  /** reset_game's second loop: every own ship is stowed on `home`. */
  method StowAll(own: seq<ShipState>, home: Tile) returns (r: seq<ShipState>)
    ensures r == StowedFleet(own, home)
  {
    r := own;
    for k := 0 to |r|
      invariant |r| == |own|
      invariant forall k' :: 0 <= k' < |r| ==> r[k'] == if k' < k then Stowed(own[k'], home) else own[k']
    {
      var b := r[k];
      r := r[k := b.(anchor := home.Index(), placed := false, valid := false,
                     hits := seq(b.length, _ => false), horizontal := true)];
    }
  }

  /** update_boat_hits' first loop: the cells marked Hit in `g`. */
  method HitCoordinates(g: seq<seq<int>>) returns (coords: seq<Cell>)
    requires IsGrid(g)
    ensures forall c :: c in coords <==> HitAt(g, c)
  {
    coords := [];
    for y := 0 to |g|
      invariant forall c :: c in coords <==> HitAt(g, c) && c.y < y
    {
      for x := 0 to |g[0]|
        invariant forall c :: c in coords <==> HitAt(g, c) && (c.y < y || (c.y == y && c.x < x))
      {
        if g[y][x] == Hit {
          coords := coords + [Cell(x, y)];
        }
      }
    }
  }

  /** update_boat_hits' second loop, for one ship: flag `i` is set when location `i` is among
      `coords`, the Hit cells of `g`. */
  method MarkHits(hits: seq<bool>, locations: seq<Cell>, coords: seq<Cell>, ghost g: seq<seq<int>>)
    returns (marked: seq<bool>)
    requires |locations| <= |hits|
    requires forall c :: c in coords <==> HitAt(g, c)
    ensures marked == Absorb(hits, locations, g)
  {
    marked := hits;
    for i := 0 to |locations|
      invariant |marked| == |hits|
      invariant forall j :: 0 <= j < |marked| ==> marked[j] == (hits[j] || (j < i && HitAt(g, locations[j])))
    {
      if locations[i] in coords {
        marked := marked[i := true];
      }
    }
  }
}
