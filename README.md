# Battleship game logic in Dafny

This project models the game logic of a two-player networked battleship game. The game logic
lives in the window class `BattleWin` (window.py), the ship widget (src/ship.py) and the tile
grid (grid.py). Each player places four ships, of lengths 1 to 4, on a 10 x 10 grid. The
players then take turns attacking cells of the opponent's grid. After every attack the
attacker sends its whole attack grid (0 = untried, 1 = miss, 2 = hit) to the opponent.

The project has six modules:

- `Board` (board.dfy): cells, ship geometry, attack grids and per-ship hit flags, all as pure
  functions.
- `Protocol` (protocol.dfy): the three peer messages, which are the user name, the fleet
  description and the attack grid.
- `Grids` (grid.py as grid.dfy): the `Tile` and `Grid` classes, with the tile layout, the
  hit/miss flags `update_visuals` sets, and `wid_in`.
- `Ships` (src/ship.py as ship.dfy): the `Ship` class with its constructor and `rotate`. It
  also has `ShipState`, the value of all of a ship's fields.
- `Game` (game.dfy): the window's state as a value `World`. Every operation of the window is a
  function from one `World` to the next. The invariant `Good` is proved to survive every
  operation:
  - my fleet has four ships of lengths 1 to 4, placed in index order;
  - every placed ship covers the cells its anchor gives, all on the board;
  - no two placed ships share a cell;
  - every enemy ship has one hit flag per cell, and before this game's opposing fleet arrives
    every enemy ship is retired;
  - the attack record only holds 0, 1 or 2;
  - placing only runs while connected.
- `Window` (window.dfy): the class `BattleWin`, with the window's fields and its two grids of
  tiles. Each method is proved to produce exactly the next state that `Game` gives. Its loops
  carry the invariants that tie them to those functions.

The socket is not modelled:
- a message the window would send is returned;
- a received message is an argument;
- the local user name (`getuser()`) is an argument;
- the end-of-game popups are a returned `GameOver(lost, won)`.

In these places the code may surprise a reader; the model follows the code:
- `check_gameover` can report a loss and a win from the same call (two popups), so
  `GameOver` carries both flags.
- `hit_boat` sets the first unset hit flag of the enemy ship, not the flag of the cell that
  was hit.
- `get_enemy_boats` re-deploys every enemy ship, the retired ones of earlier games included.
  A retired ship stays retired; it is only placed again.
- A client's `connected_cb` does nothing, because `conn_cb` already sent the name and started
  placing.

## Model

| member | source | states |
|---|---|---|
| Board.ZeroGrid | window.py:80-81 | A new attack grid is 10 x 10 and every cell is untried. |
| Board.CellsMember | window.py:261 | A cell is among a ship's derived locations exactly when it lies on the anchor's row (horizontal) or column (vertical), within `length` cells of the anchor. |
| Board.FitsIffInGrid | window.py:436-444 | For an anchor on the board, the edge test `x + length <= 10` (or `y + length <= 10`) holds exactly when every cell of the ship is on the board. |
| Board.CountHits | window.py:336-341 | A ship never has more set hit flags than cells. |
| Board.SunkIffAllCounted | window.py:341 | `all(boat.hits)` holds exactly when the number of set flags equals the ship's length. |
| Board.MarkFirstUnhit | window.py:336-339 | One more hit keeps the number of flags and every set flag. It adds exactly one set flag unless the ship was already destroyed. |
| Board.MarkFirstUnhitAt | window.py:336-339 | When every flag before `k` is set and flag `k` is not, the hit sets exactly flag `k`. |
| Board.MarkFirstUnhitSunk | window.py:336-339 | A hit on a destroyed ship changes none of its flags. |
| Board.AbsorbKeepsAndSinks | window.py:355-360 | Absorbing an attack grid never clears a hit flag. A ship all of whose locations are marked 2 is destroyed afterwards. |
| Board.AbsorbIdempotent | window.py:355-360 | Absorbing the same attack grid twice gives the same flags as absorbing it once. |
| Grids.Tile.constructor | grid.py:96-116 | A new tile keeps its size and indices, and shows neither a hit nor a miss. |
| Grids.Shade | grid.py:67-76 | Value 1 sets `miss` and leaves `hit`. Value 2 sets `hit` and leaves `miss`. Any other value clears both. |
| Grids.ShadeFollowsRecord | grid.py:64-78 | A tile showing a record keeps showing it after the record moves on from untried. Showing the same grid twice changes nothing. |
| Grids.Grid.constructor | grid.py:7-27 | A new grid holds `r` rows of `c` fresh, unmarked tiles of side `dim`, with `tiles[y][x]` at indices (x, y). |
| Grids.Grid.GenTiles | grid.py:29-49 | `gentiles` appends `r` rows of `c` fresh tiles, row `y` holding the tiles (0, y) .. (c-1, y), and keeps the rows already there. |
| Grids.Grid.UpdateVisuals | grid.py:64-78 | Every tile (x, y) ends with its flags shaded by `hit_list[y][x]`, and no other object changes. |
| Grids.Grid.WidIn | grid.py:84-90 | The result is true exactly when the tile object occurs in some row. |
| Grids.Grid.ContainsAt | grid.py:84-90 | In a well-formed grid, a tile is on the grid exactly when it is the tile stored at its own indices. |
| Ships.NewShip | src/ship.py:6-37 | A new ship keeps its length, anchor tile and orientation. It is not valid, not placed, not retired, has no locations, has `length` unset hit flags, and is `length` tiles wide and one tile high. |
| Ships.Ship.constructor | src/ship.py:6-37 | The new object's fields are those of `NewShip`, horizontal by default. |
| Ships.Ship.Rotate | src/ship.py:81-84 | Rotating flips `horizontal`, swaps width and height, and changes nothing else. |
| Ships.RotatedTwice | src/ship.py:81-84 | Two rotations give back the ship unchanged. |
| Ships.RotateTwice | src/ship.py:81-84 | Rotating an object twice restores every one of its fields. |
| Ships.Stowed | window.py:202-208 | A reset ship sits on the home tile, unplaced, not valid, horizontal and unhit. It keeps its length, locations, retired flag, extents and one flag per cell. |
| Game.InitialGood | window.py:64-81 | A new window satisfies the invariant and has no enemy ship in play and no hits. |
| Game.ConnectingKeepsGood | window.py:85-135 | Hosting, a server's accepted connection and joining all keep the invariant. |
| Game.StartPlacingGood | window.py:247-250 | Activating the first ship once connected keeps the invariant. |
| Game.FinishPlacingGood | window.py:278-291 | After the last ship is down, `placing` is -1, `placed` is set and the invariant holds. The turn starts only for a server whose opponent has a ship in play. |
| Game.PlaceKeepsGood | window.py:252-276 | Every placement attempt keeps my fleet disjoint and on the board. An accepted one moves on to the next ship, or ends placing after the last. |
| Game.PlaceAdvances | window.py:255-272 | An accepted placement puts down exactly one more ship. A rejected one changes nothing. |
| Game.FleetMessageRebuilds | window.py:284-285 | The fleet message has one record per ship, anchored on the board, and each record rebuilds exactly that ship's cells. |
| Game.RotateCurrentGood | window.py:395-397 | Turning the ship being placed keeps the invariant, and turning it twice undoes the turn. |
| Game.FirstHolder | window.py:316-322 | The search finds the first enemy ship in play that covers the cell, or -1 exactly when no ship in play covers it. |
| Game.StrikeRecord | window.py:308-324 | A valid attack sets the attacked cell to 2 exactly when an enemy ship in play covers it, otherwise to 1. It changes no other cell, and the record only grows. |
| Game.StrikeHitsOnce | window.py:316-339 | Only the ship that is hit changes, and its count of hits goes up by one unless it was already destroyed. |
| Game.StrikeKeepsGood | window.py:305-329 | A valid attack keeps the invariant. |
| Game.AbsorbedKeepsGood | window.py:171-175 | A received attack grid keeps the invariant, changes only my ships' hit flags, never clears one, and destroys every placed ship whose cells are all hit. |
| Game.FullyHitFleetLoses | window.py:345-371 | Once all my ships are down, a grid hitting every one of their cells makes `check_gameover` report a loss. |
| Game.AddFleetRebuilds | window.py:223-239 | The fleet arrival keeps the old enemy ships retired. It adds one ship per record, in play, placed, unhit, of the record's length and orientation, on the cells the record describes. |
| Game.AddFleetKeepsGood | window.py:220-245 | A fleet arrival keeps the invariant and sets `enemy_placed`. The turn starts only for a server whose own fleet is down. |
| Game.FleetRoundTrip | window.py:231-239 | My fleet message, received by the opponent, rebuilds exactly my ships' cells, in play and unhit. |
| Game.ReceiveKeepsGood | window.py:158-176 | Each of the three kinds of received message keeps the invariant. |
| Game.ResetGood | window.py:178-218 | A reset restores the invariant and keeps every ship. Every ship ends unplaced, horizontal and unhit, and every enemy ship ends retired. Resetting twice is resetting once. |
| Game.LeftClickRoutes | grid.py:118-128 | A click while placing leaves the attack record and the enemy ships alone. A click afterwards leaves my ships alone. The invariant holds either way. |
| Window.BattleWin.constructor | window.py:64-81 | A new window has four hidden ships of lengths 1 to 4 on the enemy grid's first tile, empty records and no connection, and satisfies the invariant. Its two grids are distinct objects with no tile in common, and every tile of both grids shows neither a hit nor a miss. |
| Window.BattleWin.Host | window.py:97-110 | Hosting only records a waiting server and keeps the invariant. |
| Window.BattleWin.Accepted | window.py:85-95 | A waiting server sends its user name and starts placing. For a client nothing changes and nothing is sent. |
| Window.BattleWin.Join | window.py:112-135 | Joining sends the user name and starts placing the first ship. |
| Window.BattleWin.StartPlacing | window.py:247-250 | The first ship becomes the one being placed, and the invariant holds. |
| Window.BattleWin.BoatValidpos | window.py:431-444 | For an anchor on the board, the edge test passes exactly when every cell of the ship is on the board. |
| Window.BattleWin.BoatOverlap | window.py:446-471 | The result is true exactly when some other placed ship shares a cell with the candidate cells. |
| Window.BattleWin.ValidBoat | window.py:473-481 | For an anchor on the board, the result is true exactly when the ship stays on the board and clear of every other placed ship. |
| Window.BattleWin.PlaceBoat | window.py:252-276 | The new state is the placement step proved in `Game.PlaceKeepsGood`. A tile off my grid, out of bounds or overlapping changes nothing. The fleet message is returned exactly when placing ends. |
| Window.BattleWin.AllPlaced | window.py:278-291 | Placing ends, the fleet message is returned, and the game starts only if the opponent has a ship in play. |
| Window.BattleWin.StartGame | window.py:293-303 | The turn is given to the server; a client's turn is unchanged. |
| Window.BattleWin.RotateActive | window.py:395-397 | Only the ship being placed turns, and the invariant holds. |
| Window.BattleWin.TileClicked | window.py:305-329 | Without my turn, off the enemy grid, or on a tried cell, nothing changes. Otherwise the attack is resolved as in `Game.StrikeRecord`, the grid is sent, the enemy tiles show it, the turn ends, and a ship destroyed by the hit triggers the game-over test. The tiles of my own grid never change. |
| Window.BattleWin.Attack | window.py:310-329 | A valid attack is resolved, sent and shown on the enemy grid, and the turn ends. The tiles of my own grid are unchanged. |
| Window.BattleWin.ResolveAttack | window.py:316-324 | The cell becomes a hit on the first enemy ship in play covering it, or a miss. |
| Window.BattleWin.HitBoat | window.py:331-343 | Exactly the hit ship's first unset flag is set; the game-over test runs once it is destroyed. |
| Window.BattleWin.CheckGameover | window.py:363-380 | Loss exactly when every own ship is destroyed; win exactly when every enemy ship in play is destroyed. |
| Window.BattleWin.UpdateBoatHits | window.py:345-361 | Every own ship absorbs the received grid as in `Board.AbsorbKeepsAndSinks`, then the game-over test runs. |
| Window.BattleWin.GetEnemyBoats | window.py:220-245 | The fleet arrives as in `Game.AddFleetRebuilds`, and the game starts if my fleet is down. |
| Window.BattleWin.RecvData | window.py:158-176 | A name (with "2" added when it is mine) names the opponent. A fleet builds the enemy fleet. An attack grid replaces my record wholesale, is shown on my grid and absorbed by my ships, and then it is my turn. A name or a fleet leaves my grid's tiles alone. The enemy grid's tiles never change. |
| Window.BattleWin.ResetGame | window.py:178-218 | The state is reset as in `Game.ResetGood`, and every tile of both grids is cleared. |
| Window.BattleWin.ResetFields | window.py:181-213 | The flags are cleared, every ship is stowed on `home`, every enemy ship is retired, and both records are zeroed. |
| Window.BattleWin.Disconnect | window.py:137-156 | The connection is dropped and the game is reset as in `Game.ResetGood`. Every tile of both grids is cleared. |
| Window.BattleWin.LeftClick | grid.py:118-128 | While placing, a left click is a placement: the fleet message is returned exactly when placing ends, and the enemy tiles are unchanged. Otherwise it is an attack with `TileClicked`'s outcome: the grid is sent and shown exactly for a valid attack, and the game-over test runs when the hit sinks a ship. The tiles of my own grid never change. |
| Window.ShipAt | window.py:316-324 | The loop finds the first enemy ship in play that covers the cell. |
| Window.RetireAll | window.py:191-199 | Every enemy ship is stowed and retired. |
| Window.StowAll | window.py:202-208 | Every own ship is stowed. |
| Window.HitCoordinates | window.py:348-353 | The collected coordinates are exactly the cells marked 2. |
| Window.MarkHits | window.py:356-360 | Flag `i` is set exactly when it was set or location `i` is marked 2. |

## Left out

- The network layer (sockets, `pickle`, readiness callbacks, `recv(1024)` framing) is not modelled. Messages are values: a sent message is returned and a received one is an argument.
- The user name from `getuser()` is a parameter.
- All drawing is not modelled: `Ship.draw`, `Grid.draw`, `Tile.draw`, `BattleWin.draw`, the redraw timeout, `ResizeGrids`, `getdim`, pixel positions, `show`/`hide`/`redraw`, and the boat group. Ship extents are only the two numbers `width` and `height`.
- Ships.Stowed: the reset does not swap a rotated ship's extents back, just as the source does not. `draw` later recomputes the size from the orientation, which is not modelled.
- Labels, buttons, menus, `fl_input`, `fl_alert` and the status box are UI only. The opponent's name is kept as received, without the upper-casing and vertical layout of the label; a reset sets it back to "ENEMY".
- The `ConnectionRefusedError` branch of `conn_cb` is I/O. `Join` models a successful connection.
- Window.BattleWin.Host, Window.BattleWin.Join: require no connection, because the source deactivates both buttons once one is used.
- Window.BattleWin.Accepted: excludes a server that already accepted. The model assumes at most one peer. The source keeps its listening socket registered until it closes (network.py:21-34, 68), so it would accept a second client, send the name again and restart placing.
- The end-of-game popup (src/game_end.py) is replaced by the returned `GameOver`. Closing it calls `disconn_cb`, which is `Window.BattleWin.Disconnect`.
- The pointer preview on `FL_MOVE` and the `Fl.belowmouse()` lookup in `place_boat` depend on pointer state. The anchor of a placement is the clicked tile, passed in explicitly. The next ship is not moved under the pointer.
- Window.BattleWin.RecvData, Window.BattleWin.GetEnemyBoats: require a fleet to arrive only before the opponent's fleet is in play, with every record anchored on the board. They also require an attack grid to be 10 x 10. The source trusts its peer and would crash or misread an out-of-phase or malformed message. Python's negative indexing is not modelled.
- `enemy_boats` starts as `None` in the source and is `[]` here; every use the game can reach behaves the same.
- The window keeps its ships as `ShipState` values in sequences it reassigns, not as shared `Ship` objects. Aliasing between a ship and its widget is therefore not modelled. The `Ship` class models src/ship.py on its own.
- A ship's anchor is kept as the indices of its tile, not as the tile object.
- tester.py and __main__.py hold no game logic.
