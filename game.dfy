/** The game object itself: a grid of tile objects whose owner tags the moves overwrite in
    place, and the methods of `Game`, each proved against its counterpart in `Turns`. */
module GameLoop {
  import opened Board
  import Turns

  /** One square of the board. Its place and screen position never change; its owner tag does. */
  class FieldTile {
    const xLocation: int
    const yLocation: int
    const xScreenCoord: int
    const yScreenCoord: int
    var image: Owner

    constructor (xLocation: int, yLocation: int, xScreenCoord: int, yScreenCoord: int, image: Owner)
      ensures this.xLocation == xLocation && this.yLocation == yLocation
      ensures this.xScreenCoord == xScreenCoord && this.yScreenCoord == yScreenCoord
      ensures this.image == image
    {
      this.xLocation := xLocation;
      this.yLocation := yLocation;
      this.xScreenCoord := xScreenCoord;
      this.yScreenCoord := yScreenCoord;
      this.image := image;
    }
  }

  /** Tile `t` knows it sits at column `x`, row `y`, drawn at (x * 32, y * 32). */
  predicate AtHome(t: FieldTile, x: int, y: int) {
    t.xLocation == x && t.yLocation == y &&
    t.xScreenCoord == x * TileSize && t.yScreenCoord == y * TileSize
  }

  /** The board coordinates of a list of tiles. */
  ghost function Positions(ts: seq<FieldTile>): (ps: seq<Pos>)
    ensures |ps| == |ts|
    ensures forall i :: 0 <= i < |ts| ==> ps[i] == Pos(ts[i].xLocation, ts[i].yLocation)
  {
    seq(|ts|, i requires 0 <= i < |ts| => Pos(ts[i].xLocation, ts[i].yLocation))
  }

  lemma PositionsAppend(ts: seq<FieldTile>, t: FieldTile)
    ensures Positions(ts + [t]) == Positions(ts) + [Pos(t.xLocation, t.yLocation)]
  {
    assert Positions(ts + [t])[|ts|] == Pos(t.xLocation, t.yLocation);
  }

  lemma AppendFour(s: seq<Pos>, a: seq<Pos>, b: seq<Pos>, c: seq<Pos>, d: seq<Pos>)
    ensures s + a + b + c + d == s + (a + b + c + d)
  {
  }

  /** `CanGo`: whether some listed tile has the coordinates of `wantedTile`. */
  method CanGo(allowedTiles: seq<FieldTile>, wantedTile: FieldTile) returns (b: bool)
    ensures b <==> exists i :: 0 <= i < |allowedTiles| &&
                     allowedTiles[i].xLocation == wantedTile.xLocation &&
                     allowedTiles[i].yLocation == wantedTile.yLocation
    ensures b <==> Turns.CanGo(Positions(allowedTiles), Pos(wantedTile.xLocation, wantedTile.yLocation))
  {
    var i := 0;
    while i < |allowedTiles|
      invariant 0 <= i <= |allowedTiles|
      invariant forall j :: 0 <= j < i ==>
                  !(allowedTiles[j].xLocation == wantedTile.xLocation &&
                    allowedTiles[j].yLocation == wantedTile.yLocation)
    {
      var item := allowedTiles[i];
      if item.xLocation == wantedTile.xLocation && item.yLocation == wantedTile.yLocation {
        assert Positions(allowedTiles)[i] == Pos(wantedTile.xLocation, wantedTile.yLocation);
        return true;
      }
      i := i + 1;
    }
    return false;
  }

  class Game {
    var count: nat
    const fieldTiles: seq<seq<FieldTile>>
    var playerTurns: int
    var enemyTurns: int
    /** The owner tags of the grid, as a value. */
    ghost var board: Grid

    /** A 5 x 6 grid whose tile [x][y] sits at (x, y). Distinct places hold distinct tiles,
        since each tile records its own place. */
    ghost predicate Placed() {
      |fieldTiles| == FieldWidth &&
      (forall x :: 0 <= x < FieldWidth ==> |fieldTiles[x]| == FieldHeight) &&
      forall x, y :: 0 <= x < FieldWidth && 0 <= y < FieldHeight ==> AtHome(fieldTiles[x][y], x, y)
    }

    /** The tile objects of the grid: what the moves may write to. */
    ghost function Tiles(): set<FieldTile> {
      set x, y | 0 <= x < |fieldTiles| && 0 <= y < |fieldTiles[x]| :: fieldTiles[x][y]
    }

    /** The tiles' owner tags are those of `g`. */
    ghost predicate Shows(g: Grid)
      requires Placed() && WellFormed(g)
      reads Tiles()
    {
      forall x, y :: 0 <= x < FieldWidth && 0 <= y < FieldHeight ==> fieldTiles[x][y].image == g[x][y]
    }

    /** The grid is laid out and `board` records its owner tags. */
    ghost predicate Valid()
      reads this, Tiles()
    {
      Placed() && WellFormed(board) && Shows(board)
    }

    /** The whole game state, as a value. */
    ghost function Snapshot(): (s: Turns.State)
      reads this
    {
      Turns.State(count, board, playerTurns, enemyTurns)
    }

    /** Every tile in `ts` is the grid's own tile at the coordinates it records. */
    ghost predicate OwnTiles(ts: seq<FieldTile>)
      requires Placed()
    {
      forall i :: 0 <= i < |ts| ==>
        InBounds(Pos(ts[i].xLocation, ts[i].yLocation)) && ts[i] == fieldTiles[ts[i].xLocation][ts[i].yLocation]
    }

    /** Writing `side` into the tile at `p` shows `Occupy` of the board before. */
    lemma WriteIsOccupy(before: Grid, p: Pos, side: Owner)
      requires Placed() && WellFormed(before) && InBounds(p)
      requires fieldTiles[p.x][p.y].image == side
      requires forall x, y :: 0 <= x < FieldWidth && 0 <= y < FieldHeight && Pos(x, y) != p ==>
                 fieldTiles[x][y].image == before[x][y]
      ensures Shows(Occupy(before, p, side))
    {
      var o := Occupy(before, p, side);
      forall x, y | 0 <= x < FieldWidth && 0 <= y < FieldHeight ensures fieldTiles[x][y].image == o[x][y] {
        if Pos(x, y) != p {
          assert At(o, Pos(x, y)) == At(before, Pos(x, y));
        }
      }
    }

    /** `InitGame`: builds the grid column by column, all neutral, then gives (2, 0) to the
        enemy and (2, 5) to the player; the enemy has the first two moves. */
    constructor InitGame()
      ensures Valid() && fresh(Tiles())
      ensures forall x, y :: 0 <= x < FieldWidth && 0 <= y < FieldHeight ==>
                fieldTiles[x][y].xLocation == x && fieldTiles[x][y].yLocation == y &&
                fieldTiles[x][y].xScreenCoord == x * TileSize && fieldTiles[x][y].yScreenCoord == y * TileSize
      ensures Snapshot() == Turns.InitialState()
    {
      var cols: seq<seq<FieldTile>> := [];
      var x := 0;
      while x < FieldWidth
        invariant 0 <= x <= FieldWidth && |cols| == x
        invariant forall i :: 0 <= i < x ==> |cols[i]| == FieldHeight
        invariant forall i, j :: 0 <= i < x && 0 <= j < FieldHeight ==>
                    AtHome(cols[i][j], i, j) && fresh(cols[i][j]) && cols[i][j].image == Neutral
      {
        var temp: seq<FieldTile> := [];
        var y := 0;
        while y < FieldHeight
          invariant 0 <= y <= FieldHeight && |temp| == y
          invariant forall j :: 0 <= j < y ==> AtHome(temp[j], x, j) && fresh(temp[j]) && temp[j].image == Neutral
          invariant forall i, j :: 0 <= i < x && 0 <= j < FieldHeight ==>
                      AtHome(cols[i][j], i, j) && fresh(cols[i][j]) && cols[i][j].image == Neutral
        {
          var tile := new FieldTile(x, y, x * TileSize, y * TileSize, Neutral);
          temp := temp + [tile];
          y := y + 1;
        }
        cols := cols + [temp];
        x := x + 1;
      }
      fieldTiles := cols;
      count := 0;
      playerTurns := 0;
      enemyTurns := Turns.TurnsPerPhase;
      board := InitialBoard();
      new;
      fieldTiles[2][0].image := Enemy;
      fieldTiles[2][FieldHeight - 1].image := Player;
      forall x, y | 0 <= x < FieldWidth && 0 <= y < FieldHeight ensures fieldTiles[x][y].image == board[x][y] {
        assert fieldTiles[x][y] == fieldTiles[2][0] <==> x == 2 && y == 0;
        assert fieldTiles[x][y] == fieldTiles[2][FieldHeight - 1] <==> x == 2 && y == FieldHeight - 1;
      }
    }

    /** `TilesPlayerOrEnemyCanGo`: the tiles `name` may move to, as references to the grid's
        own tiles, in scan order and with repeats. */
    method TilesPlayerOrEnemyCanGo(name: Owner) returns (moveTiles: seq<FieldTile>)
      requires Valid()
      ensures Positions(moveTiles) == LegalMoves(board, name)
      ensures OwnTiles(moveTiles)
    {
      moveTiles := [];
      var x := 0;
      while x < FieldWidth
        invariant 0 <= x <= FieldWidth
        invariant Positions(moveTiles) == Scanned(board, name, x, 0)
        invariant OwnTiles(moveTiles)
      {
        moveTiles := ScanColumn(moveTiles, x, name);
        ScannedWrap(board, name, x);
        x := x + 1;
      }
    }

    /** The inner loop of `TilesPlayerOrEnemyCanGo`: column `x`, top to bottom. */
    method ScanColumn(moveTiles: seq<FieldTile>, x: int, name: Owner) returns (r: seq<FieldTile>)
      requires Valid() && 0 <= x < FieldWidth && OwnTiles(moveTiles)
      requires Positions(moveTiles) == Scanned(board, name, x, 0)
      ensures Positions(r) == Scanned(board, name, x, FieldHeight)
      ensures OwnTiles(r)
    {
      r := moveTiles;
      var y := 0;
      while y < FieldHeight
        invariant 0 <= y <= FieldHeight
        invariant Positions(r) == Scanned(board, name, x, y)
        invariant OwnTiles(r)
      {
        var tile := fieldTiles[x][y];
        if tile.image == name {
          r := AppendNeighbours(r, x, y);
        }
        ScannedNext(board, name, x, y);
        y := y + 1;
      }
    }

    /** The four neighbour checks for tile (x, y): left, right, above, below. */
    method AppendNeighbours(moveTiles: seq<FieldTile>, x: int, y: int) returns (r: seq<FieldTile>)
      requires Valid() && OwnTiles(moveTiles) && InBounds(Pos(x, y))
      ensures Positions(r) == Positions(moveTiles) + NeutralNeighbours(board, Pos(x, y))
      ensures OwnTiles(r)
    {
      ghost var g := board;
      ghost var start := Positions(moveTiles);
      r := AppendIfNeutral(moveTiles, x - 1 >= 0, x - 1, y);
      ghost var left := Positions(r);
      r := AppendIfNeutral(r, x + 1 < FieldWidth, x + 1, y);
      ghost var right := Positions(r);
      r := AppendIfNeutral(r, y - 1 >= 0, x, y - 1);
      ghost var up := Positions(r);
      r := AppendIfNeutral(r, y + 1 < FieldHeight, x, y + 1);
      assert Positions(r) == up + IfNeutral(g, Pos(x, y + 1));
      assert up == right + IfNeutral(g, Pos(x, y - 1));
      assert right == left + IfNeutral(g, Pos(x + 1, y));
      assert left == start + IfNeutral(g, Pos(x - 1, y));
      AppendFour(Positions(moveTiles), IfNeutral(g, Pos(x - 1, y)), IfNeutral(g, Pos(x + 1, y)),
                 IfNeutral(g, Pos(x, y - 1)), IfNeutral(g, Pos(x, y + 1)));
    }

    /** One neighbour check of the scan: the tile at (nx, ny) is appended when it lies on the
        grid (`inRange`, the bound the scan tests) and is neutral. */
    method AppendIfNeutral(moveTiles: seq<FieldTile>, inRange: bool, nx: int, ny: int)
      returns (r: seq<FieldTile>)
      requires Valid() && OwnTiles(moveTiles) && (inRange <==> InBounds(Pos(nx, ny)))
      ensures Positions(r) == Positions(moveTiles) + IfNeutral(board, Pos(nx, ny))
      ensures OwnTiles(r)
    {
      r := moveTiles;
      if inRange {
        var nextTile := fieldTiles[nx][ny];
        if nextTile.image == Neutral {
          PositionsAppend(r, nextTile);
          r := r + [nextTile];
        }
      }
    }

    /** `ClickedOnTile`: scans the tiles in x-major order for the first inclusive rectangle
        holding the mouse; if that tile is one the player may go to, it becomes the player's
        and one player turn is spent. Reports whether any tile was hit. */
    method ClickedOnTile(mouseX: int, mouseY: int) returns (hit: bool)
      requires Valid()
      modifies this`board, this`playerTurns, Tiles()
      ensures Valid()
      ensures Snapshot() == Turns.ClickedOnTile(old(Snapshot()), Turns.Click(mouseX, mouseY)).0
      ensures hit == Turns.ClickedOnTile(old(Snapshot()), Turns.Click(mouseX, mouseY)).1
    {
      ghost var s0 := Snapshot();
      var playerMoveTiles := TilesPlayerOrEnemyCanGo(Player);
      var x := 0;
      while x < |fieldTiles|
        invariant 0 <= x <= FieldWidth
        invariant Valid() && Snapshot() == s0
        invariant forall q :: InBounds(q) && q.x < x ==> !InRect(q, mouseX, mouseY)
      {
        var row := fieldTiles[x];
        var y := 0;
        while y < |row|
          invariant 0 <= y <= FieldHeight
          invariant Valid() && Snapshot() == s0
          invariant forall q :: InBounds(q) && ScannedBefore(q, x, y) ==> !InRect(q, mouseX, mouseY)
        {
          var tile := row[y];
          var topTileX := tile.xScreenCoord + FieldScreenCoordX;
          var topTileY := tile.yScreenCoord + FieldScreenCoordY;
          var lowTileX := tile.xScreenCoord + FieldScreenCoordX + TileSize;
          var lowTileY := tile.yScreenCoord + FieldScreenCoordY + TileSize;
          if mouseX >= topTileX && mouseX <= lowTileX {
            if mouseY >= topTileY && mouseY <= lowTileY {
              assert FirstHit(Pos(x, y), mouseX, mouseY);
              MoveIfAllowed(playerMoveTiles, tile, LegalMoves(board, Player));
              Turns.ClickOnTile(s0, mouseX, mouseY, Pos(x, y));
              return true;
            }
          }
          y := y + 1;
        }
        x := x + 1;
      }
      Turns.ClickMissed(s0, mouseX, mouseY);
      return false;
    }

    /** The move part of `ClickedOnTile` once the clicked tile is found: if the player may go
        there (`allowed` holds the coordinates of the player's list), the tile becomes the
        player's and one player turn is spent. */
    method MoveIfAllowed(playerMoveTiles: seq<FieldTile>, tile: FieldTile, ghost allowed: seq<Pos>)
      requires Valid() && Positions(playerMoveTiles) == allowed
      requires InBounds(Pos(tile.xLocation, tile.yLocation))
      requires tile == fieldTiles[tile.xLocation][tile.yLocation]
      modifies this`board, this`playerTurns, tile
      ensures Valid()
      ensures var p := Pos(tile.xLocation, tile.yLocation);
              var s := old(Snapshot());
              Snapshot() == if p in allowed
                            then s.(board := Occupy(s.board, p, Player), playerTurns := s.playerTurns - 1)
                            else s
    {
      ghost var p := Pos(tile.xLocation, tile.yLocation);
      var canGo := CanGo(playerMoveTiles, tile);
      Turns.CanGoMembership(allowed, p);
      if canGo {
        ghost var before := board;
        tile.image := Player;
        playerTurns := playerTurns - 1;
        board := Occupy(before, p, Player);
        WriteIsOccupy(before, p, Player);
      }
    }

    /** `DoEnemyMove`: the tile at index `choice` of the enemy's list becomes the enemy's;
        with an empty list nothing happens. `choice` stands for the random index. */
    method DoEnemyMove(choice: nat)
      requires Valid() && Turns.ValidChoice(board, choice)
      modifies this`board, Tiles()
      ensures Valid()
      ensures Snapshot() == old(Snapshot()).(board := Turns.DoEnemyMove(old(board), choice))
    {
      var enemyMoveTiles := TilesPlayerOrEnemyCanGo(Enemy);
      var enemyMovesCount := |enemyMoveTiles|;
      if enemyMovesCount > 0 {
        var tile := enemyMoveTiles[choice];
        ghost var before := board;
        ghost var p := Pos(tile.xLocation, tile.yLocation);
        assert p == LegalMoves(before, Enemy)[choice];
        assert tile == fieldTiles[p.x][p.y];
        tile.image := Enemy;
        board := Occupy(before, p, Enemy);
        WriteIsOccupy(before, p, Enemy);
      }
    }

    /** `Update`, past the first call: one more frame. */
    method Update()
      requires Valid()
      modifies this`count
      ensures Valid()
      ensures Snapshot() == Turns.Update(old(Snapshot()))
    {
      count := count + 1;
    }

    /** The turn section of `Draw`; `click` is the cursor position when the left button is
        down, `choice` the random index an enemy move would use. */
    method Draw(click: Option<Turns.Click>, choice: nat)
      requires Valid() && Turns.ValidChoice(board, choice)
      modifies this`board, this`playerTurns, this`enemyTurns, Tiles()
      ensures Valid()
      ensures Snapshot() == Turns.DrawStep(old(Snapshot()), click, choice)
    {
      if playerTurns > 0 {
        if click.Some? {
          var _ := ClickedOnTile(click.value.mx, click.value.my);
        }
        enemyTurns := Turns.TurnsPerPhase;
      } else {
        if enemyTurns > 0 {
          if count % Turns.EnemyFrameGap == 1 {
            DoEnemyMove(choice);
            enemyTurns := enemyTurns - 1;
          }
        } else {
          playerTurns := Turns.TurnsPerPhase;
        }
      }
    }
  }
}
