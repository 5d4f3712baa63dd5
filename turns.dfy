/** The turn controller of the grid game as values: one game state, the player's click,
    the enemy's move, the per-frame counter and the turn section of the frame. */
module Turns {
  import opened Board

  /** How many moves a side makes in a row before the other side's turn. */
  const TurnsPerPhase: int := 2
  /** The enemy moves only on frames whose counter leaves remainder 1 modulo 15. */
  const EnemyFrameGap: nat := 15

  /** The fields of `Game`: the frame counter, the tile owners and the two turn counters.
      The counter only ever grows from 0, so it is a `nat` here. */
  datatype State = State(count: nat, board: Grid, playerTurns: int, enemyTurns: int)

  /** A mouse position in screen pixels. */
  datatype Click = Click(mx: int, my: int)

  /** What one frame reads from outside: a left click, if the button is down, and the
      random index the enemy's move would use. */
  datatype Frame = Frame(click: Option<Click>, choice: nat)

  /** The state `InitGame` leaves: the starting board, the player's counter at 0 and the
      enemy's at 2, so the enemy moves first. */
  function InitialState(): (s: State)
    ensures WellFormed(s.board) && s.count == 0
    ensures s.playerTurns == 0 && s.enemyTurns == TurnsPerPhase
  {
    State(0, InitialBoard(), 0, TurnsPerPhase)
  }

  /** `CanGo`: some listed destination has the coordinates of `t`. */
  predicate CanGo(allowed: seq<Pos>, t: Pos) {
    exists i :: 0 <= i < |allowed| && allowed[i] == t
  }

  /** `ClickedOnTile`: the state afterwards and whether the click landed on a tile. */
  function ClickedOnTile(s: State, c: Click): (r: (State, bool))
    requires WellFormed(s.board)
  {
    match HitTile(c.mx, c.my)
    case None => (s, false)
    case Some(p) =>
      if CanGo(LegalMoves(s.board, Player), p) then
        (s.(board := Occupy(s.board, p, Player), playerTurns := s.playerTurns - 1), true)
      else
        (s, true)
  }

  /** The random index lies inside the enemy's list whenever that list is non-empty. */
  predicate ValidChoice(g: Grid, choice: nat)
    requires WellFormed(g)
  {
    |LegalMoves(g, Enemy)| == 0 || choice < |LegalMoves(g, Enemy)|
  }

  /** `DoEnemyMove` with its random pick given as `choice`. */
  function DoEnemyMove(g: Grid, choice: nat): (r: Grid)
    requires WellFormed(g) && ValidChoice(g, choice)
    ensures WellFormed(r)
  {
    var moves := LegalMoves(g, Enemy);
    if |moves| > 0 then
      LegalMoveAt(g, Enemy, choice);
      Occupy(g, moves[choice], Enemy)
    else
      g
  }

  /** `Update`: the frame counter goes up by one. */
  function Update(s: State): (r: State)
    ensures r.count == s.count + 1
    ensures r.board == s.board && r.playerTurns == s.playerTurns && r.enemyTurns == s.enemyTurns
  {
    s.(count := s.count + 1)
  }

  /** The enemy moves in this frame: not the player's turn, moves left, and a gated frame. */
  predicate EnemyActs(s: State) {
    s.playerTurns <= 0 && s.enemyTurns > 0 && s.count % EnemyFrameGap == 1
  }

  /** The turn section of `Draw`. */
  function DrawStep(s: State, click: Option<Click>, choice: nat): (r: State)
    requires WellFormed(s.board) && ValidChoice(s.board, choice)
    ensures WellFormed(r.board) && r.count == s.count
  {
    if s.playerTurns > 0 then
      var t := if click.Some? then ClickedOnTile(s, click.value).0 else s;
      t.(enemyTurns := TurnsPerPhase)
    else if s.enemyTurns > 0 then
      if s.count % EnemyFrameGap == 1 then
        s.(board := DoEnemyMove(s.board, choice), enemyTurns := s.enemyTurns - 1)
      else
        s
    else
      s.(playerTurns := TurnsPerPhase)
  }

  /** One frame of the game: `Update`, then `Draw`. */
  function Tick(s: State, f: Frame): (r: State)
    requires WellFormed(s.board) && ValidChoice(s.board, f.choice)
    ensures WellFormed(r.board)
  {
    DrawStep(Update(s), f.click, f.choice)
  }

  /** Every frame's random index is valid for the state that frame starts in. */
  ghost predicate ValidRun(s: State, frames: seq<Frame>)
    requires WellFormed(s.board)
    decreases |frames|
  {
    frames == [] ||
    (ValidChoice(s.board, frames[0].choice) && ValidRun(Tick(s, frames[0]), frames[1..]))
  }

  /** The state after playing `frames` from `s`. */
  ghost function Run(s: State, frames: seq<Frame>): (r: State)
    requires WellFormed(s.board) && ValidRun(s, frames)
    ensures WellFormed(r.board)
    decreases |frames|
  {
    if frames == [] then s else Run(Tick(s, frames[0]), frames[1..])
  }

  // ---------------------------------------------------------------------------
  // Properties
  // ---------------------------------------------------------------------------

  /** `CanGo` compares coordinates only, so it is list membership. */
  lemma CanGoMembership(allowed: seq<Pos>, t: Pos)
    ensures CanGo(allowed, t) <==> t in allowed
  {
    if t in allowed {
      var i :| 0 <= i < |allowed| && allowed[i] == t;
    }
  }

  /** The click reports a hit exactly when it lies in some tile's inclusive rectangle. */
  lemma ClickHitIff(s: State, c: Click)
    requires WellFormed(s.board)
    ensures ClickedOnTile(s, c).1 <==> exists q :: InBounds(q) && InRect(q, c.mx, c.my)
  {
    HitTileFirst(c.mx, c.my);
  }

  /** A click on the first tile holding it, when that tile is a legal player destination:
      the tile was neutral and next to a player tile, it alone becomes the player's, and
      the player's counter drops by one. */
  lemma ClickMoves(s: State, c: Click, p: Pos)
    requires WellFormed(s.board) && FirstHit(p, c.mx, c.my) && p in LegalMoves(s.board, Player)
    ensures At(s.board, p) == Neutral
    ensures exists q :: InBounds(q) && Adjacent(q, p) && At(s.board, q) == Player
    ensures ClickedOnTile(s, c).0 ==
            s.(board := Occupy(s.board, p, Player), playerTurns := s.playerTurns - 1)
  {
    HitTileFirst(c.mx, c.my);
    LegalMovesMembership(s.board, Player, p);
    CanGoMembership(LegalMoves(s.board, Player), p);
  }

  /** A click that misses every tile, or whose tile is not a legal destination, changes nothing. */
  lemma ClickIgnored(s: State, c: Click)
    requires WellFormed(s.board)
    requires forall p :: FirstHit(p, c.mx, c.my) ==> p !in LegalMoves(s.board, Player)
    ensures ClickedOnTile(s, c).0 == s
  {
    HitTileFirst(c.mx, c.my);
    if HitTile(c.mx, c.my).Some? {
      var p := HitTile(c.mx, c.my).value;
      CanGoMembership(LegalMoves(s.board, Player), p);
    }
  }

  /** A click whose first tile is `p` claims `p` when the player may go there and changes
      nothing otherwise; either way it reports a hit. */
  lemma ClickOnTile(s: State, mx: int, my: int, p: Pos)
    requires WellFormed(s.board) && FirstHit(p, mx, my)
    ensures ClickedOnTile(s, Click(mx, my)).1
    ensures ClickedOnTile(s, Click(mx, my)).0 ==
            if p in LegalMoves(s.board, Player)
            then s.(board := Occupy(s.board, p, Player), playerTurns := s.playerTurns - 1)
            else s
  {
    HitTileFirst(mx, my);
    CanGoMembership(LegalMoves(s.board, Player), p);
  }

  /** A click outside every tile changes nothing and reports no hit. */
  lemma ClickMissed(s: State, mx: int, my: int)
    requires WellFormed(s.board) && forall q :: InBounds(q) ==> !InRect(q, mx, my)
    ensures ClickedOnTile(s, Click(mx, my)) == (s, false)
  {
    HitTileFirst(mx, my);
  }

  /** With no legal destination the enemy's move leaves the board alone; otherwise exactly
      the chosen tile, a neutral tile next to an enemy tile, becomes the enemy's. */
  lemma EnemyMoveEffect(g: Grid, choice: nat)
    requires WellFormed(g) && ValidChoice(g, choice)
    ensures LegalMoves(g, Enemy) == [] ==> DoEnemyMove(g, choice) == g
    ensures LegalMoves(g, Enemy) != [] ==>
              var p := LegalMoves(g, Enemy)[choice];
              InBounds(p) && At(g, p) == Neutral &&
              (exists q :: InBounds(q) && Adjacent(q, p) && At(g, q) == Enemy) &&
              DoEnemyMove(g, choice) == Occupy(g, p, Enemy)
  {
    var moves := LegalMoves(g, Enemy);
    if moves != [] {
      assert moves[choice] in moves;
      LegalMovesMembership(g, Enemy, moves[choice]);
    }
  }

  /** `h` arises from `g` by giving neutral tiles to `side` only: owned tiles keep their owner. */
  ghost predicate OnlyClaims(g: Grid, h: Grid, side: Owner)
    requires WellFormed(g) && WellFormed(h)
  {
    forall q :: InBounds(q) && At(h, q) != At(g, q) ==> At(g, q) == Neutral && At(h, q) == side
  }

  /** No owned tile ever changes: ownership only grows. */
  ghost predicate Grows(g: Grid, h: Grid)
    requires WellFormed(g) && WellFormed(h)
  {
    forall q :: InBounds(q) && At(g, q) != Neutral ==> At(h, q) == At(g, q)
  }

  lemma GrowsTransitive(f: Grid, g: Grid, h: Grid)
    requires WellFormed(f) && WellFormed(g) && WellFormed(h)
    requires Grows(f, g) && Grows(g, h)
    ensures Grows(f, h)
  {
  }

  lemma ClaimsGrow(g: Grid, h: Grid, side: Owner)
    requires WellFormed(g) && WellFormed(h) && side != Neutral && OnlyClaims(g, h, side)
    ensures Grows(g, h)
  {
  }

  /** The player's click only hands neutral tiles to the player. */
  lemma ClickClaims(s: State, c: Click)
    requires WellFormed(s.board)
    ensures WellFormed(ClickedOnTile(s, c).0.board)
    ensures OnlyClaims(s.board, ClickedOnTile(s, c).0.board, Player)
  {
    HitTileFirst(c.mx, c.my);
    if HitTile(c.mx, c.my).Some? {
      var p := HitTile(c.mx, c.my).value;
      if p in LegalMoves(s.board, Player) {
        ClickMoves(s, c, p);
      } else {
        ClickIgnored(s, c);
      }
    }
  }

  /** The enemy's move only hands neutral tiles to the enemy. */
  lemma EnemyClaims(g: Grid, choice: nat)
    requires WellFormed(g) && ValidChoice(g, choice)
    ensures OnlyClaims(g, DoEnemyMove(g, choice), Enemy)
  {
    EnemyMoveEffect(g, choice);
  }

  /** What one turn step does to the counters: in the player's turn either nothing changes
      or exactly one neutral tile becomes the player's at the cost of one player turn, and
      the enemy gets two moves again; in the enemy's turn the counter drops on
      gated frames only, whether or not the enemy had anywhere to go; once both counters
      are spent the player gets two moves. */
  lemma DrawStepCounters(s: State, click: Option<Click>, choice: nat)
    requires WellFormed(s.board) && ValidChoice(s.board, choice)
    ensures var r := DrawStep(s, click, choice);
            if s.playerTurns > 0 then
              r.enemyTurns == TurnsPerPhase &&
              ((r.board == s.board && r.playerTurns == s.playerTurns) ||
               exists p :: InBounds(p) && At(s.board, p) == Neutral &&
                           r.board == Occupy(s.board, p, Player) && r.playerTurns == s.playerTurns - 1)
            else if s.enemyTurns > 0 then
              r.playerTurns == s.playerTurns &&
              r.enemyTurns == (if EnemyActs(s) then s.enemyTurns - 1 else s.enemyTurns)
            else
              r.playerTurns == TurnsPerPhase && r.enemyTurns == s.enemyTurns
  {
    if s.playerTurns > 0 && click.Some? {
      var c := click.value;
      HitTileFirst(c.mx, c.my);
      if HitTile(c.mx, c.my).Some? {
        var p := HitTile(c.mx, c.my).value;
        if p in LegalMoves(s.board, Player) {
          ClickMoves(s, c, p);
        } else {
          ClickIgnored(s, c);
        }
      }
    }
  }

  /** Outside the player's turn no tile changes hands to or from the player, and the
      player's counter is not spent. */
  lemma NoPlayerMoveOutOfTurn(s: State, click: Option<Click>, choice: nat)
    requires WellFormed(s.board) && ValidChoice(s.board, choice) && s.playerTurns <= 0
    ensures var r := DrawStep(s, click, choice);
            (forall q :: InBounds(q) ==> (At(r.board, q) == Player <==> At(s.board, q) == Player)) &&
            r.playerTurns >= s.playerTurns
  {
    var r := DrawStep(s, click, choice);
    if EnemyActs(s) {
      EnemyClaims(s.board, choice);
      forall q | InBounds(q)
        ensures At(r.board, q) == Player <==> At(s.board, q) == Player
      {
        assert r.board == DoEnemyMove(s.board, choice);
      }
    } else {
      assert r.board == s.board;
    }
  }

  /** The enemy moves only in its own turn and on a gated frame: then the board is the
      enemy move's; otherwise no tile changes to or from the enemy, and outside the player's
      turn (an ungated frame, or the frame handing the turn back) the board stays as it is. */
  lemma NoEnemyMoveOutOfTurn(s: State, click: Option<Click>, choice: nat)
    requires WellFormed(s.board) && ValidChoice(s.board, choice)
    ensures var r := DrawStep(s, click, choice);
            (EnemyActs(s) ==> r.board == DoEnemyMove(s.board, choice)) &&
            (!EnemyActs(s) ==>
               forall q :: InBounds(q) ==> (At(r.board, q) == Enemy <==> At(s.board, q) == Enemy)) &&
            (s.playerTurns <= 0 && !EnemyActs(s) ==> r.board == s.board)
  {
    if s.playerTurns > 0 && click.Some? {
      ClickClaims(s, click.value);
    }
  }

  /** A turn step only claims neutral tiles, for the side whose turn it is. */
  lemma DrawStepGrows(s: State, click: Option<Click>, choice: nat)
    requires WellFormed(s.board) && ValidChoice(s.board, choice)
    ensures Grows(s.board, DrawStep(s, click, choice).board)
  {
    if s.playerTurns > 0 {
      if click.Some? {
        ClickClaims(s, click.value);
        ClaimsGrow(s.board, ClickedOnTile(s, click.value).0.board, Player);
      }
    } else if EnemyActs(s) {
      EnemyClaims(s.board, choice);
      ClaimsGrow(s.board, DoEnemyMove(s.board, choice), Enemy);
    }
  }

  /** The counters stay within [0, 2]. */
  ghost predicate CountersInRange(s: State) {
    0 <= s.playerTurns <= TurnsPerPhase && 0 <= s.enemyTurns <= TurnsPerPhase
  }

  lemma InitialCountersInRange()
    ensures CountersInRange(InitialState())
  {
  }

  lemma TickKeepsCounters(s: State, f: Frame)
    requires WellFormed(s.board) && ValidChoice(s.board, f.choice) && CountersInRange(s)
    ensures CountersInRange(Tick(s, f))
  {
    DrawStepCounters(Update(s), f.click, f.choice);
  }

  /** Over any run of frames the counters never leave [0, 2] and no owned tile changes owner. */
  lemma {:induction false} RunInvariant(s: State, frames: seq<Frame>)
    requires WellFormed(s.board) && ValidRun(s, frames) && CountersInRange(s)
    ensures CountersInRange(Run(s, frames))
    ensures Grows(s.board, Run(s, frames).board)
    decreases |frames|
  {
    if frames != [] {
      var t := Tick(s, frames[0]);
      TickKeepsCounters(s, frames[0]);
      DrawStepGrows(Update(s), frames[0].click, frames[0].choice);
      RunInvariant(t, frames[1..]);
      GrowsTransitive(s.board, t.board, Run(t, frames[1..]).board);
    }
  }

  /** In the first frame the counter is 1, so the enemy moves at once, to one of
      (1, 0), (3, 0) and (2, 1). */
  lemma FirstFrameEnemyMoves(f: Frame)
    requires ValidChoice(InitialBoard(), f.choice)
    ensures var r := Tick(InitialState(), f);
            r.enemyTurns == 1 && r.playerTurns == 0 &&
            exists p :: p in [Pos(1, 0), Pos(3, 0), Pos(2, 1)] && r.board == Occupy(InitialBoard(), p, Enemy)
  {
    var g := InitialBoard();
    var s := Update(InitialState());
    assert EnemyActs(s);
    var moves := LegalMoves(g, Enemy);
    InitialEnemyMoves();
    EnemyMoveEffect(g, f.choice);
    var p := moves[f.choice];
    assert p in [Pos(1, 0), Pos(3, 0), Pos(2, 1)];
    assert Tick(InitialState(), f).board == Occupy(g, p, Enemy);
  }
}
