/** The 5 x 6 board of the grid game: owner tags, the scan that lists the legal
    destinations of a side, and the pixel hit test that maps a click to a tile. */
module Board {

  datatype Option<T> = None | Some(value: T)

  /** The owner tag a tile's frame carries (the `name` of its FrameType). */
  datatype Owner = Neutral | Player | Enemy

  /** Board coordinates of a tile: column `x`, row `y`. */
  datatype Pos = Pos(x: int, y: int)

  const FieldScreenCoordX: int := 10
  const FieldScreenCoordY: int := 10
  const FieldWidth: int := 5
  const FieldHeight: int := 6
  const TileSize: int := 32

  /** The owners of `fieldTiles[x][y]`, column-major exactly as the game stores them. */
  type Grid = seq<seq<Owner>>

  ghost predicate WellFormed(g: Grid) {
    |g| == FieldWidth && forall x :: 0 <= x < |g| ==> |g[x]| == FieldHeight
  }

  predicate InBounds(p: Pos) {
    0 <= p.x < FieldWidth && 0 <= p.y < FieldHeight
  }

  function At(g: Grid, p: Pos): (owner: Owner)
    requires WellFormed(g) && InBounds(p)
  {
    g[p.x][p.y]
  }

  /** p and q are orthogonal neighbours. */
  predicate Adjacent(p: Pos, q: Pos) {
    (p.x == q.x && (p.y - q.y == 1 || q.y - p.y == 1)) ||
    (p.y == q.y && (p.x - q.x == 1 || q.x - p.x == 1))
  }

  /** The board with tile `p` given to `side`. */
  function Occupy(g: Grid, p: Pos, side: Owner): (r: Grid)
    requires WellFormed(g) && InBounds(p)
    ensures WellFormed(r)
    ensures At(r, p) == side
    ensures forall q :: InBounds(q) && q != p ==> At(r, q) == At(g, q)
  {
    g[p.x := g[p.x][p.y := side]]
  }

  /** The board right after `InitGame`: all neutral but the enemy's (2, 0) and the player's (2, 5). */
  function InitialBoard(): (g: Grid)
    ensures WellFormed(g)
  {
    seq(FieldWidth, x =>
      seq(FieldHeight, y =>
        if x == 2 && y == 0 then Enemy
        else if x == 2 && y == FieldHeight - 1 then Player
        else Neutral))
  }

  // ---------------------------------------------------------------------------
  // Legal destinations (TilesPlayerOrEnemyCanGo)
  // ---------------------------------------------------------------------------

  /** `[q]` when `q` is an in-bounds neutral tile, else nothing. */
  function IfNeutral(g: Grid, q: Pos): (added: seq<Pos>)
    requires WellFormed(g)
  {
    if InBounds(q) && At(g, q) == Neutral then [q] else []
  }

  /** The neutral neighbours of `p`, in the order the game looks at them:
      x - 1, x + 1, y - 1, y + 1. */
  function NeutralNeighbours(g: Grid, p: Pos): (added: seq<Pos>)
    requires WellFormed(g) && InBounds(p)
  {
    IfNeutral(g, Pos(p.x - 1, p.y)) + IfNeutral(g, Pos(p.x + 1, p.y)) +
    IfNeutral(g, Pos(p.x, p.y - 1)) + IfNeutral(g, Pos(p.x, p.y + 1))
  }

  /** What tile (x, y) adds to the destination list of `side`. */
  function StepAt(g: Grid, side: Owner, x: int, y: int): (added: seq<Pos>)
    requires WellFormed(g) && InBounds(Pos(x, y))
  {
    if g[x][y] == side then NeutralNeighbours(g, Pos(x, y)) else []
  }

  /** (x, n) is a point the scan can reach: a tile, or just past the last tile. */
  predicate ScanPoint(x: int, n: int) {
    0 <= x <= FieldWidth && 0 <= n <= FieldHeight && (x == FieldWidth ==> n == 0)
  }

  /** The destinations added by every tile before (x, n) in x-major order: the
      list the game's nested loop has built when it reaches tile (x, n).
      The measure mentions `g` so that the verifier does not unroll the whole scan
      whenever the bounds are known numbers. */
  function Scanned(g: Grid, side: Owner, x: int, n: int): (moves: seq<Pos>)
    requires WellFormed(g) && ScanPoint(x, n)
    decreases x + |g|, n
  {
    if n == 0 then
      if x == 0 then [] else Scanned(g, side, x - 1, FieldHeight)
    else
      Scanned(g, side, x, n - 1) + StepAt(g, side, x, n - 1)
  }

  /** The scan visits tile (x, n) after the tiles before it. */
  lemma ScannedNext(g: Grid, side: Owner, x: int, n: int)
    requires WellFormed(g) && 0 <= x < FieldWidth && 0 <= n < FieldHeight
    ensures Scanned(g, side, x, n + 1) == Scanned(g, side, x, n) + StepAt(g, side, x, n)
  {
  }

  /** The end of column x is the start of column x + 1. */
  lemma ScannedWrap(g: Grid, side: Owner, x: int)
    requires WellFormed(g) && 0 <= x < FieldWidth
    ensures Scanned(g, side, x + 1, 0) == Scanned(g, side, x, FieldHeight)
  {
  }

  /** The list `TilesPlayerOrEnemyCanGo(side)` returns, as positions, duplicates kept. */
  function LegalMoves(g: Grid, side: Owner): (moves: seq<Pos>)
    requires WellFormed(g)
  {
    Scanned(g, side, |g|, 0)
  }

  /** 1 when `q` is a tile owned by `side`, else 0. */
  function OwnedBy(g: Grid, side: Owner, q: Pos): (k: nat)
    requires WellFormed(g)
  {
    if InBounds(q) && At(g, q) == side then 1 else 0
  }

  /** How many orthogonal neighbours of `p` belong to `side`. */
  function OwnedNeighbours(g: Grid, side: Owner, p: Pos): (k: nat)
    requires WellFormed(g)
  {
    OwnedBy(g, side, Pos(p.x - 1, p.y)) + OwnedBy(g, side, Pos(p.x + 1, p.y)) +
    OwnedBy(g, side, Pos(p.x, p.y - 1)) + OwnedBy(g, side, Pos(p.x, p.y + 1))
  }

  /** q comes strictly before tile (x, y) in x-major order. */
  predicate ScannedBefore(q: Pos, x: int, y: int) {
    q.x < x || (q.x == x && q.y < y)
  }

  function OwnedByBefore(g: Grid, side: Owner, q: Pos, x: int, y: int): (k: nat)
    requires WellFormed(g)
  {
    if ScannedBefore(q, x, y) then OwnedBy(g, side, q) else 0
  }

  /** OwnedNeighbours restricted to neighbours scanned before tile (x, y). */
  function OwnedNeighboursBefore(g: Grid, side: Owner, p: Pos, x: int, y: int): (k: nat)
    requires WellFormed(g)
  {
    OwnedByBefore(g, side, Pos(p.x - 1, p.y), x, y) + OwnedByBefore(g, side, Pos(p.x + 1, p.y), x, y) +
    OwnedByBefore(g, side, Pos(p.x, p.y - 1), x, y) + OwnedByBefore(g, side, Pos(p.x, p.y + 1), x, y)
  }

  /** How many times `p` occurs in `s`. */
  function Occurrences(s: seq<Pos>, p: Pos): (k: nat)
    decreases |s|
  {
    if s == [] then 0 else Occurrences(s[..|s| - 1], p) + if s[|s| - 1] == p then 1 else 0
  }

  lemma {:induction false} OccurrencesAppend(a: seq<Pos>, b: seq<Pos>, p: Pos)
    ensures Occurrences(a + b, p) == Occurrences(a, p) + Occurrences(b, p)
    decreases |b|
  {
    if b == [] {
      assert a + b == a;
    } else {
      assert (a + b)[..|a + b| - 1] == a + b[..|b| - 1];
      OccurrencesAppend(a, b[..|b| - 1], p);
    }
  }

  lemma {:induction false} OccurrencesMultiset(s: seq<Pos>, p: Pos)
    ensures Occurrences(s, p) == multiset(s)[p]
    decreases |s|
  {
    if s != [] {
      assert s == s[..|s| - 1] + [s[|s| - 1]];
      OccurrencesMultiset(s[..|s| - 1], p);
    }
  }

  lemma IfNeutralCount(g: Grid, q: Pos, p: Pos)
    requires WellFormed(g)
    ensures Occurrences(IfNeutral(g, q), p) == if q == p && InBounds(p) && At(g, p) == Neutral then 1 else 0
  {
    if InBounds(q) && At(g, q) == Neutral {
      assert IfNeutral(g, q)[..0] == [];
    }
  }

  lemma CountOfFour(a: seq<Pos>, b: seq<Pos>, c: seq<Pos>, d: seq<Pos>, p: Pos)
    ensures Occurrences(a + b + c + d, p) ==
            Occurrences(a, p) + Occurrences(b, p) + Occurrences(c, p) + Occurrences(d, p)
  {
    OccurrencesAppend(a, b, p);
    OccurrencesAppend(a + b, c, p);
    OccurrencesAppend(a + b + c, d, p);
  }

  /** The four neighbours the game examines are exactly the orthogonal neighbours. */
  lemma AdjacentCases(c: Pos, p: Pos)
    ensures Adjacent(c, p) <==>
            p == Pos(c.x - 1, c.y) || p == Pos(c.x + 1, c.y) || p == Pos(c.x, c.y - 1) || p == Pos(c.x, c.y + 1)
  {
  }

  /** `p` occurs in the neutral-neighbour list of `c` once if it is a neutral neighbour, else never. */
  lemma NeutralNeighboursCount(g: Grid, c: Pos, p: Pos)
    requires WellFormed(g) && InBounds(c)
    ensures Occurrences(NeutralNeighbours(g, c), p) ==
            if InBounds(p) && At(g, p) == Neutral && Adjacent(c, p) then 1 else 0
  {
    var l, r, u, d := Pos(c.x - 1, c.y), Pos(c.x + 1, c.y), Pos(c.x, c.y - 1), Pos(c.x, c.y + 1);
    CountOfFour(IfNeutral(g, l), IfNeutral(g, r), IfNeutral(g, u), IfNeutral(g, d), p);
    IfNeutralCount(g, l, p);
    IfNeutralCount(g, r, p);
    IfNeutralCount(g, u, p);
    IfNeutralCount(g, d, p);
    AdjacentCases(c, p);
  }

  /** Tile (x, y) contributes `p` once if it is a `side` tile next to the neutral tile `p`. */
  lemma StepAtCount(g: Grid, side: Owner, p: Pos, x: int, y: int)
    requires WellFormed(g) && InBounds(Pos(x, y))
    ensures Occurrences(StepAt(g, side, x, y), p) ==
            if InBounds(p) && At(g, p) == Neutral && g[x][y] == side && Adjacent(Pos(x, y), p) then 1 else 0
  {
    if g[x][y] == side {
      NeutralNeighboursCount(g, Pos(x, y), p);
    }
  }

  lemma OwnedByBeforeStep(g: Grid, side: Owner, q: Pos, x: int, y: int)
    requires WellFormed(g) && InBounds(Pos(x, y))
    ensures OwnedByBefore(g, side, q, x, y + 1) ==
            OwnedByBefore(g, side, q, x, y) + if q == Pos(x, y) && g[x][y] == side then 1 else 0
  {
  }

  /** Moving the scan point past tile (x, y) adds that tile if it is a `side` neighbour of `p`. */
  lemma OwnedNeighboursBeforeStep(g: Grid, side: Owner, p: Pos, x: int, y: int)
    requires WellFormed(g) && InBounds(Pos(x, y))
    ensures OwnedNeighboursBefore(g, side, p, x, y + 1) ==
            OwnedNeighboursBefore(g, side, p, x, y) + if g[x][y] == side && Adjacent(Pos(x, y), p) then 1 else 0
  {
    OwnedByBeforeStep(g, side, Pos(p.x - 1, p.y), x, y);
    OwnedByBeforeStep(g, side, Pos(p.x + 1, p.y), x, y);
    OwnedByBeforeStep(g, side, Pos(p.x, p.y - 1), x, y);
    OwnedByBeforeStep(g, side, Pos(p.x, p.y + 1), x, y);
    AdjacentCases(p, Pos(x, y));
  }

  /** Finishing column x - 1 is the same scan point as starting column x. */
  lemma OwnedNeighboursBeforeWrap(g: Grid, side: Owner, p: Pos, x: int)
    requires WellFormed(g)
    ensures OwnedNeighboursBefore(g, side, p, x + 1, 0) == OwnedNeighboursBefore(g, side, p, x, FieldHeight)
  {
  }

  /** Past the last tile, every neighbour has been scanned. */
  lemma OwnedNeighboursBeforeAll(g: Grid, side: Owner, p: Pos)
    requires WellFormed(g)
    ensures OwnedNeighboursBefore(g, side, p, FieldWidth - 1, FieldHeight) == OwnedNeighbours(g, side, p)
  {
  }

  /** The count the scan up to tile (x, n) is expected to hold for `p`. */
  function ScannedCount(g: Grid, side: Owner, p: Pos, x: int, n: int): (k: nat)
    requires WellFormed(g)
  {
    if InBounds(p) && At(g, p) == Neutral then OwnedNeighboursBefore(g, side, p, x, n) else 0
  }

  /** The scan up to tile (x, n) holds `p` once per `side` neighbour of `p` scanned so far. */
  ghost predicate CountAt(g: Grid, side: Owner, p: Pos, x: int, n: int)
    requires WellFormed(g) && ScanPoint(x, n)
  {
    Occurrences(Scanned(g, side, x, n), p) == ScannedCount(g, side, p, x, n)
  }

  lemma ScannedSplit(g: Grid, side: Owner, p: Pos, x: int, n: int)
    requires WellFormed(g) && 0 <= x < FieldWidth && 0 < n <= FieldHeight
    ensures Occurrences(Scanned(g, side, x, n), p) ==
            Occurrences(Scanned(g, side, x, n - 1), p) + Occurrences(StepAt(g, side, x, n - 1), p)
  {
    OccurrencesAppend(Scanned(g, side, x, n - 1), StepAt(g, side, x, n - 1), p);
  }

  /** One tile further in x-major order within a column. */
  lemma ScanCountNext(g: Grid, side: Owner, p: Pos, x: int, n: int)
    requires WellFormed(g) && 0 <= x < FieldWidth && 0 < n <= FieldHeight
    requires CountAt(g, side, p, x, n - 1)
    ensures CountAt(g, side, p, x, n)
  {
    StepAtCount(g, side, p, x, n - 1);
    OwnedNeighboursBeforeStep(g, side, p, x, n - 1);
    ScannedSplit(g, side, p, x, n);
  }

  /** From the end of column x - 1 to the start of column x. */
  lemma ScanCountWrap(g: Grid, side: Owner, p: Pos, x: int)
    requires WellFormed(g) && 0 < x <= FieldWidth
    requires CountAt(g, side, p, x - 1, FieldHeight)
    ensures CountAt(g, side, p, x, 0)
  {
    OwnedNeighboursBeforeWrap(g, side, p, x - 1);
  }

  /** Within column x, the scan holds `p` once per `side` neighbour scanned so far. */
  lemma {:induction false} ColumnCount(g: Grid, side: Owner, p: Pos, x: int, n: int)
    requires WellFormed(g) && 0 <= x < FieldWidth && 0 <= n <= FieldHeight
    requires CountAt(g, side, p, x, 0)
    ensures CountAt(g, side, p, x, n)
    decreases n
  {
    if n > 0 {
      ColumnCount(g, side, p, x, n - 1);
      ScanCountNext(g, side, p, x, n);
    }
  }

  /** Scanning all of column x takes the count from the start of column x to the start of column x + 1. */
  lemma ColumnThenWrap(g: Grid, side: Owner, p: Pos, x: int)
    requires WellFormed(g) && 0 <= x < FieldWidth
    requires CountAt(g, side, p, x, 0)
    ensures CountAt(g, side, p, x + 1, 0)
  {
    ColumnCount(g, side, p, x, FieldHeight);
    ScanCountWrap(g, side, p, x + 1);
  }

  /** Before the first tile nothing has been scanned. */
  lemma ScanCountStart(g: Grid, side: Owner, p: Pos)
    requires WellFormed(g)
    ensures CountAt(g, side, p, 0, 0)
  {
  }

  /** At the start of column x, the scan holds `p` once per `side` neighbour in columns before x. */
  lemma {:induction false} ScanCount(g: Grid, side: Owner, p: Pos, x: int)
    requires WellFormed(g) && 0 <= x <= FieldWidth
    ensures CountAt(g, side, p, x, 0)
    decreases x
  {
    if x == 0 {
      ScanCountStart(g, side, p);
    } else {
      ScanCount(g, side, p, x - 1);
      ColumnThenWrap(g, side, p, x - 1);
    }
  }

  /** The legal list holds each neutral tile once per orthogonal neighbour `side` owns,
      and nothing else: duplicates are kept, out-of-bounds and owned tiles never appear. */
  lemma LegalMovesCount(g: Grid, side: Owner, p: Pos)
    requires WellFormed(g)
    ensures multiset(LegalMoves(g, side))[p] ==
            if InBounds(p) && At(g, p) == Neutral then OwnedNeighbours(g, side, p) else 0
  {
    ScanCount(g, side, p, FieldWidth);
    OccurrencesMultiset(LegalMoves(g, side), p);
    OwnedNeighboursBeforeWrap(g, side, p, FieldWidth - 1);
    OwnedNeighboursBeforeAll(g, side, p);
  }

  lemma InIffCounted(s: seq<Pos>, p: Pos)
    ensures p in s <==> multiset(s)[p] > 0
  {
  }

  /** A tile of `side` next to `p` makes the neighbour count positive. */
  lemma CountFromWitness(g: Grid, side: Owner, p: Pos, q: Pos)
    requires WellFormed(g) && InBounds(q) && Adjacent(q, p) && At(g, q) == side
    ensures OwnedNeighbours(g, side, p) > 0
  {
    AdjacentCases(p, q);
  }

  /** A positive neighbour count names a neighbour of `side`. */
  lemma WitnessFromCount(g: Grid, side: Owner, p: Pos) returns (q: Pos)
    requires WellFormed(g) && OwnedNeighbours(g, side, p) > 0
    ensures InBounds(q) && Adjacent(q, p) && At(g, q) == side
  {
    var l, r, u, d := Pos(p.x - 1, p.y), Pos(p.x + 1, p.y), Pos(p.x, p.y - 1), Pos(p.x, p.y + 1);
    if OwnedBy(g, side, l) == 1 {
      q := l;
    } else if OwnedBy(g, side, r) == 1 {
      q := r;
    } else if OwnedBy(g, side, u) == 1 {
      q := u;
    } else {
      q := d;
    }
  }

  /** A positive neighbour count is witnessed by an owned neighbour, and conversely. */
  lemma OwnedNeighboursWitness(g: Grid, side: Owner, p: Pos)
    requires WellFormed(g)
    ensures OwnedNeighbours(g, side, p) > 0 <==>
            exists q :: InBounds(q) && Adjacent(q, p) && At(g, q) == side
  {
    if OwnedNeighbours(g, side, p) > 0 {
      var q := WitnessFromCount(g, side, p);
    }
    if exists q :: InBounds(q) && Adjacent(q, p) && At(g, q) == side {
      var q :| InBounds(q) && Adjacent(q, p) && At(g, q) == side;
      CountFromWitness(g, side, p, q);
    }
  }

  /** Soundness and completeness of the legal list: `p` is listed iff it is an in-bounds
      neutral tile orthogonally next to a tile of `side`. */
  lemma LegalMovesMembership(g: Grid, side: Owner, p: Pos)
    requires WellFormed(g)
    ensures p in LegalMoves(g, side) <==>
            InBounds(p) && At(g, p) == Neutral &&
            exists q :: InBounds(q) && Adjacent(q, p) && At(g, q) == side
  {
    LegalMovesCount(g, side, p);
    InIffCounted(LegalMoves(g, side), p);
    OwnedNeighboursWitness(g, side, p);
  }

  /** The destination at index `i` is a neutral, in-bounds tile. */
  lemma LegalMoveAt(g: Grid, side: Owner, i: int)
    requires WellFormed(g) && 0 <= i < |LegalMoves(g, side)|
    ensures InBounds(LegalMoves(g, side)[i]) && At(g, LegalMoves(g, side)[i]) == Neutral
  {
    LegalMovesMembership(g, side, LegalMoves(g, side)[i]);
  }

  /** On the starting board the enemy may go to (1, 0), (3, 0) and (2, 1), in that order;
      (2, -1) is cut off by the top edge. */
  lemma InitialEnemyMoves()
    ensures LegalMoves(InitialBoard(), Enemy) == [Pos(1, 0), Pos(3, 0), Pos(2, 1)]
  {
  }

  // ---------------------------------------------------------------------------
  // Hit test (ClickedOnTile)
  // ---------------------------------------------------------------------------

  /** Pixel `m` lies in the inclusive span [origin + i * 32, origin + i * 32 + 32] of tile `i`
      along one axis. Neighbouring spans share their border pixel. */
  predicate InSpan(m: int, origin: int, i: int) {
    origin + i * TileSize <= m <= origin + i * TileSize + TileSize
  }

  /** Pixel (mx, my) lies in tile p's inclusive hit rectangle. */
  predicate InRect(p: Pos, mx: int, my: int) {
    InSpan(mx, FieldScreenCoordX, p.x) && InSpan(my, FieldScreenCoordY, p.y)
  }

  /** `p` is the first tile, in x-major order, whose rectangle holds (mx, my). */
  ghost predicate FirstHit(p: Pos, mx: int, my: int) {
    InBounds(p) && InRect(p, mx, my) &&
    forall q :: InBounds(q) && ScannedBefore(q, p.x, p.y) ==> !InRect(q, mx, my)
  }

  /** Among `n` tiles along one axis, the first whose span holds `m`, in closed form. */
  function AxisHit(m: int, origin: int, n: int): (r: Option<int>)
    requires n > 0
    ensures r.Some? ==> 0 <= r.value < n
  {
    if m < origin || m > origin + n * TileSize then None
    else if m == origin then Some(0)
    else Some((m - origin - 1) / TileSize)
  }

  /** The tile a click at pixel (mx, my) lands on, if any. */
  function HitTile(mx: int, my: int): (r: Option<Pos>)
    ensures r.Some? ==> InBounds(r.value)
  {
    match (AxisHit(mx, FieldScreenCoordX, FieldWidth), AxisHit(my, FieldScreenCoordY, FieldHeight))
    case (Some(x), Some(y)) => Some(Pos(x, y))
    case _ => None
  }

  /** The closed form picks exactly the first span holding `m`, and none when no span does. */
  lemma AxisHitFirst(m: int, origin: int, n: int)
    requires n > 0
    ensures forall i :: AxisHit(m, origin, n) == Some(i) <==>
              0 <= i < n && InSpan(m, origin, i) && forall j :: 0 <= j < i ==> !InSpan(m, origin, j)
    ensures AxisHit(m, origin, n).None? <==> forall i :: 0 <= i < n ==> !InSpan(m, origin, i)
  {
    if m < origin || m > origin + n * TileSize {
      forall i | 0 <= i < n ensures !InSpan(m, origin, i) {
        assert origin + i * TileSize + TileSize <= origin + n * TileSize;
      }
    } else if m == origin {
      assert InSpan(m, origin, 0);
    } else {
      var k := (m - origin - 1) / TileSize;
      assert k * TileSize <= m - origin - 1 < k * TileSize + TileSize;
      assert 0 <= k < n;
      assert InSpan(m, origin, k);
      forall j | 0 <= j < k ensures !InSpan(m, origin, j) {
        assert j * TileSize + TileSize <= k * TileSize;
      }
      forall i | 0 <= i < n && InSpan(m, origin, i) && (forall j :: 0 <= j < i ==> !InSpan(m, origin, j))
        ensures i == k
      {
      }
    }
  }

  /** A click hits a tile iff it lies in some tile's rectangle, and the tile it hits is
      the first such tile in x-major order: a border pixel shared by two tiles goes to the
      one with the smaller column, then the smaller row. */
  lemma HitTileFirst(mx: int, my: int)
    ensures forall p :: HitTile(mx, my) == Some(p) <==> FirstHit(p, mx, my)
    ensures HitTile(mx, my).None? <==> forall q :: InBounds(q) ==> !InRect(q, mx, my)
  {
    AxisHitFirst(mx, FieldScreenCoordX, FieldWidth);
    AxisHitFirst(my, FieldScreenCoordY, FieldHeight);
  }
}
