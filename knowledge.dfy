/** What the player's board, the placement of the player's ships and the
    opponent's knowledge say about each other, and how one shot or one sink
    report keeps them consistent. The opponent only ever learns of the
    player's board through the hit flag and the cell value passed with each
    shot, so these facts are what make its targeting sound. */
module Knowledge {
  import opened Config
  import opened Boards
  import T = Targeting

  /** Where a ship lies: its first cell and its orientation. */
  datatype Placement = Placement(row: int, col: int, vertical: bool)

  predicate Covers(p: Placement, len: nat, x: int, y: int) {
    if p.vertical then y == p.col && p.row <= x < p.row + len
    else x == p.row && p.col <= y < p.col + len
  }

  predicate PlacementInGrid(p: Placement, len: nat) {
    0 <= p.row && 0 <= p.col
    && (if p.vertical then p.row + len <= N && p.col < N else p.col + len <= N && p.row < N)
  }

  /** A cell already shot at. */
  predicate Resolved(v: int) {
    v == HIT || v == MISS
  }

  predicate IsCellValue(v: int) {
    v == EMPTY || v == HIT || v == MISS || IsShip(v)
  }

  /** The value the opponent's shot leaves in a cell: water or an old miss
      becomes a miss, anything else a hit. */
  function ShotResult(v: int): int {
    if v == EMPTY || v == MISS then MISS else HIT
  }

  /** Hit cells plus cells still holding a ship id add up to the total ship length. */
  predicate Conserved(m: multiset<int>) {
    m[HIT] + CountOf(m, SHIPS) == NumShipCell()
  }

  /** No ship's count has grown. */
  ghost predicate Monotone(newer: multiset<int>, older: multiset<int>) {
    forall s :: IsShip(s) ==> newer[s] <= older[s]
  }

  /** A board as the board supplier delivers it: every cell empty or a ship id,
      and each ship occupying exactly as many cells as its length. */
  ghost predicate ValidBoard(b: array2<int>)
    reads b
  {
    && T.IsGrid(b)
    && (forall x, y :: 0 <= x < N && 0 <= y < N ==> b[x, y] == EMPTY || IsShip(b[x, y]))
    && (forall s :: IsShip(s) ==> Summary(b)[s] == Size(s))
  }

  /** A snapshot of an N x N board. */
  ghost predicate Square(g: seq<seq<int>>) {
    |g| == N && forall r :: 0 <= r < N ==> |g[r]| == N
  }

  /** `layout` places every ship on the grid, and a cell of g holds a ship id
      exactly when that ship's placement covers it. */
  ghost predicate LayoutMatches(g: seq<seq<int>>, layout: map<int, Placement>) {
    && Square(g)
    && (forall s :: IsShip(s) ==> s in layout && PlacementInGrid(layout[s], Size(s)))
    && (forall s, x, y :: IsShip(s) && 0 <= x < N && 0 <= y < N ==>
          (g[x][y] == s <==> Covers(layout[s], Size(s), x, y)))
  }

  /** Every cell holds a board value, and the opponent has not visited
      exactly the cells not yet shot at. */
  ghost predicate CellsOk(b: seq<seq<int>>, st: seq<seq<int>>) {
    && Square(b) && Square(st)
    && (forall x, y :: 0 <= x < N && 0 <= y < N ==> IsCellValue(b[x][y]))
    && (forall x, y :: 0 <= x < N && 0 <= y < N ==> (st[x][y] == T.UNVISITED <==> !Resolved(b[x][y])))
  }

  /** Every ship is placed on the grid, and no two placements overlap. */
  ghost predicate LayoutOk(layout: map<int, Placement>) {
    && (forall s :: IsShip(s) ==> s in layout && PlacementInGrid(layout[s], Size(s)))
    && (forall s, s', x, y :: IsShip(s) && IsShip(s') && s != s' && Covers(layout[s], Size(s), x, y) ==>
          !Covers(layout[s'], Size(s'), x, y))
  }

  /** A ship id stays inside its own placement, and a placement holds only
      its own id or hits. */
  ghost predicate ShipsPlaced(b: seq<seq<int>>, layout: map<int, Placement>)
    requires Square(b) && LayoutOk(layout)
  {
    && (forall x, y :: 0 <= x < N && 0 <= y < N && IsShip(b[x][y]) ==>
          Covers(layout[b[x][y]], Size(b[x][y]), x, y))
    && (forall s, x, y {:trigger Covers(layout[s], Size(s), x, y)} ::
          IsShip(s) && 0 <= x < N && 0 <= y < N && Covers(layout[s], Size(s), x, y) ==>
          b[x][y] == s || b[x][y] == HIT)
  }

  /** Every logged hit of a ship lies in its placement and is a hit on the board. */
  ghost predicate HitsLogged(b: seq<seq<int>>, coords: map<int, seq<T.Coord>>, layout: map<int, Placement>)
    requires Square(b) && LayoutOk(layout)
  {
    && (forall s :: IsShip(s) ==> s in coords)
    && (forall s, c {:trigger c in coords[s]} :: IsShip(s) && c in coords[s] ==>
          Covers(layout[s], Size(s), c.0, c.1) && 0 <= c.0 < N && 0 <= c.1 < N && b[c.0][c.1] == HIT)
  }

  /** No cell of a ship still alive is marked MISS_SUNK. */
  ghost predicate AliveOpen(st: seq<seq<int>>, alive: seq<int>, layout: map<int, Placement>)
    requires Square(st) && LayoutOk(layout)
  {
    forall s, x, y {:trigger Covers(layout[s], Size(s), x, y)} ::
      IsShip(s) && s in alive && 0 <= x < N && 0 <= y < N && Covers(layout[s], Size(s), x, y)
      ==> st[x][y] != T.MISS_SUNK
  }

  /** What the player's board b, the ground-truth placement and the
      opponent's knowledge (status snapshot st, alive ships, hit log) say
      consistently about each other. */
  ghost predicate Agreement(b: seq<seq<int>>, st: seq<seq<int>>, alive: seq<int>,
                            coords: map<int, seq<T.Coord>>, layout: map<int, Placement>)
  {
    && CellsOk(b, st) && LayoutOk(layout)
    && ShipsPlaced(b, layout) && HitsLogged(b, coords, layout) && AliveOpen(st, alive, layout)
  }

  /** A cell still holding the id of a ship the opponent counts as alive is
      unvisited, and no cell of that ship's placement is marked MISS_SUNK. */
  lemma PlacementOpen(b: seq<seq<int>>, st: seq<seq<int>>, alive: seq<int>,
                      coords: map<int, seq<T.Coord>>, layout: map<int, Placement>, s: int, x: int, y: int)
    requires Agreement(b, st, alive, coords, layout)
    requires IsShip(s) && s in alive && 0 <= x < N && 0 <= y < N && b[x][y] == s
    ensures st[x][y] == T.UNVISITED
    ensures Covers(layout[s], Size(s), x, y) && PlacementInGrid(layout[s], Size(s))
    ensures forall x', y' :: 0 <= x' < N && 0 <= y' < N && Covers(layout[s], Size(s), x', y') ==> st[x'][y'] != T.MISS_SUNK
  {
  }

  /** The board after a shot at (i, j) and the opponent's record of it. */
  function ShotBoard(b: seq<seq<int>>, i: int, j: int): seq<seq<int>>
    requires Square(b) && 0 <= i < N && 0 <= j < N
  {
    b[i := b[i][j := ShotResult(b[i][j])]]
  }

  /** The opponent's status board after `updateHit` at (i, j) for a shot at an
      unresolved cell holding v: MISS_SUNK on a miss, HIT on a ship. */
  function ShotStatus(st: seq<seq<int>>, v: int, i: int, j: int): seq<seq<int>>
    requires Square(st) && 0 <= i < N && 0 <= j < N && (v == EMPTY || IsShip(v))
  {
    st[i := st[i][j := if v == EMPTY then T.MISS_SUNK else HIT]]
  }

  /** The opponent's hit logs after the same call: (i, j) appended to ship v's log on a hit. */
  function ShotLog(coords: map<int, seq<T.Coord>>, v: int, i: int, j: int): map<int, seq<T.Coord>>
    requires (v == EMPTY || IsShip(v)) && (v != EMPTY ==> v in coords)
  {
    if v == EMPTY then coords else coords[v := coords[v] + [(i, j)]]
  }

  lemma CellsAfterShot(b: seq<seq<int>>, st: seq<seq<int>>, i: int, j: int)
    requires CellsOk(b, st) && 0 <= i < N && 0 <= j < N && !Resolved(b[i][j])
    ensures CellsOk(ShotBoard(b, i, j), ShotStatus(st, b[i][j], i, j))
  {
  }

  lemma PlacedAfterShot(b: seq<seq<int>>, layout: map<int, Placement>, i: int, j: int)
    requires Square(b) && LayoutOk(layout) && ShipsPlaced(b, layout)
    requires 0 <= i < N && 0 <= j < N && !Resolved(b[i][j])
    ensures ShipsPlaced(ShotBoard(b, i, j), layout)
  {
    var b' := ShotBoard(b, i, j);
    forall s, x, y | IsShip(s) && 0 <= x < N && 0 <= y < N && Covers(layout[s], Size(s), x, y)
      ensures b'[x][y] == s || b'[x][y] == HIT
    {
      if (x, y) == (i, j) {
        assert b[x][y] == s;
      }
    }
  }

  lemma LoggedAfterShot(b: seq<seq<int>>, coords: map<int, seq<T.Coord>>, layout: map<int, Placement>, i: int, j: int)
    requires Square(b) && LayoutOk(layout) && ShipsPlaced(b, layout) && HitsLogged(b, coords, layout)
    requires 0 <= i < N && 0 <= j < N && !Resolved(b[i][j]) && (b[i][j] == EMPTY || IsShip(b[i][j]))
    ensures HitsLogged(ShotBoard(b, i, j), ShotLog(coords, b[i][j], i, j), layout)
  {
    var v := b[i][j];
    var b', coords' := ShotBoard(b, i, j), ShotLog(coords, v, i, j);
    forall s, c: T.Coord | IsShip(s) && c in coords'[s]
      ensures Covers(layout[s], Size(s), c.0, c.1) && 0 <= c.0 < N && 0 <= c.1 < N && b'[c.0][c.1] == HIT
    {
      if c !in coords[s] {
        assert s == v && c == (i, j);
      } else {
        assert c != (i, j);
      }
    }
  }

  lemma OpenAfterShot(b: seq<seq<int>>, st: seq<seq<int>>, alive: seq<int>, layout: map<int, Placement>, i: int, j: int)
    requires Square(b) && Square(st) && LayoutOk(layout) && ShipsPlaced(b, layout) && AliveOpen(st, alive, layout)
    requires 0 <= i < N && 0 <= j < N && !Resolved(b[i][j]) && (b[i][j] == EMPTY || IsShip(b[i][j]))
    ensures AliveOpen(ShotStatus(st, b[i][j], i, j), alive, layout)
  {
    var st' := ShotStatus(st, b[i][j], i, j);
    forall s, x, y | IsShip(s) && s in alive && 0 <= x < N && 0 <= y < N && Covers(layout[s], Size(s), x, y)
      ensures st'[x][y] != T.MISS_SUNK
    {
      if (x, y) == (i, j) {
        assert b[x][y] == s;
      }
    }
  }

  /** The opponent's shot at an unresolved cell (i, j), reported back with
      the hit flag and the cell's old value, keeps the agreement. */
  lemma AgreementAfterShot(b: seq<seq<int>>, st: seq<seq<int>>, alive: seq<int>,
                           coords: map<int, seq<T.Coord>>, layout: map<int, Placement>, i: int, j: int)
    requires Agreement(b, st, alive, coords, layout)
    requires 0 <= i < N && 0 <= j < N && !Resolved(b[i][j])
    ensures Agreement(ShotBoard(b, i, j), ShotStatus(st, b[i][j], i, j), alive, ShotLog(coords, b[i][j], i, j), layout)
  {
    CellsAfterShot(b, st, i, j);
    PlacedAfterShot(b, layout, i, j);
    LoggedAfterShot(b, coords, layout, i, j);
    OpenAfterShot(b, st, alive, layout, i, j);
  }

  lemma CellsAfterSink(b: seq<seq<int>>, st: seq<seq<int>>, st': seq<seq<int>>,
                       coords: map<int, seq<T.Coord>>, layout: map<int, Placement>, ship: int)
    requires CellsOk(b, st) && LayoutOk(layout) && HitsLogged(b, coords, layout) && IsShip(ship) && Square(st')
    requires forall x, y :: 0 <= x < N && 0 <= y < N ==>
      st'[x][y] == if (x, y) in coords[ship] then T.MISS_SUNK else st[x][y]
    ensures CellsOk(b, st')
  {
    forall x, y | 0 <= x < N && 0 <= y < N
      ensures st'[x][y] == T.UNVISITED <==> !Resolved(b[x][y])
    {
      if (x, y) in coords[ship] {
        assert b[x][y] == HIT;
      }
    }
  }

  lemma OpenAfterSink(b: seq<seq<int>>, st: seq<seq<int>>, st': seq<seq<int>>, alive: seq<int>,
                      coords: map<int, seq<T.Coord>>, layout: map<int, Placement>, ship: int)
    requires Square(b) && Square(st) && Square(st') && LayoutOk(layout)
    requires HitsLogged(b, coords, layout) && AliveOpen(st, alive, layout)
    requires IsShip(ship) && ship in alive && NoDuplicates(alive)
    requires forall x, y :: 0 <= x < N && 0 <= y < N ==>
      st'[x][y] == if (x, y) in coords[ship] then T.MISS_SUNK else st[x][y]
    ensures AliveOpen(st', T.RemoveFirst(alive, ship), layout)
  {
    var alive' := T.RemoveFirst(alive, ship);
    forall s, x, y | IsShip(s) && s in alive' && 0 <= x < N && 0 <= y < N && Covers(layout[s], Size(s), x, y)
      ensures st'[x][y] != T.MISS_SUNK
    {
      assert s != ship;
    }
  }

  /** Sinking an alive ship, which marks its logged hits MISS_SUNK (st') and
      drops it from the alive ships, keeps the agreement. */
  lemma AgreementAfterSink(b: seq<seq<int>>, st: seq<seq<int>>, st': seq<seq<int>>, alive: seq<int>,
                           coords: map<int, seq<T.Coord>>, layout: map<int, Placement>, ship: int)
    requires Agreement(b, st, alive, coords, layout)
    requires IsShip(ship) && ship in alive && NoDuplicates(alive) && Square(st')
    requires forall x, y :: 0 <= x < N && 0 <= y < N ==>
      st'[x][y] == if (x, y) in coords[ship] then T.MISS_SUNK else st[x][y]
    ensures Agreement(b, st', T.RemoveFirst(alive, ship), coords, layout)
  {
    CellsAfterSink(b, st, st', coords, layout, ship);
    OpenAfterSink(b, st, st', alive, coords, layout, ship);
  }

  /** A supplied board agrees with the placement and a fresh opponent. */
  lemma InitialAgreement(b: seq<seq<int>>, st: seq<seq<int>>, coords: map<int, seq<T.Coord>>, layout: map<int, Placement>)
    requires LayoutMatches(b, layout) && Square(st)
    requires forall x, y :: 0 <= x < N && 0 <= y < N ==> b[x][y] == EMPTY || IsShip(b[x][y])
    requires forall x, y :: 0 <= x < N && 0 <= y < N ==> st[x][y] == T.UNVISITED
    requires forall s :: IsShip(s) ==> s in coords && coords[s] == []
    ensures Agreement(b, st, SHIPS, coords, layout)
  {
    forall s, s', x, y | IsShip(s) && IsShip(s') && s != s' && Covers(layout[s], Size(s), x, y)
      ensures !Covers(layout[s'], Size(s'), x, y)
    {
      assert 0 <= x < N && 0 <= y < N;
      assert b[x][y] == s;
    }
  }

  /** One shot trades the old value o of a cell for w. The shots the game
      makes (EMPTY or MISS to MISS, a ship id or HIT to HIT) keep the
      conservation of hit and ship cells and never raise a ship's count. */
  lemma ShotKeepsCounts(m1: multiset<int>, m0: multiset<int>, o: int, w: int)
    requires m1 + multiset{o} == m0 + multiset{w}
    requires ((o == EMPTY || o == MISS) && w == MISS) || ((IsShip(o) || o == HIT) && w == HIT)
    requires Conserved(m0)
    ensures Conserved(m1) && Monotone(m1, m0)
    ensures m1[HIT] + m1[MISS] == m0[HIT] + m0[MISS] + (if Resolved(o) then 0 else 1)
  {
    ShipsAreDistinct();
    CountOfTrade(m1, m0, o, w, SHIPS);
    assert (m1 + multiset{o})[HIT] == (m0 + multiset{w})[HIT];
    assert (m1 + multiset{o})[MISS] == (m0 + multiset{w})[MISS];
    forall s | IsShip(s) ensures m1[s] <= m0[s] {
      assert (m1 + multiset{o})[s] == (m0 + multiset{w})[s];
    }
  }
}
