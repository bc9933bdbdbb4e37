/** The turn rules of the game (game.js, class Game).

    A Game owns the two ground-truth boards (the player's and the
    opponent's), the probability-targeting opponent and one summary per board.
    A turn applies the player's shot to the opponent's board, lets the
    opponent fire at the player's board, then compares the new summaries with
    the previous ones to detect sunk ships and a winner. */
module Rules {
  import opened Config
  import opened Boards
  import T = Targeting
  import opened Knowledge
  import opened Sides

  /** The two sides, as named in sink and winner announcements. */
  datatype Owner = Player | Ai

  /** What one turn of the play loop ends in. */
  datatype Outcome =
    | Retry      // the player chose an already resolved cell; nothing happened
    | Continue   // both shots were fired and nobody has won
    | PlayerWon
    | AiWon

  // ---------------------------------------------------------------------------
  // The player's selection: a row letter followed by a column digit

  predicate ValidSelection(s: string) {
    |s| >= 2 && 'A' <= s[0] && s[0] as int - 'A' as int < N && '0' <= s[1] <= '9' && s[1] as int - '0' as int < N
  }

  /** Row = letter - 'A', column = the digit. */
  function ParseSelection(s: string): (c: T.Coord)
    requires ValidSelection(s)
    ensures T.InGrid(c)
  {
    (s[0] as int - 'A' as int, s[1] as int - '0' as int)
  }

  /** The name of cell (i, j) on the opponent's board, as clicks report it. */
  function CellName(c: T.Coord): string
    requires T.InGrid(c)
  {
    [('A' as int + c.0) as char, ('0' as int + c.1) as char]
  }

  /** Parsing a cell name gives back the cell, and every valid selection
      names the cell it parses to. */
  lemma ParseCellName(c: T.Coord, s: string)
    requires T.InGrid(c) && ValidSelection(s)
    ensures ValidSelection(CellName(c)) && ParseSelection(CellName(c)) == c
    ensures CellName(ParseSelection(s)) == s[..2]
  {
  }

  /** The ships of `ships` whose count went from positive to zero, in order. */
  function SunkShips(ships: seq<int>, before: multiset<int>, after: multiset<int>): seq<int> {
    if ships == [] then []
    else
      var last := ships[|ships| - 1];
      var rest := SunkShips(ships[..|ships| - 1], before, after);
      if before[last] > 0 && after[last] == 0 then rest + [last] else rest
  }

  /** A ship is reported sunk exactly when its count went from positive to zero. */
  lemma {:induction false} SunkShipsMembers(ships: seq<int>, before: multiset<int>, after: multiset<int>)
    ensures forall s :: s in SunkShips(ships, before, after) <==> s in ships && before[s] > 0 && after[s] == 0
  {
    if ships != [] {
      var init, last := ships[..|ships| - 1], ships[|ships| - 1];
      SunkShipsMembers(init, before, after);
      assert ships == init + [last];
      assert forall s :: s in ships <==> s == last || s in init;
    }
  }

  /** Cell c is among the opponent's logged hits on one of `ships`. */
  ghost predicate LoggedHit(coords: map<int, seq<T.Coord>>, ships: seq<int>, c: T.Coord) {
    exists s :: s in ships && s in coords && c in coords[s]
  }

  /** The opponent's status grid went from st to st' by marking every
      logged hit on one of `ships` MISS_SUNK, and nothing else. */
  ghost predicate Marked(st': seq<seq<int>>, st: seq<seq<int>>, coords: map<int, seq<T.Coord>>, ships: seq<int>) {
    && Square(st') && Square(st)
    && forall x, y :: 0 <= x < N && 0 <= y < N ==> MarkedCell(st', st, coords, ships, x, y)
  }

  /** Cell (x, y) of st' is that of st, marked MISS_SUNK when it is a logged hit on one of `ships`. */
  ghost predicate MarkedCell(st': seq<seq<int>>, st: seq<seq<int>>, coords: map<int, seq<T.Coord>>, ships: seq<int>, x: int, y: int)
    requires Square(st') && Square(st) && 0 <= x < N && 0 <= y < N
  {
    st'[x][y] == if LoggedHit(coords, ships, (x, y)) then T.MISS_SUNK else st[x][y]
  }

  /** Marking no ships changes nothing. */
  lemma MarkedNone(st: seq<seq<int>>, coords: map<int, seq<T.Coord>>)
    requires Square(st)
    ensures Marked(st, st, coords, [])
  {
  }

  /** Marking the ships of xs, then those of ys, is marking those of xs + ys. */
  lemma MarkedTwice(st: seq<seq<int>>, st1: seq<seq<int>>, st2: seq<seq<int>>,
                    coords: map<int, seq<T.Coord>>, xs: seq<int>, ys: seq<int>)
    requires Marked(st1, st, coords, xs) && Marked(st2, st1, coords, ys)
    ensures Marked(st2, st, coords, xs + ys)
  {
    forall x, y | 0 <= x < N && 0 <= y < N ensures MarkedCell(st2, st, coords, xs + ys, x, y) {
      assert MarkedCell(st1, st, coords, xs, x, y) && MarkedCell(st2, st1, coords, ys, x, y);
      if LoggedHit(coords, xs + ys, (x, y)) {
        var s :| s in xs + ys && s in coords && (x, y) in coords[s];
        assert s in xs || s in ys;
      }
    }
  }

  /** A sink report for `ship` marks exactly its logged hits. */
  lemma SinkMarks(st: seq<seq<int>>, st': seq<seq<int>>, coords: map<int, seq<T.Coord>>, ship: int)
    requires Square(st) && Square(st') && ship in coords
    requires forall x, y :: 0 <= x < N && 0 <= y < N ==>
      st'[x][y] == if (x, y) in coords[ship] then T.MISS_SUNK else st[x][y]
    ensures Marked(st', st, coords, [ship])
  {
    forall x, y | 0 <= x < N && 0 <= y < N ensures LoggedHit(coords, [ship], (x, y)) <==> (x, y) in coords[ship] {
      if (x, y) in coords[ship] {
        assert ship in [ship];
      }
    }
  }

  /** The sunk ships among the first k + 1 of the catalogue are those among
      the first k, then possibly the (k + 1)-th. */
  lemma SunkShipsStep(k: nat, before: multiset<int>, after: multiset<int>)
    requires k < |SHIPS|
    ensures SunkShips(SHIPS[..k + 1], before, after)
      == SunkShips(SHIPS[..k], before, after) + (if before[SHIPS[k]] > 0 && after[SHIPS[k]] == 0 then [SHIPS[k]] else [])
  {
    assert SHIPS[..k + 1][..k] == SHIPS[..k];
  }

  /** No ship is reported twice in one refresh. */
  lemma {:induction false} SunkShipsDistinct(ships: seq<int>, before: multiset<int>, after: multiset<int>)
    requires NoDuplicates(ships)
    ensures NoDuplicates(SunkShips(ships, before, after))
  {
    if ships != [] {
      var init, last := ships[..|ships| - 1], ships[|ships| - 1];
      assert ships == init + [last];
      NoDuplicatesAppend(init, [last]);
      SunkShipsDistinct(init, before, after);
      SunkShipsMembers(init, before, after);
      NoDuplicatesAppend(SunkShips(init, before, after), [last]);
    }
  }

  class Game {
    const playerBoard: array2<int>
    const enemyBoard: array2<int>
    var playerSelect: string
    const enemyAI: T.ProbabilityAI
    var playerState: multiset<int>
    var enemyState: multiset<int>
    const NUM_SHIP_CELL: nat := NumShipCell()

    /** Where the player's ships lie (the board supplier's placement). */
    ghost const playerLayout: map<int, Placement>
    /** Sink announcements, per owner of the sunk ship, and winner announcements. */
    ghost var playerSinks: seq<int>
    ghost var enemySinks: seq<int>
    ghost var winners: seq<Owner>

    ghost predicate Distinct()
    {
      Apart(playerBoard, enemyBoard, enemyAI.statusBoard)
    }

    /** The opponent's board: well-formed values and conservation of ship cells. */
    ghost predicate EnemyBoardOk()
      reads enemyBoard
    {
      BoardOk(enemyBoard)
    }

    /** The player's board and the opponent's knowledge of it agree. */
    ghost predicate PlayerBoardOk()
      reads playerBoard, enemyAI, enemyAI.statusBoard
    {
      KnowledgeOk(playerBoard, enemyAI, playerLayout)
    }

    /** The opponent still counts a ship as alive exactly when `state` has cells of it. */
    ghost predicate AliveMatches(state: multiset<int>)
      reads enemyAI`aliveShips
    {
      AliveAgrees(enemyAI.aliveShips, state)
    }

    ghost predicate PlayerSinksOk()
      reads this`playerSinks, enemyAI`aliveShips
    {
      SunkOfAlive(playerSinks, enemyAI.aliveShips)
    }

    ghost predicate EnemySinksOk()
      reads this`enemySinks, this`enemyState
    {
      SunkOfState(enemySinks, enemyState)
    }

    /** The invariant between turns, except that the opponent's summary may
        lag behind the opponent's board. */
    ghost predicate Core()
      reads this`playerState, this`enemyState
      reads this`playerSinks, this`enemySinks, playerBoard, enemyBoard, enemyAI, enemyAI.statusBoard
    {
      && Distinct() && PlayerBoardOk() && EnemyBoardOk()
      && playerState == Summary(playerBoard) && AliveMatches(playerState) && PlayerSinksOk() && EnemySinksOk()
    }

    /** The invariant between turns. */
    ghost predicate Valid()
      reads this`playerState, this`enemyState
      reads this`playerSinks, this`enemySinks, playerBoard, enemyBoard, enemyAI, enemyAI.statusBoard
    {
      Core() && enemyState == Summary(enemyBoard)
    }

    /** Neither side has lost all its ship cells. */
    ghost predicate Playing()
      reads this`playerState, this`enemyState
    {
      playerState[HIT] < NUM_SHIP_CELL && enemyState[HIT] < NUM_SHIP_CELL
    }

    /** A game over two supplied boards, with a fresh opponent and the
        initial summaries (the constructor and the set-up part of start). */
    constructor (playerBoard: array2<int>, enemyBoard: array2<int>, ghost layout: map<int, Placement>)
      requires playerBoard != enemyBoard && ValidBoard(playerBoard) && ValidBoard(enemyBoard)
      requires LayoutMatches(Grid(playerBoard), layout)
      ensures Valid() && Playing()
      ensures this.playerBoard == playerBoard && this.enemyBoard == enemyBoard && playerLayout == layout
      ensures fresh(enemyAI) && fresh(enemyAI.statusBoard)
      ensures playerSinks == [] && enemySinks == [] && winners == []
    {
      var ai := new T.ProbabilityAI();
      InitialSides(playerBoard, enemyBoard, ai, layout);
      this.playerBoard := playerBoard;
      this.enemyBoard := enemyBoard;
      playerSelect := "";
      enemyAI := ai;
      playerState := Summary(playerBoard);
      enemyState := Summary(enemyBoard);
      playerLayout := layout;
      playerSinks, enemySinks, winners := [], [], [];
    }

    /** Apply the player's selected shot to the opponent's board. A cell
        already shot at is rejected and nothing changes. */
    method PlayerAction() returns (valid: bool, ghost c: T.Coord)
      requires EnemyBoardOk() && ValidSelection(playerSelect)
      modifies enemyBoard
      ensures c == ParseSelection(playerSelect)
      ensures EnemyBoardOk()
      ensures valid == !Resolved(old(enemyBoard[c.0, c.1]))
      ensures enemyBoard[c.0, c.1] == (if !valid then old(enemyBoard[c.0, c.1]) else ShotResult(old(enemyBoard[c.0, c.1])))
      ensures forall x, y :: 0 <= x < N && 0 <= y < N && (x, y) != c ==> enemyBoard[x, y] == old(enemyBoard[x, y])
      ensures !valid ==> unchanged(enemyBoard)
      ensures Monotone(Summary(enemyBoard), old(Summary(enemyBoard)))
      ensures Summary(enemyBoard)[HIT] + Summary(enemyBoard)[MISS]
           == old(Summary(enemyBoard)[HIT] + Summary(enemyBoard)[MISS]) + (if valid then 1 else 0)
    {
      var (i, j) := ParseSelection(playerSelect);
      c := (i, j);
      var cell := enemyBoard[i, j];
      if cell == HIT || cell == MISS {
        return false, c;
      }
      ghost var m0 := Summary(enemyBoard);
      WriteCell(enemyBoard, i, j, if cell == EMPTY then MISS else HIT);
      forall x, y | 0 <= x < N && 0 <= y < N ensures IsCellValue(enemyBoard[x, y]) {
        if (x, y) != (i, j) {
          assert enemyBoard[x, y] == old(enemyBoard[x, y]);
        }
      }
      ShotKeepsCounts(Summary(enemyBoard), m0, cell, enemyBoard[i, j]);
      return true, c;
    }

    /** The invariant survives any step that leaves everything it reads alone. */
    twostate lemma ValidKept()
      requires old(Valid())
      requires unchanged(this`playerState, this`enemyState)
      requires unchanged(this`playerSinks, this`enemySinks, playerBoard, enemyBoard, enemyAI)
      requires unchanged(enemyAI.statusBoard)
      ensures Valid()
    {
    }

    /** The parts of the invariant that do not read the opponent's board
        survive any step that leaves everything else they read alone. */
    twostate lemma PlayerSideKept()
      requires old(Distinct() && PlayerBoardOk() && playerState == Summary(playerBoard))
      requires old(AliveMatches(playerState) && PlayerSinksOk() && EnemySinksOk())
      requires unchanged(this`playerState, this`enemyState)
      requires unchanged(this`playerSinks, this`enemySinks, playerBoard, enemyAI)
      requires unchanged(enemyAI.statusBoard)
      ensures Distinct() && PlayerBoardOk() && playerState == Summary(playerBoard)
      ensures AliveMatches(playerState) && PlayerSinksOk() && EnemySinksOk()
    {
    }

    /** While the player has not lost every ship cell, some cell still holds
        the id of a ship the opponent counts as alive. */
    lemma ShipCellLeft() returns (s: int, x: int, y: int)
      requires T.IsGrid(playerBoard) && Conserved(Summary(playerBoard))
      requires AliveMatches(Summary(playerBoard)) && Summary(playerBoard)[HIT] < NUM_SHIP_CELL
      ensures IsShip(s) && s in enemyAI.aliveShips && 0 <= x < N && 0 <= y < N && playerBoard[x, y] == s
    {
      var m := Summary(playerBoard);
      CountOfPositive(m, SHIPS);
      var k :| 0 <= k < |SHIPS| && m[SHIPS[k]] > 0;
      s := SHIPS[k];
      SummaryHas(playerBoard, s);
      x, y :| 0 <= x < N && 0 <= y < N && playerBoard[x, y] == s;
    }

    /** The opponent-side parts of the invariant survive any step that leaves
        the opponent's board and the fields they read alone. */
    twostate lemma EnemySideKept()
      requires old(EnemyBoardOk() && EnemySinksOk() && Monotone(Summary(enemyBoard), enemyState))
      requires unchanged(this`enemyState, this`enemySinks)
      requires unchanged(enemyBoard)
      ensures EnemyBoardOk() && EnemySinksOk() && Monotone(Summary(enemyBoard), enemyState)
    {
    }

    /** An up-to-date opponent-side view survives any step that leaves the
        opponent's board and the fields it reads alone. */
    twostate lemma OpponentViewKept()
      requires old(EnemyBoardOk() && EnemySinksOk() && enemyState == Summary(enemyBoard))
      requires unchanged(this`enemyState, this`enemySinks)
      requires unchanged(enemyBoard)
      ensures EnemyBoardOk() && EnemySinksOk() && enemyState == Summary(enemyBoard)
    {
    }

    /** The player's summary is unchanged by any step that leaves the player's board alone. */
    twostate lemma PlayerSummaryKept()
      requires unchanged(playerBoard)
      ensures Grid(playerBoard) == old(Grid(playerBoard)) && Summary(playerBoard) == old(Summary(playerBoard))
    {
    }

    /** How many cells of the opponent's board the player has resolved. */
    ghost function PlayerShots(): nat
      reads enemyBoard
    {
      Summary(enemyBoard)[HIT] + Summary(enemyBoard)[MISS]
    }

    /** How many cells of the player's board the opponent has resolved. */
    ghost function OpponentShots(): nat
      reads playerBoard
    {
      Summary(playerBoard)[HIT] + Summary(playerBoard)[MISS]
    }

    twostate lemma ShotsKept()
      requires unchanged(enemyBoard)
      ensures PlayerShots() == old(PlayerShots())
    {
    }

    /** The player-side parts of the invariant that do not read the player's
        summary survive any step that leaves what they read alone. */
    twostate lemma KnowledgeKept(state: multiset<int>)
      requires old(Distinct() && PlayerBoardOk() && AliveMatches(state) && PlayerSinksOk())
      requires unchanged(this`playerSinks)
      requires unchanged(playerBoard, enemyAI)
      requires unchanged(enemyAI.statusBoard)
      ensures Distinct() && PlayerBoardOk() && AliveMatches(state) && PlayerSinksOk()
    {
    }

    /** There is a cell of positive density while the player has a ship cell
        left: the opponent never has to fall back to a resolved cell. */
    lemma ProductiveTarget()
      requires PlayerBoardOk() && AliveMatches(Summary(playerBoard)) && Summary(playerBoard)[HIT] < NUM_SHIP_CELL
      ensures exists x, y :: 0 <= x < N && 0 <= y < N && T.Density(enemyAI.statusBoard, enemyAI.aliveShips, x, y) > 0
    {
      var s, x, y := ShipCellLeft();
      var st, alive := enemyAI.statusBoard, enemyAI.aliveShips;
      var g, sg := Grid(playerBoard), Grid(st);
      var p, len := playerLayout[s], Size(s);
      assert g[x][y] == s;
      PlacementOpen(g, sg, alive, enemyAI.shipCoords, playerLayout, s, x, y);
      assert st[x, y] == T.UNVISITED;
      var idx := T.IndexOf(alive, s);
      if p.vertical {
        forall x' | p.row <= x' < p.row + len ensures st[x', p.col] != T.MISS_SUNK {
          assert Covers(p, len, x', p.col);
        }
        assert T.VerticalFits(st, p.row, p.col, len);
      } else {
        forall y' | p.col <= y' < p.col + len ensures st[p.row, y'] != T.MISS_SUNK {
          assert Covers(p, len, p.row, y');
        }
        assert T.HorizontalFits(st, p.row, p.col, len);
      }
      T.DensityPositive(st, alive, idx, p.row, p.col, p.vertical, x, y);
    }

    /** Let the opponent fire at the player's board and report the outcome
        back to it. The target is an unresolved cell of maximal density. */
    method OpponentAction() returns (ghost target: T.Coord)
      requires Distinct() && PlayerBoardOk()
      requires playerState == Summary(playerBoard) && AliveMatches(playerState) && playerState[HIT] < NUM_SHIP_CELL
      modifies playerBoard, enemyAI, enemyAI.statusBoard
      ensures Distinct() && PlayerBoardOk()
      ensures enemyAI.aliveShips == old(enemyAI.aliveShips)
      ensures T.InGrid(target) && !Resolved(old(playerBoard[target.0, target.1]))
      ensures old(T.Densest(enemyAI.statusBoard, enemyAI.aliveShips, target))
      ensures var (i, j) := target; var v := old(playerBoard[i, j]);
        && Grid(playerBoard) == ShotBoard(old(Grid(playerBoard)), i, j)
        && Grid(enemyAI.statusBoard) == ShotStatus(old(Grid(enemyAI.statusBoard)), v, i, j)
        && enemyAI.shipCoords == ShotLog(old(enemyAI.shipCoords), v, i, j)
      ensures Monotone(Summary(playerBoard), old(Summary(playerBoard)))
      ensures OpponentShots() == old(OpponentShots()) + 1
    {
      var c := ChooseTarget();
      ShootAt(c);
      target := c;
    }

    /** The opponent's choice: while the player has a ship cell left, the
        cell of maximal density that the opponent picks is one it has not visited. */
    method ChooseTarget() returns (c: T.Coord)
      requires Distinct() && PlayerBoardOk()
      requires playerState == Summary(playerBoard) && AliveMatches(playerState) && playerState[HIT] < NUM_SHIP_CELL
      ensures T.InGrid(c) && enemyAI.statusBoard[c.0, c.1] == T.UNVISITED
      ensures T.Densest(enemyAI.statusBoard, enemyAI.aliveShips, c)
    {
      ProductiveTarget();
      ghost var x0, y0 :| 0 <= x0 < N && 0 <= y0 < N && T.Density(enemyAI.statusBoard, enemyAI.aliveShips, x0, y0) > 0;
      c := enemyAI.SelectTarget();
      assert T.Density(enemyAI.statusBoard, enemyAI.aliveShips, x0, y0) > 0;
    }

    /** The opponent's shot at an unvisited cell (i, j): the hit flag and the
        cell's old value go to the opponent, and the cell becomes a hit or a miss. */
    method ShootAt(c: T.Coord)
      requires PlayerBoardOk() && T.InGrid(c) && enemyAI.statusBoard[c.0, c.1] == T.UNVISITED
      modifies playerBoard, enemyAI, enemyAI.statusBoard
      ensures PlayerBoardOk()
      ensures enemyAI.aliveShips == old(enemyAI.aliveShips)
      ensures !Resolved(old(playerBoard[c.0, c.1]))
      ensures var (i, j) := c; var v := old(playerBoard[i, j]);
        && Grid(playerBoard) == ShotBoard(old(Grid(playerBoard)), i, j)
        && Grid(enemyAI.statusBoard) == ShotStatus(old(Grid(enemyAI.statusBoard)), v, i, j)
        && enemyAI.shipCoords == ShotLog(old(enemyAI.shipCoords), v, i, j)
      ensures Monotone(Summary(playerBoard), old(Summary(playerBoard)))
      ensures OpponentShots() == old(OpponentShots()) + 1
    {
      var (i, j) := c;
      ghost var b0, s0 := Grid(playerBoard), Grid(enemyAI.statusBoard);
      ghost var coords0, m0 := enemyAI.shipCoords, Summary(playerBoard);
      assert s0[i][j] == T.UNVISITED;
      var cell := playerBoard[i, j];
      assert cell == b0[i][j];
      AgreementAfterShot(b0, s0, enemyAI.aliveShips, coords0, playerLayout, i, j);
      // (a warning is logged here if the cell was already resolved; it is not)
      cell := if cell == EMPTY || cell == MISS then MISS else HIT;
      enemyAI.UpdateHit(i, j, cell == HIT, playerBoard[i, j]);
      GridAfterWrite(enemyAI.statusBoard, s0, i, j);
      ghost var s1 := Grid(enemyAI.statusBoard);
      assert s1 == ShotStatus(s0, b0[i][j], i, j);
      assert enemyAI.shipCoords == ShotLog(coords0, b0[i][j], i, j);
      label Recorded:
      WriteCell(playerBoard, i, j, cell);
      enemyAI.ValidKept@Recorded();
      assert Grid(playerBoard) == ShotBoard(b0, i, j);
      assert Grid(enemyAI.statusBoard) == s1;
      ShotKeepsCounts(Summary(playerBoard), m0, b0[i][j], cell);
    }

    /** Announce the opponent's ships that sank this turn, adopt the new
        summary and report whether the player has won. */
    method RefreshOpponentView(newEnemyState: multiset<int>) returns (won: bool)
      requires EnemySinksOk() && Monotone(newEnemyState, enemyState)
      modifies this`enemyState, this`enemySinks, this`winners
      ensures enemyState == newEnemyState && EnemySinksOk()
      ensures enemySinks == old(enemySinks) + SunkShips(SHIPS, old(enemyState), newEnemyState)
      ensures won == (newEnemyState[HIT] == NUM_SHIP_CELL)
      ensures won ==> winners == old(winners) + [Player]
      ensures !won ==> winners == old(winners)
    {
      for k := 0 to |SHIPS|
        invariant enemyState == old(enemyState) && winners == old(winners)
        invariant enemySinks == old(enemySinks) + SunkShips(SHIPS[..k], old(enemyState), newEnemyState)
      {
        var ship := SHIPS[k];
        ghost var sinks0 := enemySinks;
        if enemyState[ship] > 0 && newEnemyState[ship] == 0 {
          enemySinks := enemySinks + [ship];
        }
        SinkLogStep(old(enemySinks), sinks0, enemySinks, k, old(enemyState), newEnemyState);
      }
      assert SHIPS[..|SHIPS|] == SHIPS;
      SinksAfterRefresh(old(enemySinks), old(enemyState), newEnemyState);
      enemyState := newEnemyState;
      won := enemyState[HIT] == NUM_SHIP_CELL;
      if won {
        winners := winners + [Player];
      }
    }

    /** Tell the opponent about the player's ships that sank this turn,
        announce them, adopt the new summary and report whether the opponent has won. */
    method RefreshPlayerView(newPlayerState: multiset<int>) returns (won: bool)
      requires Distinct() && PlayerBoardOk() && AliveMatches(playerState) && PlayerSinksOk()
      requires Monotone(newPlayerState, playerState)
      modifies this`playerState, this`playerSinks, this`winners, enemyAI, enemyAI.statusBoard
      ensures Distinct() && PlayerBoardOk() && AliveMatches(newPlayerState) && PlayerSinksOk()
      ensures playerState == newPlayerState
      ensures playerSinks == old(playerSinks) + SunkShips(SHIPS, old(playerState), newPlayerState)
      ensures enemyAI.shipCoords == old(enemyAI.shipCoords)
      ensures Marked(Grid(enemyAI.statusBoard), old(Grid(enemyAI.statusBoard)), enemyAI.shipCoords,
                     SunkShips(SHIPS, old(playerState), newPlayerState))
      ensures won == (newPlayerState[HIT] == NUM_SHIP_CELL)
      ensures winners == old(winners) + (if won then [Ai] else [])
    {
      assert forall s :: s in playerSinks <==> IsShip(s) && playerState[s] == 0;
      ForwardSinks(newPlayerState);
      SinksAfterRefresh(old(playerSinks), playerState, newPlayerState);
      label Forwarded:
      won := RecordPlayerState(newPlayerState);
      KnowledgeKept@Forwarded(newPlayerState);
    }

    /** The end of the player-side refresh: adopt the new summary and check whether the opponent has won. */
    method RecordPlayerState(newPlayerState: multiset<int>) returns (won: bool)
      modifies this`playerState, this`winners
      ensures playerState == newPlayerState
      ensures won == (newPlayerState[HIT] == NUM_SHIP_CELL)
      ensures winners == old(winners) + (if won then [Ai] else [])
    {
      playerState := newPlayerState;
      won := playerState[HIT] == NUM_SHIP_CELL;
      if won {
        winners := winners + [Ai];
      }
    }

    /** The loop of the player-side sink check, over the ship catalogue. */
    method ForwardSinks(newPlayerState: multiset<int>)
      requires Distinct() && PlayerBoardOk() && AliveMatches(playerState)
      requires Monotone(newPlayerState, playerState)
      modifies this`playerSinks, enemyAI, enemyAI.statusBoard
      ensures Distinct() && PlayerBoardOk() && AliveMatches(newPlayerState)
      ensures playerSinks == old(playerSinks) + SunkShips(SHIPS, playerState, newPlayerState)
      ensures enemyAI.shipCoords == old(enemyAI.shipCoords)
      ensures Marked(Grid(enemyAI.statusBoard), old(Grid(enemyAI.statusBoard)), enemyAI.shipCoords,
                     SunkShips(SHIPS, playerState, newPlayerState))
    {
      ShipsAreDistinct();
      MarkedNone(Grid(enemyAI.statusBoard), enemyAI.shipCoords);
      for k := 0 to |SHIPS|
        invariant Distinct() && PlayerBoardOk()
        invariant enemyAI.shipCoords == old(enemyAI.shipCoords)
        invariant Marked(Grid(enemyAI.statusBoard), old(Grid(enemyAI.statusBoard)), enemyAI.shipCoords,
                         SunkShips(SHIPS[..k], playerState, newPlayerState))
        invariant forall s :: IsShip(s) ==>
          (s in enemyAI.aliveShips <==> (if s in SHIPS[..k] then newPlayerState[s] else playerState[s]) > 0)
        invariant playerSinks == old(playerSinks) + SunkShips(SHIPS[..k], playerState, newPlayerState)
      {
        var ship := SHIPS[k];
        ShipNotSeen(k);
        ghost var alive0, sinks0, marks0 := enemyAI.aliveShips, playerSinks, Grid(enemyAI.statusBoard);
        ForwardSink(ship, newPlayerState);
        AliveStep(alive0, enemyAI.aliveShips, k, playerState, newPlayerState);
        SunkShipsStep(k, playerState, newPlayerState);
        MarkedTwice(old(Grid(enemyAI.statusBoard)), marks0, Grid(enemyAI.statusBoard), enemyAI.shipCoords,
                    SunkShips(SHIPS[..k], playerState, newPlayerState),
                    if playerState[ship] > 0 && newPlayerState[ship] == 0 then [ship] else []);
        SinkLogStep(old(playerSinks), sinks0, playerSinks, k, playerState, newPlayerState);
      }
      assert SHIPS[..|SHIPS|] == SHIPS;
    }

    /** One step of the player-side sink check: if `ship` went from some
        cells to none, tell the opponent (which drops it from its alive
        ships and marks its logged hits MISS_SUNK) and announce it. */
    method ForwardSink(ship: int, newPlayerState: multiset<int>)
      requires Distinct() && PlayerBoardOk() && IsShip(ship)
      requires ship in enemyAI.aliveShips <==> playerState[ship] > 0
      requires newPlayerState[ship] <= playerState[ship]
      modifies this`playerSinks, enemyAI, enemyAI.statusBoard
      ensures Distinct() && PlayerBoardOk()
      ensures playerSinks == old(playerSinks) + (if playerState[ship] > 0 && newPlayerState[ship] == 0 then [ship] else [])
      ensures forall s :: IsShip(s) ==>
        (s in enemyAI.aliveShips <==> if s == ship then newPlayerState[s] > 0 else s in old(enemyAI.aliveShips))
      ensures enemyAI.shipCoords == old(enemyAI.shipCoords)
      ensures Marked(Grid(enemyAI.statusBoard), old(Grid(enemyAI.statusBoard)), enemyAI.shipCoords,
                     if playerState[ship] > 0 && newPlayerState[ship] == 0 then [ship] else [])
    {
      if playerState[ship] > 0 && newPlayerState[ship] == 0 {
        ghost var s0, alive0 := Grid(enemyAI.statusBoard), enemyAI.aliveShips;
        enemyAI.UpdateSink(ship);
        SinkMarks(s0, Grid(enemyAI.statusBoard), enemyAI.shipCoords, ship);
        AgreementAfterSink(Grid(playerBoard), s0, Grid(enemyAI.statusBoard), alive0,
                           enemyAI.shipCoords, playerLayout, ship);
        playerSinks := playerSinks + [ship];
      } else {
        MarkedNone(Grid(enemyAI.statusBoard), enemyAI.shipCoords);
      }
    }

    /** The player's shot, with what it leaves of the invariant: all of it
        after a rejected selection, all but the opponent's summary after a
        shot that landed. */
    method PlayerShot(select: string) returns (valid: bool)
      requires Valid() && Playing() && ValidSelection(select)
      modifies this`playerSelect, enemyBoard
      ensures !valid ==> Valid() && unchanged(enemyBoard)
      ensures !valid ==> Playing() && unchanged(playerBoard, enemyAI) && unchanged(enemyAI.statusBoard)
      ensures valid ==> Core() && Monotone(Summary(enemyBoard), enemyState)
      ensures PlayerShots() == old(PlayerShots()) + (if valid then 1 else 0)
      ensures winners == old(winners)
      ensures var (i, j) := ParseSelection(select);
        && valid == !Resolved(old(enemyBoard[i, j]))
        && enemyBoard[i, j] == (if valid then ShotResult(old(enemyBoard[i, j])) else old(enemyBoard[i, j]))
        && forall x, y :: 0 <= x < N && 0 <= y < N && (x, y) != (i, j) ==> enemyBoard[x, y] == old(enemyBoard[x, y])
    {
      playerSelect := select;
      ValidKept();
      ghost var c;
      valid, c := PlayerAction();
      PlayerSideKept();
    }

    /** The rest of a turn after a valid shot by the player: the opponent's
        shot, then the refreshes. */
    method Respond() returns (outcome: Outcome, ghost target: T.Coord)
      requires Core() && Playing() && Monotone(Summary(enemyBoard), enemyState)
      modifies this`playerState, this`enemyState, this`playerSinks, this`enemySinks, this`winners
      modifies playerBoard, enemyAI, enemyAI.statusBoard
      ensures outcome != Retry
      ensures outcome == Continue ==> Playing() && winners == old(winners)
      ensures outcome == PlayerWon ==>
        enemyState == Summary(enemyBoard) && enemyState[HIT] == NUM_SHIP_CELL && winners == old(winners) + [Player]
      ensures outcome == AiWon ==>
        playerState[HIT] == NUM_SHIP_CELL && enemyState[HIT] < NUM_SHIP_CELL && winners == old(winners) + [Ai]
      ensures unchanged(enemyBoard) && PlayerShots() == old(PlayerShots())
      ensures T.InGrid(target) && !Resolved(old(playerBoard[target.0, target.1]))
      ensures old(T.Densest(enemyAI.statusBoard, enemyAI.aliveShips, target))
      ensures var (i, j) := target; Grid(playerBoard) == ShotBoard(old(Grid(playerBoard)), i, j)
      ensures OpponentShots() == old(OpponentShots()) + 1
      ensures var (i, j) := target; enemyAI.shipCoords == ShotLog(old(enemyAI.shipCoords), old(playerBoard[i, j]), i, j)
      ensures var (i, j) := target; outcome == PlayerWon ==>
        Grid(enemyAI.statusBoard) == ShotStatus(old(Grid(enemyAI.statusBoard)), old(playerBoard[i, j]), i, j)
      ensures var (i, j) := target; outcome != PlayerWon ==>
        Marked(Grid(enemyAI.statusBoard), ShotStatus(old(Grid(enemyAI.statusBoard)), old(playerBoard[i, j]), i, j),
               enemyAI.shipCoords, SunkShips(SHIPS, old(playerState), playerState))
      ensures enemySinks == old(enemySinks) + SunkShips(SHIPS, old(enemyState), enemyState) && EnemySinksOk()
      ensures outcome == PlayerWon ==> playerState == old(playerState) && playerSinks == old(playerSinks)
      ensures outcome == PlayerWon ==> enemyAI.aliveShips == old(enemyAI.aliveShips)
      ensures outcome != PlayerWon ==> playerSinks == old(playerSinks) + SunkShips(SHIPS, old(playerState), playerState)
      ensures outcome == PlayerWon || Valid()
    {
      target := OpponentShot();
      label Fired:
      outcome := Refresh();
      PlayerSummaryKept@Fired();
      ShotsKept@Fired();
    }

    /** The opponent's shot, with what it leaves of the invariant: both
        summaries may now lag behind their boards. */
    method OpponentShot() returns (ghost target: T.Coord)
      requires Core() && Playing() && Monotone(Summary(enemyBoard), enemyState)
      modifies playerBoard, enemyAI, enemyAI.statusBoard
      ensures Shot() && enemyState[HIT] < NUM_SHIP_CELL
      ensures T.InGrid(target) && !Resolved(old(playerBoard[target.0, target.1]))
      ensures old(T.Densest(enemyAI.statusBoard, enemyAI.aliveShips, target))
      ensures var (i, j) := target; var v := old(playerBoard[i, j]);
        && Grid(playerBoard) == ShotBoard(old(Grid(playerBoard)), i, j)
        && Grid(enemyAI.statusBoard) == ShotStatus(old(Grid(enemyAI.statusBoard)), v, i, j)
        && enemyAI.shipCoords == ShotLog(old(enemyAI.shipCoords), v, i, j)
      ensures OpponentShots() == old(OpponentShots()) + 1
      ensures enemyAI.aliveShips == old(enemyAI.aliveShips)
    {
      target := OpponentAction();
      EnemySideKept();
    }

    /** Both shots have been fired; the summaries are about to be refreshed. */
    ghost predicate Shot()
      reads this`playerState, this`enemyState
      reads this`playerSinks, this`enemySinks, playerBoard, enemyBoard, enemyAI, enemyAI.statusBoard
    {
      && Distinct() && PlayerBoardOk() && EnemyBoardOk()
      && AliveMatches(playerState) && PlayerSinksOk() && EnemySinksOk()
      && Monotone(Summary(playerBoard), playerState) && Monotone(Summary(enemyBoard), enemyState)
    }

    /** Fetch both summaries, refresh the opponent's view, then, unless the
        player has won, the player's view. */
    method Refresh() returns (outcome: Outcome)
      requires Shot() && enemyState[HIT] < NUM_SHIP_CELL
      modifies this`playerState, this`enemyState, this`playerSinks, this`enemySinks, this`winners
      modifies enemyAI, enemyAI.statusBoard
      ensures outcome != Retry
      ensures outcome != PlayerWon ==> Valid()
      ensures outcome == Continue ==> Playing() && winners == old(winners)
      ensures outcome == PlayerWon ==>
        enemyState == Summary(enemyBoard) && enemyState[HIT] == NUM_SHIP_CELL && winners == old(winners) + [Player]
      ensures outcome == AiWon ==>
        playerState[HIT] == NUM_SHIP_CELL && enemyState[HIT] < NUM_SHIP_CELL && winners == old(winners) + [Ai]
      ensures outcome == PlayerWon ==> playerState == old(playerState) && playerSinks == old(playerSinks)
      ensures outcome == PlayerWon ==> enemyAI.aliveShips == old(enemyAI.aliveShips)
      ensures enemySinks == old(enemySinks) + SunkShips(SHIPS, old(enemyState), enemyState) && EnemySinksOk()
      ensures outcome == PlayerWon ==> Grid(enemyAI.statusBoard) == old(Grid(enemyAI.statusBoard))
      ensures outcome != PlayerWon ==> playerSinks == old(playerSinks) + SunkShips(SHIPS, old(playerState), playerState)
      ensures enemyAI.shipCoords == old(enemyAI.shipCoords)
      ensures outcome != PlayerWon ==>
        Marked(Grid(enemyAI.statusBoard), old(Grid(enemyAI.statusBoard)), enemyAI.shipCoords,
               SunkShips(SHIPS, old(playerState), playerState))
    {
      var newEnemyState := Summary(enemyBoard);
      assert newEnemyState[HIT] <= NUM_SHIP_CELL;
      var playerWon := RefreshOpponentView(newEnemyState);
      if playerWon {
        return PlayerWon;
      }
      outcome := FinishTurn();
    }

    /** The second half of the refresh, once the player has not won: bring the
        player-side summary up to date and check whether the opponent has won. */
    method FinishTurn() returns (outcome: Outcome)
      requires Distinct() && PlayerBoardOk() && EnemyBoardOk() && AliveMatches(playerState) && PlayerSinksOk()
      requires enemyState == Summary(enemyBoard) && EnemySinksOk() && enemyState[HIT] < NUM_SHIP_CELL
      requires Monotone(Summary(playerBoard), playerState)
      modifies this`playerState, this`playerSinks, this`winners, enemyAI, enemyAI.statusBoard
      ensures enemySinks == old(enemySinks) && enemyState == old(enemyState)
      ensures outcome == Continue || outcome == AiWon
      ensures Valid()
      ensures outcome == Continue ==> Playing() && winners == old(winners)
      ensures outcome == AiWon ==>
        playerState[HIT] == NUM_SHIP_CELL && enemyState[HIT] < NUM_SHIP_CELL && winners == old(winners) + [Ai]
      ensures playerSinks == old(playerSinks) + SunkShips(SHIPS, old(playerState), playerState)
      ensures enemyAI.shipCoords == old(enemyAI.shipCoords)
      ensures Marked(Grid(enemyAI.statusBoard), old(Grid(enemyAI.statusBoard)), enemyAI.shipCoords,
                     SunkShips(SHIPS, old(playerState), playerState))
    {
      var newPlayerState := Summary(playerBoard);
      label Start:
      var enemyWon := RefreshPlayerView(newPlayerState);
      OpponentViewKept@Start();
      PlayerSummaryKept@Start();
      if enemyWon {
        return AiWon;
      }
      return Continue;
    }
  }

  /** The loop over the ship catalogue has not met its k-th ship before. */
  lemma ShipNotSeen(k: nat)
    requires k < |SHIPS|
    ensures SHIPS[k] !in SHIPS[..k]
  {
    ShipsAreDistinct();
    assert SHIPS == SHIPS[..k] + SHIPS[k..] && SHIPS[k..][0] == SHIPS[k];
    NoDuplicatesAppend(SHIPS[..k], SHIPS[k..]);
  }

  /** One step of a sink-check loop: the log grows by the k-th ship exactly
      when it sank, so it stays the sunk ships among those seen so far. */
  lemma SinkLogStep(log: seq<int>, log0: seq<int>, log1: seq<int>, k: nat, before: multiset<int>, after: multiset<int>)
    requires k < |SHIPS|
    requires log0 == log + SunkShips(SHIPS[..k], before, after)
    requires log1 == log0 + (if before[SHIPS[k]] > 0 && after[SHIPS[k]] == 0 then [SHIPS[k]] else [])
    ensures log1 == log + SunkShips(SHIPS[..k + 1], before, after)
  {
    assert SHIPS[..k + 1][..k] == SHIPS[..k];
  }

  /** One step of the player-side sink check: the opponent's alive ships
      follow the new counts for the ships seen so far and the old counts for the rest. */
  lemma AliveStep(alive0: seq<int>, alive1: seq<int>, k: nat, before: multiset<int>, after: multiset<int>)
    requires k < |SHIPS|
    requires forall s :: IsShip(s) ==> (s in alive0 <==> (if s in SHIPS[..k] then after[s] else before[s]) > 0)
    requires forall s :: IsShip(s) ==> (s in alive1 <==> if s == SHIPS[k] then after[s] > 0 else s in alive0)
    ensures forall s :: IsShip(s) ==> (s in alive1 <==> (if s in SHIPS[..k + 1] then after[s] else before[s]) > 0)
  {
    ShipNotSeen(k);
    assert SHIPS[..k + 1] == SHIPS[..k] + [SHIPS[k]];
    assert forall s :: s in SHIPS[..k + 1] <==> s in SHIPS[..k] || s == SHIPS[k];
  }

  /** Appending this turn's sunk ships to the announced ones keeps them
      exactly the ships whose count is zero. */
  lemma SinksAfterRefresh(sinks: seq<int>, before: multiset<int>, after: multiset<int>)
    requires NoDuplicates(sinks)
    requires forall s :: s in sinks <==> IsShip(s) && before[s] == 0
    requires Monotone(after, before)
    ensures NoDuplicates(sinks + SunkShips(SHIPS, before, after))
    ensures forall s :: s in sinks + SunkShips(SHIPS, before, after) <==> IsShip(s) && after[s] == 0
  {
    ShipsAreDistinct();
    SunkShipsDistinct(SHIPS, before, after);
    SunkShipsMembers(SHIPS, before, after);
    NoDuplicatesAppend(sinks, SunkShips(SHIPS, before, after));
  }

}
