/** The play loop of game.js (start), one pass at a time. */
module Play {
  import opened Config
  import opened Boards
  import opened Rules
  import opened Knowledge
  import T = Targeting

  /** One pass of the play loop: the player's shot, then, if it was valid,
      the opponent's shot and the two view refreshes. */
  method Turn(g: Game, select: string) returns (outcome: Outcome, ghost target: T.Coord)
    requires g.Valid() && g.Playing() && ValidSelection(select)
    modifies g`playerSelect, g`playerState, g`enemyState, g`playerSinks, g`enemySinks, g`winners
    modifies g.playerBoard, g.enemyBoard, g.enemyAI, g.enemyAI.statusBoard
    ensures var c := ParseSelection(select); var v := old(g.enemyBoard[c.0, c.1]);
      && (outcome == Retry) == Resolved(v)
      && g.enemyBoard[c.0, c.1] == (if Resolved(v) then v else ShotResult(v))
      && forall x, y :: 0 <= x < N && 0 <= y < N && (x, y) != c ==> g.enemyBoard[x, y] == old(g.enemyBoard[x, y])
    ensures outcome == Retry ==> unchanged(g.playerBoard, g.enemyBoard, g.enemyAI) && unchanged(g.enemyAI.statusBoard)
    ensures outcome == PlayerWon || g.Valid()
    ensures outcome == Retry || outcome == Continue ==> g.Playing() && g.winners == old(g.winners)
    ensures outcome != Retry ==> g.PlayerShots() == old(g.PlayerShots()) + 1
    ensures outcome == PlayerWon ==>
      g.enemyState == Summary(g.enemyBoard) && g.enemyState[HIT] == g.NUM_SHIP_CELL && g.winners == old(g.winners) + [Player]
    ensures outcome == AiWon ==>
      g.playerState[HIT] == g.NUM_SHIP_CELL && g.enemyState[HIT] < g.NUM_SHIP_CELL && g.winners == old(g.winners) + [Ai]
    ensures outcome != Retry ==> T.InGrid(target) && !Resolved(old(g.playerBoard[target.0, target.1]))
    ensures outcome != Retry ==> old(T.Densest(g.enemyAI.statusBoard, g.enemyAI.aliveShips, target))
    ensures outcome != Retry ==> var (i, j) := target; Grid(g.playerBoard) == ShotBoard(old(Grid(g.playerBoard)), i, j)
    ensures outcome != Retry ==> g.OpponentShots() == old(g.OpponentShots()) + 1
    ensures outcome != Retry ==> var (i, j) := target;
      g.enemyAI.shipCoords == ShotLog(old(g.enemyAI.shipCoords), old(g.playerBoard[i, j]), i, j)
    ensures outcome == PlayerWon ==> var (i, j) := target;
      Grid(g.enemyAI.statusBoard) == ShotStatus(old(Grid(g.enemyAI.statusBoard)), old(g.playerBoard[i, j]), i, j)
    ensures outcome == Continue || outcome == AiWon ==> var (i, j) := target;
      Marked(Grid(g.enemyAI.statusBoard), ShotStatus(old(Grid(g.enemyAI.statusBoard)), old(g.playerBoard[i, j]), i, j),
             g.enemyAI.shipCoords, SunkShips(SHIPS, old(g.playerState), g.playerState))
    ensures outcome == Retry ==> g.playerSinks == old(g.playerSinks) && g.enemySinks == old(g.enemySinks)
    ensures outcome != Retry ==> g.enemySinks == old(g.enemySinks) + SunkShips(SHIPS, old(g.enemyState), g.enemyState)
    ensures outcome == PlayerWon ==> g.EnemySinksOk() && g.playerState == old(g.playerState) && g.playerSinks == old(g.playerSinks)
    ensures outcome == PlayerWon ==> g.enemyAI.aliveShips == old(g.enemyAI.aliveShips)
    ensures outcome == Continue || outcome == AiWon ==>
      g.playerSinks == old(g.playerSinks) + SunkShips(SHIPS, old(g.playerState), g.playerState)
  {
    var valid := g.PlayerShot(select);
    if !valid {
      // no shot by the opponent: the target is not meaningful
      outcome, target := Retry, (0, 0);
      return;
    }
    outcome, target := g.Respond();
  }
}
