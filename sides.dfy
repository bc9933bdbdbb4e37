/** The consistency conditions a game keeps between turns, stated over the
    parts of the game they concern: each side's board, the opponent's
    knowledge of the player's board, the summaries and the sink
    announcements. */
module Sides {
  import opened Config
  import opened Boards
  import T = Targeting
  import opened Knowledge

  /** The player's board, the opponent's board and the opponent's status board are three different arrays. */
  predicate Apart(player: array2<int>, enemy: array2<int>, status: array2<int>) {
    player != enemy && status != player && status != enemy
  }

  /** A ground-truth board under play: N x N, every cell a ship id, EMPTY,
      HIT or MISS, and every ship cell either still there or counted as HIT. */
  ghost predicate BoardOk(b: array2<int>)
    reads b
  {
    && T.IsGrid(b)
    && (forall x, y :: 0 <= x < N && 0 <= y < N ==> IsCellValue(b[x, y]))
    && Conserved(Summary(b))
  }

  /** The player's board b is well formed and the opponent's knowledge of it
      agrees with it and with the placement of the player's ships. */
  ghost predicate KnowledgeOk(b: array2<int>, ai: T.ProbabilityAI, layout: map<int, Placement>)
    reads b, ai, ai.statusBoard
  {
    && T.IsGrid(b) && ai.Valid() && b != ai.statusBoard
    && Conserved(Summary(b))
    && Agreement(Grid(b), Grid(ai.statusBoard), ai.aliveShips, ai.shipCoords, layout)
  }

  /** The opponent counts a ship as alive exactly when `state` has cells of it. */
  ghost predicate AliveAgrees(alive: seq<int>, state: multiset<int>) {
    forall s :: IsShip(s) ==> (s in alive <==> state[s] > 0)
  }

  /** The player-side announcements name, once each, the ships the opponent no longer counts as alive. */
  ghost predicate SunkOfAlive(sinks: seq<int>, alive: seq<int>) {
    NoDuplicates(sinks) && forall s :: s in sinks <==> IsShip(s) && s !in alive
  }

  /** The opponent-side announcements name, once each, the ships with no cell left in the summary. */
  ghost predicate SunkOfState(sinks: seq<int>, state: multiset<int>) {
    NoDuplicates(sinks) && forall s :: s in sinks <==> IsShip(s) && state[s] == 0
  }

  /** A supplied board has no resolved cell and satisfies the conservation of ship cells. */
  lemma InitialCounts(b: array2<int>)
    requires ValidBoard(b)
    ensures BoardOk(b) && Summary(b)[HIT] == 0 && Summary(b)[MISS] == 0
    ensures forall s :: IsShip(s) ==> Summary(b)[s] > 0
  {
    SummaryHas(b, HIT);
    SummaryHas(b, MISS);
    ShipsAreDistinct();
    CountOfSizes(Summary(b), SHIPS);
  }

  /** The starting position: two supplied boards, an opponent that knows
      nothing yet, summaries taken from the boards and no announcement. */
  lemma InitialSides(player: array2<int>, enemy: array2<int>, ai: T.ProbabilityAI, layout: map<int, Placement>)
    requires player != enemy && ValidBoard(player) && ValidBoard(enemy) && LayoutMatches(Grid(player), layout)
    requires ai.Valid() && ai.statusBoard != player && ai.statusBoard != enemy && ai.aliveShips == SHIPS
    requires forall x, y :: 0 <= x < N && 0 <= y < N ==> ai.statusBoard[x, y] == T.UNVISITED
    requires forall s :: s in ai.shipCoords ==> ai.shipCoords[s] == []
    ensures Apart(player, enemy, ai.statusBoard) && KnowledgeOk(player, ai, layout) && BoardOk(enemy)
    ensures AliveAgrees(ai.aliveShips, Summary(player)) && SunkOfAlive([], ai.aliveShips) && SunkOfState([], Summary(enemy))
    ensures Summary(player)[HIT] == 0 && Summary(enemy)[HIT] == 0
  {
    ShipsAreDistinct();
    InitialAgreement(Grid(player), Grid(ai.statusBoard), ai.shipCoords, layout);
    InitialCounts(player);
    InitialCounts(enemy);
  }
}
