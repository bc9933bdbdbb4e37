/** The probability-targeting opponent (ai.js).

    The opponent keeps its own knowledge of the player's grid (a status board
    over UNVISITED, HIT and MISS_SUNK), the ships it has not yet sunk and, per
    ship, the cells it has hit. To choose a shot it rebuilds a density board:
    every placement of every alive ship, anchored at every cell in both
    orientations, that stays on the grid and crosses no MISS_SUNK cell adds a
    multiplier to each UNVISITED cell it covers. It then fires at one of the
    cells of maximal density. */
module Targeting {
  import opened Config

  /** Status-board values and the hit weight (ai.js constructor). HIT is the shared Config.HIT (-1). */
  const WEIGHT := 8
  const UNVISITED := 0
  const MISS_SUNK := -2

  type Coord = (int, int)

  predicate IsGrid(b: array2<int>) {
    b.Length0 == N && b.Length1 == N
  }

  predicate InGrid(c: Coord) {
    0 <= c.0 < N && 0 <= c.1 < N
  }

  function Pow(base: int, e: nat): (r: int)
    ensures base >= 1 ==> r >= 1
  {
    if e == 0 then 1 else base * Pow(base, e - 1)
  }

  // ---------------------------------------------------------------------------
  // Single placements

  /** Number of HIT cells in row i, columns lo .. hi-1. */
  function RowHits(st: array2<int>, i: int, lo: int, hi: int): nat
    reads st
    requires 0 <= i < st.Length0 && 0 <= lo && hi <= st.Length1
    decreases hi - lo
  {
    if hi <= lo then 0 else RowHits(st, i, lo, hi - 1) + (if st[i, hi - 1] == HIT then 1 else 0)
  }

  /** Number of HIT cells in column j, rows lo .. hi-1. */
  function ColHits(st: array2<int>, j: int, lo: int, hi: int): nat
    reads st
    requires 0 <= j < st.Length1 && 0 <= lo && hi <= st.Length0
    decreases hi - lo
  {
    if hi <= lo then 0 else ColHits(st, j, lo, hi - 1) + (if st[hi - 1, j] == HIT then 1 else 0)
  }

  /** A horizontal placement of `len` cells anchored at (i0, j0) stays on the
      grid and crosses no MISS_SUNK cell. */
  predicate HorizontalFits(st: array2<int>, i0: int, j0: int, len: nat)
    reads st
    requires 0 <= i0 < st.Length0 && 0 <= j0
  {
    j0 + len <= st.Length1 && forall y :: j0 <= y < j0 + len ==> st[i0, y] != MISS_SUNK
  }

  /** A vertical placement of `len` cells anchored at (i0, j0) stays on the
      grid and crosses no MISS_SUNK cell. */
  predicate VerticalFits(st: array2<int>, i0: int, j0: int, len: nat)
    reads st
    requires 0 <= i0 && 0 <= j0 < st.Length1
  {
    i0 + len <= st.Length0 && forall x :: i0 <= x < i0 + len ==> st[x, j0] != MISS_SUNK
  }

  /** What a fitting horizontal placement adds to each UNVISITED cell it
      covers: 1, plus WEIGHT for every HIT cell in its span (additive). */
  function HorizontalMultiplier(st: array2<int>, i0: int, j0: int, len: nat): int
    reads st
    requires 0 <= i0 < st.Length0 && 0 <= j0 && j0 + len <= st.Length1
  {
    1 + WEIGHT * RowHits(st, i0, j0, j0 + len)
  }

  /** What a fitting vertical placement adds to each UNVISITED cell it
      covers: WEIGHT raised to the number of HIT cells in its span
      (multiplicative). */
  function VerticalMultiplier(st: array2<int>, i0: int, j0: int, len: nat): int
    reads st
    requires 0 <= i0 && i0 + len <= st.Length0 && 0 <= j0 < st.Length1
  {
    Pow(WEIGHT, ColHits(st, j0, i0, i0 + len))
  }

  /** Weight the horizontal placement anchored at (i0, j0) adds to cell (x, y). */
  function HorizontalWeight(st: array2<int>, i0: int, j0: int, len: nat, x: int, y: int): (w: int)
    reads st
    requires 0 <= i0 < st.Length0 && 0 <= j0 && 0 <= x < st.Length0 && 0 <= y < st.Length1
    ensures w >= 0
  {
    if HorizontalFits(st, i0, j0, len) && x == i0 && j0 <= y < j0 + len && st[x, y] == UNVISITED
    then HorizontalMultiplier(st, i0, j0, len)
    else 0
  }

  /** Weight the vertical placement anchored at (i0, j0) adds to cell (x, y). */
  function VerticalWeight(st: array2<int>, i0: int, j0: int, len: nat, x: int, y: int): (w: int)
    reads st
    requires 0 <= i0 && 0 <= j0 < st.Length1 && 0 <= x < st.Length0 && 0 <= y < st.Length1
    ensures w >= 0
  {
    if VerticalFits(st, i0, j0, len) && y == j0 && i0 <= x < i0 + len && st[x, y] == UNVISITED
    then VerticalMultiplier(st, i0, j0, len)
    else 0
  }

  // ---------------------------------------------------------------------------
  // The density board, accumulated in the order selectTarget visits placements

  /** What the placements of the ships in `ships`, anchored at (a, b), add to cell (x, y). */
  function AnchorWeight(st: array2<int>, a: int, b: int, ships: seq<int>, x: int, y: int): (w: int)
    reads st
    requires IsGrid(st) && 0 <= a < N && 0 <= b < N && 0 <= x < N && 0 <= y < N && AllShips(ships)
    ensures w >= 0
    ensures st[x, y] != UNVISITED ==> w == 0
    decreases |ships|
  {
    if ships == [] then 0
    else
      var s := ships[|ships| - 1];
      AnchorWeight(st, a, b, ships[..|ships| - 1], x, y)
        + HorizontalWeight(st, a, b, Size(s), x, y) + VerticalWeight(st, a, b, Size(s), x, y)
  }

  /** What all placements anchored in row a, columns 0 .. nb-1, add to cell (x, y). */
  function RowWeight(st: array2<int>, a: int, nb: nat, ships: seq<int>, x: int, y: int): (w: int)
    reads st
    requires IsGrid(st) && 0 <= a < N && nb <= N && 0 <= x < N && 0 <= y < N && AllShips(ships)
    ensures w >= 0
    ensures st[x, y] != UNVISITED ==> w == 0
  {
    if nb == 0 then 0 else RowWeight(st, a, nb - 1, ships, x, y) + AnchorWeight(st, a, nb - 1, ships, x, y)
  }

  /** What all placements anchored in rows 0 .. na-1 add to cell (x, y). */
  function BoardWeight(st: array2<int>, na: nat, ships: seq<int>, x: int, y: int): (w: int)
    reads st
    requires IsGrid(st) && na <= N && 0 <= x < N && 0 <= y < N && AllShips(ships)
    ensures w >= 0
    ensures st[x, y] != UNVISITED ==> w == 0
  {
    if na == 0 then 0 else BoardWeight(st, na - 1, ships, x, y) + RowWeight(st, na - 1, N, ships, x, y)
  }

  /** The density of cell (x, y): the sum, over every anchor cell and every
      ship in `ships`, of the weights of its horizontal and vertical
      placements. It is never negative, and 0 on a cell that is not UNVISITED. */
  function Density(st: array2<int>, ships: seq<int>, x: int, y: int): (w: int)
    reads st
    requires IsGrid(st) && 0 <= x < N && 0 <= y < N && AllShips(ships)
    ensures w >= 0
    ensures st[x, y] != UNVISITED ==> w == 0
  {
    BoardWeight(st, N, ships, x, y)
  }

  /** No cell of the board has a higher density than c. */
  predicate Densest(st: array2<int>, ships: seq<int>, c: Coord)
    reads st
    requires IsGrid(st) && AllShips(ships) && InGrid(c)
  {
    forall x, y :: 0 <= x < N && 0 <= y < N ==> Density(st, ships, x, y) <= Density(st, ships, c.0, c.1)
  }

  lemma {:induction false} AnchorWeightAtLeast(st: array2<int>, a: int, b: int, ships: seq<int>, k: int, x: int, y: int)
    requires IsGrid(st) && 0 <= a < N && 0 <= b < N && 0 <= x < N && 0 <= y < N && AllShips(ships)
    requires 0 <= k < |ships|
    ensures AnchorWeight(st, a, b, ships, x, y)
         >= HorizontalWeight(st, a, b, Size(ships[k]), x, y) + VerticalWeight(st, a, b, Size(ships[k]), x, y)
  {
    if k < |ships| - 1 {
      AnchorWeightAtLeast(st, a, b, ships[..|ships| - 1], k, x, y);
    }
  }

  lemma {:induction false} RowWeightAtLeast(st: array2<int>, a: int, nb: nat, b: int, ships: seq<int>, x: int, y: int)
    requires IsGrid(st) && 0 <= a < N && nb <= N && 0 <= b < nb && 0 <= x < N && 0 <= y < N && AllShips(ships)
    ensures RowWeight(st, a, nb, ships, x, y) >= AnchorWeight(st, a, b, ships, x, y)
  {
    if b < nb - 1 {
      RowWeightAtLeast(st, a, nb - 1, b, ships, x, y);
    }
  }

  lemma {:induction false} BoardWeightAtLeast(st: array2<int>, na: nat, a: int, ships: seq<int>, x: int, y: int)
    requires IsGrid(st) && na <= N && 0 <= a < na && 0 <= x < N && 0 <= y < N && AllShips(ships)
    ensures BoardWeight(st, na, ships, x, y) >= RowWeight(st, a, N, ships, x, y)
  {
    if a < na - 1 {
      BoardWeightAtLeast(st, na - 1, a, ships, x, y);
    }
  }

  /** An UNVISITED cell covered by a fitting placement of an alive ship has
      positive density: the opponent always has a productive target while
      such a placement exists. */
  lemma DensityPositive(st: array2<int>, ships: seq<int>, k: int, a: int, b: int, vertical: bool, x: int, y: int)
    requires IsGrid(st) && AllShips(ships) && 0 <= k < |ships|
    requires 0 <= a < N && 0 <= b < N && 0 <= x < N && 0 <= y < N
    requires st[x, y] == UNVISITED
    requires !vertical ==> HorizontalFits(st, a, b, Size(ships[k])) && x == a && b <= y < b + Size(ships[k])
    requires vertical ==> VerticalFits(st, a, b, Size(ships[k])) && y == b && a <= x < a + Size(ships[k])
    ensures Density(st, ships, x, y) > 0
  {
    AnchorWeightAtLeast(st, a, b, ships, k, x, y);
    RowWeightAtLeast(st, a, N, b, ships, x, y);
    BoardWeightAtLeast(st, N, a, ships, x, y);
  }

  // ---------------------------------------------------------------------------
  // Alive-ship bookkeeping

  /** Index of the first occurrence of x in xs (Array.prototype.indexOf on a present element). */
  function IndexOf(xs: seq<int>, x: int): (k: int)
    requires x in xs
    ensures 0 <= k < |xs| && xs[k] == x
    ensures forall p :: 0 <= p < k ==> xs[p] != x
  {
    if xs[0] == x then 0 else 1 + IndexOf(xs[1..], x)
  }

  /** xs without its first occurrence of x (splice(indexOf(x), 1)). */
  function RemoveFirst(xs: seq<int>, x: int): (r: seq<int>)
    requires x in xs
    ensures |r| == |xs| - 1
    ensures multiset(r) == multiset(xs) - multiset{x}
    ensures NoDuplicates(xs) ==> x !in r && NoDuplicates(r)
    ensures forall y :: y in r ==> y in xs
    ensures forall y :: y in xs && y != x ==> y in r
  {
    var k := IndexOf(xs, x);
    var front, back := xs[..k], xs[k + 1..];
    assert xs == front + [x] + back;
    assert forall y :: y in xs <==> y in front || y == x || y in back;
    NoDuplicatesAppend(front + [x], back);
    NoDuplicatesAppend(front, [x]);
    NoDuplicatesAppend(front, back);
    var r := front + back;
    r
  }

  // ---------------------------------------------------------------------------
  // Fisher-Yates shuffle

  /** Shuffle arr in place: for i from the last index down to 1, swap arr[i]
      with arr[j] for a j picked in 0 .. i. The choice of j stands for the
      random draw; every outcome is a permutation of the input. */
  method Shuffle<T>(arr: array<T>)
    modifies arr
    ensures multiset(arr[..]) == old(multiset(arr[..]))
  {
    var i := arr.Length - 1;
    while i > 0
      invariant -1 <= i < arr.Length || arr.Length == 0
      invariant multiset(arr[..]) == old(multiset(arr[..]))
    {
      var j :| 0 <= j <= i;
      arr[i], arr[j] := arr[j], arr[i];
      i := i - 1;
    }
  }

  // ---------------------------------------------------------------------------
  // The opponent

  class ProbabilityAI {
    const statusBoard: array2<int>
    var aliveShips: seq<int>
    var shipCoords: map<int, seq<Coord>>

    ghost predicate Valid()
      reads this, statusBoard
    {
      && IsGrid(statusBoard)
      && (forall x, y :: 0 <= x < N && 0 <= y < N ==> statusBoard[x, y] in {UNVISITED, HIT, MISS_SUNK})
      && AllShips(aliveShips) && NoDuplicates(aliveShips)
      && (forall s :: s in shipCoords <==> IsShip(s))
      && (forall s, c {:trigger c in shipCoords[s]} :: s in shipCoords && c in shipCoords[s] ==>
            InGrid(c) && statusBoard[c.0, c.1] != UNVISITED)
    }

    /** The invariant survives any step that leaves this object and its board alone. */
    twostate lemma ValidKept()
      requires old(Valid()) && unchanged(this) && unchanged(statusBoard)
      ensures Valid()
    {
    }

    /** A fresh opponent: every ship alive, every cell UNVISITED, no hits logged. */
    constructor ()
      ensures Valid() && fresh(statusBoard)
      ensures aliveShips == SHIPS
      ensures forall x, y :: 0 <= x < N && 0 <= y < N ==> statusBoard[x, y] == UNVISITED
      ensures forall s :: s in shipCoords ==> shipCoords[s] == []
    {
      aliveShips := SHIPS;
      statusBoard := new int[N, N]((_, _) => UNVISITED);
      var coords: map<int, seq<Coord>> := map[];
      for k := 0 to |SHIPS|
        invariant forall s :: s in coords <==> s in SHIPS[..k]
        invariant forall s :: s in coords ==> coords[s] == []
      {
        coords := coords[SHIPS[k] := []];
        assert SHIPS[..k + 1] == SHIPS[..k] + [SHIPS[k]];
      }
      assert SHIPS[..|SHIPS|] == SHIPS;
      shipCoords := coords;
      ShipsAreDistinct();
    }

    /** Add to the density board the weight of the horizontal placement of
        `length` cells anchored at (i0, j0); nothing else changes. */
    method CheckHorizontal(statusBoard: array2<int>, densityBoard: array2<int>, i0: int, j0: int, length: nat)
      requires statusBoard != densityBoard
      requires densityBoard.Length0 == statusBoard.Length0 && densityBoard.Length1 == statusBoard.Length1
      requires 0 <= i0 < statusBoard.Length0 && 0 <= j0
      modifies densityBoard
      ensures forall x, y :: 0 <= x < statusBoard.Length0 && 0 <= y < statusBoard.Length1 ==>
        densityBoard[x, y] == old(densityBoard[x, y]) + HorizontalWeight(statusBoard, i0, j0, length, x, y)
    {
      if j0 + length > statusBoard.Length1 {
        return;
      }
      var multiplier := 1;
      for j := j0 to j0 + length
        invariant multiplier == 1 + WEIGHT * RowHits(statusBoard, i0, j0, j)
        invariant forall y :: j0 <= y < j ==> statusBoard[i0, y] != MISS_SUNK
      {
        if statusBoard[i0, j] == MISS_SUNK {
          return;
        } else if statusBoard[i0, j] == HIT {
          multiplier := multiplier + WEIGHT;
        }
      }
      assert HorizontalFits(statusBoard, i0, j0, length);
      for j := j0 to j0 + length
        invariant forall x, y :: 0 <= x < statusBoard.Length0 && 0 <= y < statusBoard.Length1 ==>
          densityBoard[x, y] == old(densityBoard[x, y])
            + (if x == i0 && j0 <= y < j && statusBoard[x, y] == UNVISITED then multiplier else 0)
      {
        if statusBoard[i0, j] == UNVISITED {
          densityBoard[i0, j] := densityBoard[i0, j] + multiplier;
        }
      }
    }

    /** Add to the density board the weight of the vertical placement of
        `length` cells anchored at (i0, j0); nothing else changes. */
    method CheckVertical(statusBoard: array2<int>, densityBoard: array2<int>, i0: int, j0: int, length: nat)
      requires statusBoard != densityBoard
      requires densityBoard.Length0 == statusBoard.Length0 && densityBoard.Length1 == statusBoard.Length1
      requires 0 <= i0 && 0 <= j0 < statusBoard.Length1
      modifies densityBoard
      ensures forall x, y :: 0 <= x < statusBoard.Length0 && 0 <= y < statusBoard.Length1 ==>
        densityBoard[x, y] == old(densityBoard[x, y]) + VerticalWeight(statusBoard, i0, j0, length, x, y)
    {
      if i0 + length > statusBoard.Length0 {
        return;
      }
      var multiplier := 1;
      for i := i0 to i0 + length
        invariant multiplier == Pow(WEIGHT, ColHits(statusBoard, j0, i0, i))
        invariant forall x :: i0 <= x < i ==> statusBoard[x, j0] != MISS_SUNK
      {
        if statusBoard[i, j0] == MISS_SUNK {
          return;
        } else if statusBoard[i, j0] == HIT {
          multiplier := multiplier * WEIGHT;
        }
      }
      assert VerticalFits(statusBoard, i0, j0, length);
      for i := i0 to i0 + length
        invariant forall x, y :: 0 <= x < statusBoard.Length0 && 0 <= y < statusBoard.Length1 ==>
          densityBoard[x, y] == old(densityBoard[x, y])
            + (if y == j0 && i0 <= x < i && statusBoard[x, y] == UNVISITED then multiplier else 0)
      {
        if statusBoard[i, j0] == UNVISITED {
          densityBoard[i, j0] := densityBoard[i, j0] + multiplier;
        }
      }
    }

    /** Scan the board row by row, keeping the largest value seen and the list
        of cells holding it; then pick one of those cells. `maxIndices` ends as
        exactly the cells of maximal value, in row-major order. */
    method FindMaxCell(densityBoard: array2<int>) returns (cell: Coord, ghost maxIndices: seq<Coord>)
      requires densityBoard.Length0 > 0 && densityBoard.Length1 > 0
      ensures 0 <= cell.0 < densityBoard.Length0 && 0 <= cell.1 < densityBoard.Length1
      ensures forall x, y :: 0 <= x < densityBoard.Length0 && 0 <= y < densityBoard.Length1 ==>
        densityBoard[x, y] <= densityBoard[cell.0, cell.1]
      ensures cell in maxIndices
      ensures forall c :: c in maxIndices <==>
        0 <= c.0 < densityBoard.Length0 && 0 <= c.1 < densityBoard.Length1 && densityBoard[c.0, c.1] == densityBoard[cell.0, cell.1]
      ensures forall p, q :: 0 <= p < q < |maxIndices| ==> RowMajorBefore(maxIndices[p], maxIndices[q])
    {
      var rows, cols := densityBoard.Length0, densityBoard.Length1;
      var maxVal := densityBoard[0, 0];
      var indices: seq<Coord> := [];
      for i := 0 to rows
        invariant forall x, y :: 0 <= x < i && 0 <= y < cols ==> densityBoard[x, y] <= maxVal
        invariant forall c :: c in indices <==> 0 <= c.0 < i && 0 <= c.1 < cols && densityBoard[c.0, c.1] == maxVal
        invariant forall p, q :: 0 <= p < q < |indices| ==> RowMajorBefore(indices[p], indices[q])
        invariant i > 0 ==> indices != []
        invariant indices == [] ==> maxVal == densityBoard[0, 0]
      {
        for j := 0 to cols
          invariant forall x, y :: (0 <= x < i && 0 <= y < cols) || (x == i && 0 <= y < j) ==> densityBoard[x, y] <= maxVal
          invariant forall c :: c in indices <==>
            ((0 <= c.0 < i && 0 <= c.1 < cols) || (c.0 == i && 0 <= c.1 < j)) && densityBoard[c.0, c.1] == maxVal
          invariant forall p, q :: 0 <= p < q < |indices| ==> RowMajorBefore(indices[p], indices[q])
          invariant forall p :: 0 <= p < |indices| ==> RowMajorBefore(indices[p], (i, j))
          invariant (i > 0 || j > 0) ==> indices != []
          invariant indices == [] ==> maxVal == densityBoard[0, 0]
        {
          if densityBoard[i, j] > maxVal {
            maxVal := densityBoard[i, j];
            indices := [(i, j)];
          } else if densityBoard[i, j] == maxVal {
            indices := indices + [(i, j)];
          }
        }
      }
      var choice :| 0 <= choice < |indices|;
      cell := indices[choice];
      maxIndices := indices;
    }

    /** The innermost loop of selectTarget: try both orientations of every
        ship in `ships` anchored at (i, j). */
    method AddAnchorPlacements(st: array2<int>, densityBoard: array2<int>, i: int, j: int, ships: seq<int>)
      requires IsGrid(st) && IsGrid(densityBoard) && st != densityBoard
      requires 0 <= i < N && 0 <= j < N && AllShips(ships)
      modifies densityBoard
      ensures forall x, y :: 0 <= x < N && 0 <= y < N ==>
        densityBoard[x, y] == old(densityBoard[x, y]) + AnchorWeight(st, i, j, ships, x, y)
    {
      for k := 0 to |ships|
        invariant forall x, y :: 0 <= x < N && 0 <= y < N ==>
          densityBoard[x, y] == old(densityBoard[x, y]) + AnchorWeight(st, i, j, ships[..k], x, y)
      {
        var ship := ships[k];
        CheckHorizontal(st, densityBoard, i, j, Size(ship));
        CheckVertical(st, densityBoard, i, j, Size(ship));
        assert ships[..k + 1][..k] == ships[..k];
      }
      assert ships[..|ships|] == ships;
    }

    /** Build the density board for the current knowledge and fire at one of
        its maximal cells. */
    method SelectTarget() returns (cell: Coord)
      requires Valid()
      ensures InGrid(cell) && Densest(statusBoard, aliveShips, cell)
      ensures Density(statusBoard, aliveShips, cell.0, cell.1) > 0 ==> statusBoard[cell.0, cell.1] == UNVISITED
    {
      var densityBoard := DensityMap(statusBoard, aliveShips);
      ghost var maxIndices;
      cell, maxIndices := FindMaxCell(densityBoard);
      forall x, y | 0 <= x < N && 0 <= y < N
        ensures Density(statusBoard, aliveShips, x, y) <= Density(statusBoard, aliveShips, cell.0, cell.1)
      {
        assert densityBoard[x, y] <= densityBoard[cell.0, cell.1];
      }
    }

    /** The density board: every anchor cell and every alive ship adds its
        horizontal and vertical placement weights. */
    method DensityMap(st: array2<int>, alive: seq<int>) returns (densityBoard: array2<int>)
      requires IsGrid(st) && AllShips(alive)
      ensures fresh(densityBoard) && IsGrid(densityBoard)
      ensures forall x, y :: 0 <= x < N && 0 <= y < N ==> densityBoard[x, y] == Density(st, alive, x, y)
    {
      densityBoard := new int[N, N]((_, _) => 0);
      for i := 0 to N
        invariant forall x, y :: 0 <= x < N && 0 <= y < N ==> densityBoard[x, y] == BoardWeight(st, i, alive, x, y)
      {
        AddRowPlacements(st, densityBoard, i, alive);
      }
    }

    /** One row of anchors of the density board. */
    method AddRowPlacements(st: array2<int>, densityBoard: array2<int>, i: int, ships: seq<int>)
      requires IsGrid(st) && IsGrid(densityBoard) && st != densityBoard
      requires 0 <= i < N && AllShips(ships)
      modifies densityBoard
      ensures forall x, y :: 0 <= x < N && 0 <= y < N ==>
        densityBoard[x, y] == old(densityBoard[x, y]) + RowWeight(st, i, N, ships, x, y)
    {
      for j := 0 to N
        invariant forall x, y :: 0 <= x < N && 0 <= y < N ==>
          densityBoard[x, y] == old(densityBoard[x, y]) + RowWeight(st, i, j, ships, x, y)
      {
        AddAnchorPlacements(st, densityBoard, i, j, ships);
      }
    }

    /** Record the outcome of a shot at (i, j): a hit marks the cell HIT and
        logs it for `ship`; a miss marks it MISS_SUNK. */
    method UpdateHit(i: int, j: int, hit: bool, ship: int)
      requires Valid() && 0 <= i < N && 0 <= j < N
      requires hit ==> IsShip(ship)
      modifies this, statusBoard
      ensures Valid() && aliveShips == old(aliveShips)
      ensures statusBoard[i, j] == if hit then HIT else MISS_SUNK
      ensures forall x, y :: 0 <= x < N && 0 <= y < N && (x, y) != (i, j) ==> statusBoard[x, y] == old(statusBoard[x, y])
      ensures shipCoords == if hit then old(shipCoords)[ship := old(shipCoords)[ship] + [(i, j)]] else old(shipCoords)
    {
      if hit {
        statusBoard[i, j] := HIT;
        shipCoords := shipCoords[ship := shipCoords[ship] + [(i, j)]];
      } else {
        statusBoard[i, j] := MISS_SUNK;
      }
    }

    /** Record that `ship` has sunk: drop it from the alive ships and mark
        every cell logged for it MISS_SUNK. */
    method UpdateSink(ship: int)
      requires Valid() && ship in aliveShips
      modifies this, statusBoard
      ensures Valid() && shipCoords == old(shipCoords)
      ensures aliveShips == RemoveFirst(old(aliveShips), ship)
      ensures forall x, y :: 0 <= x < N && 0 <= y < N ==>
        statusBoard[x, y] == if (x, y) in shipCoords[ship] then MISS_SUNK else old(statusBoard[x, y])
    {
      aliveShips := RemoveFirst(aliveShips, ship);
      var coords := shipCoords[ship];
      for k := 0 to |coords|
        invariant shipCoords == old(shipCoords)
        invariant aliveShips == RemoveFirst(old(aliveShips), ship)
        invariant forall x, y :: 0 <= x < N && 0 <= y < N ==>
          statusBoard[x, y] == if (x, y) in coords[..k] then MISS_SUNK else old(statusBoard[x, y])
      {
        assert coords[k] in shipCoords[ship];
        var (i, j) := coords[k];
        statusBoard[i, j] := MISS_SUNK;
        assert coords[..k + 1] == coords[..k] + [coords[k]];
      }
      assert coords[..|coords|] == coords;
    }
  }

  /** c comes strictly before d in row-major order. */
  predicate RowMajorBefore(c: Coord, d: Coord) {
    c.0 < d.0 || (c.0 == d.0 && c.1 < d.1)
  }
}
