/** Fixed configuration of the game: cell values of a ground-truth board,
    the grid size and the ship catalogue (game.js, top of file). */
module Config {

  /** Values a cell of a ground-truth board may hold besides a ship id. */
  const EMPTY := 0
  const HIT := -1
  const MISS := -2

  /** The grid is N x N. */
  const N := 10

  /** Ship identifiers, in catalogue order. */
  const CARRIER := 1
  const BATTLESHIP := 2
  const DESTROYER := 3
  const SUBMARINE := 4
  const PATROLBOAT := 5
  const SHIPS: seq<int> := [CARRIER, BATTLESHIP, DESTROYER, SUBMARINE, PATROLBOAT]

  /** Length of each ship. */
  const SIZES: map<int, nat> := map[CARRIER := 5, BATTLESHIP := 4, DESTROYER := 3, SUBMARINE := 3, PATROLBOAT := 2]

  /** The ship ids are the consecutive numbers of the catalogue. */
  predicate IsShip(s: int) {
    CARRIER <= s <= PATROLBOAT
  }

  function Size(s: int): (len: nat)
    requires IsShip(s)
    ensures 2 <= len <= 5
  {
    SIZES[s]
  }

  /** A sequence holds no value twice. */
  predicate NoDuplicates(xs: seq<int>) {
    xs == [] || (xs[0] !in xs[1..] && NoDuplicates(xs[1..]))
  }

  /** Two sequences can be joined without repetition exactly when each has
      none and they share no value. */
  lemma {:induction false} NoDuplicatesAppend(a: seq<int>, b: seq<int>)
    ensures NoDuplicates(a + b) <==> NoDuplicates(a) && NoDuplicates(b) && forall v :: v in a ==> v !in b
  {
    if a != [] {
      assert (a + b)[0] == a[0] && (a + b)[1..] == a[1..] + b;
      NoDuplicatesAppend(a[1..], b);
      assert forall v :: v in a <==> v == a[0] || v in a[1..];
    } else {
      assert a + b == b;
    }
  }

  /** Every element is a ship id. */
  predicate AllShips(ships: seq<int>) {
    forall k :: 0 <= k < |ships| ==> IsShip(ships[k])
  }

  /** Sum of the lengths of the given ships. */
  function SumSizes(ships: seq<int>): nat
    requires AllShips(ships)
  {
    if ships == [] then 0 else Size(ships[0]) + SumSizes(ships[1..])
  }

  /** The number of cells a side must lose to lose the game: the sum of all ship lengths. */
  function NumShipCell(): (n: nat)
    ensures n == 17
  {
    assert SumSizes(SHIPS[4..]) == 2 by { assert SHIPS[4..][1..] == []; }
    assert SumSizes(SHIPS[3..]) == 5 by { assert SHIPS[3..][1..] == SHIPS[4..]; }
    assert SumSizes(SHIPS[2..]) == 8 by { assert SHIPS[2..][1..] == SHIPS[3..]; }
    assert SumSizes(SHIPS[1..]) == 12 by { assert SHIPS[1..][1..] == SHIPS[2..]; }
    SumSizes(SHIPS)
  }

  lemma ShipsAreDistinct()
    ensures NoDuplicates(SHIPS) && AllShips(SHIPS)
    ensures forall s :: s in SHIPS <==> IsShip(s)
  {
    assert NoDuplicates(SHIPS[4..]) by { assert SHIPS[4..][1..] == []; }
    assert NoDuplicates(SHIPS[3..]) by { assert SHIPS[3..][1..] == SHIPS[4..]; }
    assert NoDuplicates(SHIPS[2..]) by { assert SHIPS[2..][1..] == SHIPS[3..]; }
    assert NoDuplicates(SHIPS[1..]) by { assert SHIPS[1..][1..] == SHIPS[2..]; }
  }
}
