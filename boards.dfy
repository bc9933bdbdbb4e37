/** Snapshots of a board and the per-value summary of it.

    The game keeps, for each board, a summary that groups the cells by the
    value they hold; the only thing it ever reads from a summary is how many
    cells hold a given value. A summary is therefore modelled as the multiset
    of the board's cell values: `Summary(b)[v]` is the number of cells that
    hold v. */
module Boards {
  import opened Config

  /** The board as a sequence of rows. */
  function Grid(b: array2<int>): (g: seq<seq<int>>)
    reads b
    ensures |g| == b.Length0
    ensures forall i :: 0 <= i < |g| ==> |g[i]| == b.Length1
    ensures forall i, j :: 0 <= i < b.Length0 && 0 <= j < b.Length1 ==> g[i][j] == b[i, j]
  {
    seq(b.Length0, i requires 0 <= i < b.Length0 reads b =>
      seq(b.Length1, j requires 0 <= j < b.Length1 reads b => b[i, j]))
  }

  /** The cells of a grid, row after row. */
  function Flatten(g: seq<seq<int>>): seq<int> {
    if g == [] then [] else g[0] + Flatten(g[1..])
  }

  /** The values of a sequence, counted: the same as multiset(s), built one
      element at a time (see CountedIsMultiset). */
  function Counted(s: seq<int>): multiset<int> {
    if s == [] then multiset{} else Counted(s[..|s| - 1]) + multiset{s[|s| - 1]}
  }

  lemma {:induction false} CountedIsMultiset(s: seq<int>)
    ensures Counted(s) == multiset(s)
  {
    if s != [] {
      CountedIsMultiset(s[..|s| - 1]);
      assert s == s[..|s| - 1] + [s[|s| - 1]];
    }
  }

  /** How many cells of the board hold each value. */
  function Summary(b: array2<int>): multiset<int>
    reads b
  {
    Counted(Flatten(Grid(b)))
  }

  /** Writing one cell of a grid trades one occurrence of the old value for one of the new. */
  lemma {:induction false} FlattenUpdate(g: seq<seq<int>>, x: int, y: int, w: int)
    requires 0 <= x < |g| && 0 <= y < |g[x]|
    ensures multiset(Flatten(g[x := g[x][y := w]])) + multiset{g[x][y]} == multiset(Flatten(g)) + multiset{w}
  {
    var row := g[x];
    assert row[y := w] == row[..y] + [w] + row[y + 1..];
    assert row == row[..y] + [row[y]] + row[y + 1..];
    if x == 0 {
      assert g[x := row[y := w]][1..] == g[1..];
    } else {
      var g' := g[x := row[y := w]];
      assert g[1..][x - 1] == row;
      FlattenUpdate(g[1..], x - 1, y, w);
      assert g'[1..] == g[1..][x - 1 := row[y := w]];
      assert g'[0] == g[0];
      assert Flatten(g') == g[0] + Flatten(g'[1..]);
      assert Flatten(g) == g[0] + Flatten(g[1..]);
      calc {
        multiset(Flatten(g')) + multiset{row[y]};
        multiset(g[0]) + (multiset(Flatten(g'[1..])) + multiset{row[y]});
        multiset(g[0]) + (multiset(Flatten(g[1..])) + multiset{w});
        multiset(Flatten(g)) + multiset{w};
      }
    }
  }

  /** A value is counted by the multiset of a grid only if some cell holds it. */
  lemma {:induction false} FlattenHas(g: seq<seq<int>>, v: int)
    requires v in multiset(Flatten(g))
    ensures exists x, y :: 0 <= x < |g| && 0 <= y < |g[x]| && g[x][y] == v
  {
    if g != [] {
      if v in g[0] {
        var y :| 0 <= y < |g[0]| && g[0][y] == v;
        assert g[0][y] == v;
      } else {
        assert v in multiset(Flatten(g[1..]));
        FlattenHas(g[1..], v);
        var x, y :| 0 <= x < |g[1..]| && 0 <= y < |g[1..][x]| && g[1..][x][y] == v;
        assert g[x + 1][y] == v;
      }
    }
  }

  /** A cell that holds v is counted by the summary. */
  lemma GridHasIn(b: array2<int>, x: int, y: int)
    requires 0 <= x < b.Length0 && 0 <= y < b.Length1
    ensures b[x, y] in Summary(b)
  {
    FlattenContains(Grid(b), x, y);
    CountedIsMultiset(Flatten(Grid(b)));
  }

  lemma {:induction false} FlattenContains(g: seq<seq<int>>, x: int, y: int)
    requires 0 <= x < |g| && 0 <= y < |g[x]|
    ensures g[x][y] in multiset(Flatten(g))
  {
    if x > 0 {
      FlattenContains(g[1..], x - 1, y);
    }
  }

  /** A summary counts a value exactly when some cell of the board holds it. */
  lemma SummaryHas(b: array2<int>, v: int)
    ensures v in Summary(b) <==> exists x, y :: 0 <= x < b.Length0 && 0 <= y < b.Length1 && b[x, y] == v
  {
    var g := Grid(b);
    CountedIsMultiset(Flatten(g));
    if v in Summary(b) {
      FlattenHas(g, v);
      var x, y :| 0 <= x < |g| && 0 <= y < |g[x]| && g[x][y] == v;
      assert b[x, y] == v;
    }
    if exists x, y :: 0 <= x < b.Length0 && 0 <= y < b.Length1 && b[x, y] == v {
      var x, y :| 0 <= x < b.Length0 && 0 <= y < b.Length1 && b[x, y] == v;
      GridHasIn(b, x, y);
    }
  }

  /** A board that agrees with the snapshot g0 everywhere except possibly at
      (i, j) is that snapshot with the one cell replaced. */
  lemma GridAfterWrite(b: array2<int>, g0: seq<seq<int>>, i: int, j: int)
    requires |g0| == b.Length0 && forall r :: 0 <= r < |g0| ==> |g0[r]| == b.Length1
    requires 0 <= i < b.Length0 && 0 <= j < b.Length1
    requires forall x, y :: 0 <= x < b.Length0 && 0 <= y < b.Length1 && (x, y) != (i, j) ==> b[x, y] == g0[x][y]
    ensures Grid(b) == g0[i := g0[i][j := b[i, j]]]
  {
    var g, h := Grid(b), g0[i := g0[i][j := b[i, j]]];
    forall r | 0 <= r < |g| ensures g[r] == h[r] {
      assert forall y :: 0 <= y < b.Length1 ==> g[r][y] == h[r][y];
    }
  }

  /** Two grids of the same shape that differ at most at (x, y) have summaries
      that differ by trading the old value at (x, y) for the new one. */
  lemma SummaryAfterWrite(g1: seq<seq<int>>, g0: seq<seq<int>>, x: int, y: int)
    requires |g1| == |g0| && 0 <= x < |g0| && 0 <= y < |g0[x]|
    requires forall i :: 0 <= i < |g0| ==> |g1[i]| == |g0[i]|
    requires forall i, j :: 0 <= i < |g0| && 0 <= j < |g0[i]| && (i, j) != (x, y) ==> g1[i][j] == g0[i][j]
    ensures multiset(Flatten(g1)) + multiset{g0[x][y]} == multiset(Flatten(g0)) + multiset{g1[x][y]}
  {
    var g := g0[x := g0[x][y := g1[x][y]]];
    assert forall i | 0 <= i < |g0| :: g1[i] == g[i];
    assert g1 == g;
    FlattenUpdate(g0, x, y, g1[x][y]);
  }

  /** Write one cell: the snapshot changes in that cell only, and the summary
      trades one occurrence of the old value for one of the new. */
  method WriteCell(b: array2<int>, i: int, j: int, v: int)
    requires 0 <= i < b.Length0 && 0 <= j < b.Length1
    modifies b
    ensures b[i, j] == v
    ensures forall x, y :: 0 <= x < b.Length0 && 0 <= y < b.Length1 && (x, y) != (i, j) ==> b[x, y] == old(b[x, y])
    ensures Grid(b) == old(Grid(b))[i := old(Grid(b))[i][j := v]]
    ensures Summary(b) + multiset{old(b[i, j])} == old(Summary(b)) + multiset{v}
  {
    ghost var g0 := Grid(b);
    b[i, j] := v;
    GridAfterWrite(b, g0, i, j);
    SummaryAfterWrite(Grid(b), g0, i, j);
    CountedIsMultiset(Flatten(Grid(b)));
    CountedIsMultiset(Flatten(g0));
  }

  /** Total count, in a summary, of the given values. */
  function CountOf(m: multiset<int>, vs: seq<int>): nat {
    if vs == [] then 0 else m[vs[0]] + CountOf(m, vs[1..])
  }

  /** Trading one occurrence of o for one of w changes the total count over
      distinct values vs by the number of those two that are among vs. */
  lemma {:induction false} CountOfTrade(m1: multiset<int>, m0: multiset<int>, o: int, w: int, vs: seq<int>)
    requires m1 + multiset{o} == m0 + multiset{w}
    requires NoDuplicates(vs)
    ensures CountOf(m1, vs) + (if o in vs then 1 else 0) == CountOf(m0, vs) + (if w in vs then 1 else 0)
  {
    if vs != [] {
      assert (m1 + multiset{o})[vs[0]] == (m0 + multiset{w})[vs[0]];
      assert NoDuplicates(vs[1..]);
      CountOfTrade(m1, m0, o, w, vs[1..]);
      assert o in vs <==> o == vs[0] || o in vs[1..];
      assert w in vs <==> w == vs[0] || w in vs[1..];
    }
  }

  /** A positive total count over vs is due to some value of vs. */
  lemma {:induction false} CountOfPositive(m: multiset<int>, vs: seq<int>)
    requires CountOf(m, vs) > 0
    ensures exists k :: 0 <= k < |vs| && m[vs[k]] > 0
  {
    if m[vs[0]] == 0 {
      CountOfPositive(m, vs[1..]);
      var k :| 0 <= k < |vs[1..]| && m[vs[1..][k]] > 0;
      assert m[vs[k + 1]] > 0;
    }
  }

  /** The count over vs is the sum of given per-value counts when they match. */
  lemma {:induction false} CountOfSizes(m: multiset<int>, ships: seq<int>)
    requires AllShips(ships)
    requires forall k :: 0 <= k < |ships| ==> m[ships[k]] == Size(ships[k])
    ensures CountOf(m, ships) == SumSizes(ships)
  {
    if ships != [] {
      CountOfSizes(m, ships[1..]);
    }
  }
}
