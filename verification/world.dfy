/** The grid store: a width x height array of optional particles whose
    accessors are total. Reads outside the grid give nothing, writes and
    swaps outside it leave the grid as it was. */
module Worlds {

  import opened Options
  import opened Particles

  /** A grid cell: no particle, or exactly one. */
  type Cell = Option<Particle>

  /** The grid is stored row by row: `grid[y][x]` is the cell at column x, row y. */
  datatype World = World(width: nat, height: nat, grid: seq<seq<Cell>>)
  {
    /** The shape invariant: `height` rows of `width` cells each. */
    predicate Valid() {
      && |grid| == height
      && forall y :: 0 <= y < |grid| ==> |grid[y]| == width
    }
  }

  /** A world in which every cell is empty. */
  function NewWorld(width: nat, height: nat): (w: World)
    ensures w.Valid() && w.width == width && w.height == height
    ensures forall x, y :: Get(w, x, y) == None
  {
    World(width, height, seq(height, _ => seq(width, _ => None)))
  }

  /** Whether (x, y) lies inside the grid. */
  predicate InBounds(w: World, x: int, y: int) {
    0 <= x < w.width && 0 <= y < w.height
  }

  /** The contents of cell (x, y); nothing outside the grid. */
  function Get(w: World, x: int, y: int): (c: Cell)
    requires w.Valid()
    ensures !InBounds(w, x, y) ==> c == None
  {
    if InBounds(w, x, y) then w.grid[y][x] else None
  }

  /** Overwrites cell (x, y); outside the grid this is a no-op. */
  function Set(w: World, x: int, y: int, c: Cell): (r: World)
    requires w.Valid()
    ensures r.Valid() && r.width == w.width && r.height == w.height
    ensures InBounds(w, x, y) ==> Get(r, x, y) == c
    ensures forall i, j :: (i != x || j != y) ==> Get(r, i, j) == Get(w, i, j)
    ensures !InBounds(w, x, y) ==> r == w
  {
    if InBounds(w, x, y) then w.(grid := w.grid[y := w.grid[y][x := c]]) else w
  }

  /** True exactly for an in-bounds cell that holds no particle. */
  function IsEmpty(w: World, x: int, y: int): (b: bool)
    requires w.Valid()
    ensures b <==> InBounds(w, x, y) && Get(w, x, y) == None
  {
    if !InBounds(w, x, y) then false else w.grid[y][x] == None
  }

  /** True exactly for an in-bounds cell that holds a particle of type `t`. */
  function IsType(w: World, x: int, y: int, t: ParticleType): (b: bool)
    requires w.Valid()
    ensures b ==> InBounds(w, x, y)
    ensures b <==> Get(w, x, y).Some? && Get(w, x, y).value.kind == t
  {
    var p := Get(w, x, y);
    p != None && p.value.kind == t
  }

  /** Spawning is destructive: Empty erases the cell, any other type
      overwrites it with a fresh particle; outside the grid nothing happens. */
  function Spawn(w: World, x: int, y: int, t: ParticleType, roll: int): (r: World)
    requires w.Valid() && ValidRoll(t, roll)
    ensures r.Valid() && r.width == w.width && r.height == w.height
    ensures !InBounds(w, x, y) ==> r == w
    ensures InBounds(w, x, y) && t == Empty ==> Get(r, x, y) == None
    ensures InBounds(w, x, y) && t != Empty ==> Get(r, x, y) == Some(CreateParticle(t, roll))
    ensures InBounds(w, x, y) && t != Empty ==> IsType(r, x, y, t) && !Get(r, x, y).value.updated
    ensures forall i, j :: (i != x || j != y) ==> Get(r, i, j) == Get(w, i, j)
  {
    if !InBounds(w, x, y) then w
    else if t == Empty then w.(grid := w.grid[y := w.grid[y][x := None]])
    else w.(grid := w.grid[y := w.grid[y][x := Some(CreateParticle(t, roll))]])
  }

  /** Exchanges two cells; if either is outside the grid the whole swap is skipped. */
  function Swap(w: World, x1: int, y1: int, x2: int, y2: int): (r: World)
    requires w.Valid()
    ensures r.Valid() && r.width == w.width && r.height == w.height
    ensures InBounds(w, x1, y1) && InBounds(w, x2, y2) ==>
              Get(r, x1, y1) == Get(w, x2, y2) && Get(r, x2, y2) == Get(w, x1, y1)
    ensures forall i, j :: (i != x1 || j != y1) && (i != x2 || j != y2) ==> Get(r, i, j) == Get(w, i, j)
    ensures !InBounds(w, x1, y1) || !InBounds(w, x2, y2) ==> r == w
  {
    if !InBounds(w, x1, y1) || !InBounds(w, x2, y2) then w
    else
      var temp := w.grid[y1][x1];
      var w1 := w.(grid := w.grid[y1 := w.grid[y1][x1 := w.grid[y2][x2]]]);
      w1.(grid := w1.grid[y2 := w1.grid[y2][x2 := temp]])
  }

  /** A cell with its particle's per-tick flag cleared. */
  function Unmark(c: Cell): Cell {
    match c
    case None => None
    case Some(p) => Some(p.(updated := false))
  }

  /** Clears the `updated` flag of every particle and changes nothing else. */
  function ResetUpdated(w: World): (r: World)
    requires w.Valid()
    ensures r.Valid() && r.width == w.width && r.height == w.height
    ensures forall x, y :: Get(r, x, y).Some? <==> Get(w, x, y).Some?
    ensures forall x, y :: Get(w, x, y).Some? ==> Get(r, x, y).value == Get(w, x, y).value.(updated := false)
  {
    var g := seq(w.height, (y: int) requires 0 <= y < w.height =>
                  seq(w.width, (x: int) requires 0 <= x < w.width => Unmark(w.grid[y][x])));
    World(w.width, w.height, g)
  }

  /** Empties every cell of the grid. */
  function Clear(w: World): (r: World)
    requires w.Valid()
    ensures r.Valid() && r.width == w.width && r.height == w.height
    ensures forall x, y :: Get(r, x, y) == None
  {
    w.(grid := seq(|w.grid|, (y: int) requires 0 <= y < |w.grid| => seq(|w.grid[y]|, _ => None)))
  }

  /** The multiset of all cell contents, row by row. */
  function Contents(g: seq<seq<Cell>>): multiset<Cell> {
    if |g| == 0 then multiset{} else Contents(g[..|g| - 1]) + multiset(g[|g| - 1])
  }

  // ---------------------------------------------------------------------------
  // Facts about the grid store

  /** Two well-formed worlds of one size that agree on every cell are equal. */
  lemma Extensionality(a: World, b: World)
    requires a.Valid() && b.Valid() && a.width == b.width && a.height == b.height
    requires forall x, y :: Get(a, x, y) == Get(b, x, y)
    ensures a == b
  {
    forall y | 0 <= y < a.height
      ensures a.grid[y] == b.grid[y]
    {
      forall x | 0 <= x < a.width
        ensures a.grid[y][x] == b.grid[y][x]
      {
        assert Get(a, x, y) == Get(b, x, y);
      }
    }
  }

  /** Setting a cell to what it already holds changes nothing. */
  lemma SetSame(w: World, x: int, y: int)
    requires w.Valid()
    ensures Set(w, x, y, Get(w, x, y)) == w
  {
    Extensionality(Set(w, x, y, Get(w, x, y)), w);
  }

  /** Writing a cell twice keeps only the second write. */
  lemma SetSet(w: World, x: int, y: int, c: Cell, c': Cell)
    requires w.Valid()
    ensures Set(Set(w, x, y, c), x, y, c') == Set(w, x, y, c')
  {
    Extensionality(Set(Set(w, x, y, c), x, y, c'), Set(w, x, y, c'));
  }

  /** Swapping a cell with itself is the identity. */
  lemma SwapSelf(w: World, x: int, y: int)
    requires w.Valid()
    ensures Swap(w, x, y, x, y) == w
  {
    Extensionality(Swap(w, x, y, x, y), w);
  }

  /** Swapping is symmetric in its two cells. */
  lemma SwapSymmetric(w: World, x1: int, y1: int, x2: int, y2: int)
    requires w.Valid()
    ensures Swap(w, x1, y1, x2, y2) == Swap(w, x2, y2, x1, y1)
  {
    Extensionality(Swap(w, x1, y1, x2, y2), Swap(w, x2, y2, x1, y1));
  }

  /** Swapping the same two cells twice restores the grid. */
  lemma SwapTwice(w: World, x1: int, y1: int, x2: int, y2: int)
    requires w.Valid()
    ensures Swap(Swap(w, x1, y1, x2, y2), x1, y1, x2, y2) == w
  {
    Extensionality(Swap(Swap(w, x1, y1, x2, y2), x1, y1, x2, y2), w);
  }

  /** Replacing row k changes the contents by exactly the old and new row. */
  lemma {:induction false} ContentsUpdate(g: seq<seq<Cell>>, k: int, row: seq<Cell>)
    requires 0 <= k < |g|
    ensures Contents(g[k := row]) + multiset(g[k]) == Contents(g) + multiset(row)
    decreases |g|
  {
    var n := |g| - 1;
    var g' := g[k := row];
    assert Contents(g') == Contents(g'[..n]) + multiset(g'[n]);
    assert Contents(g) == Contents(g[..n]) + multiset(g[n]);
    if k < n {
      assert g'[..n] == g[..n][k := row];
      assert g'[n] == g[n];
      assert g[..n][k] == g[k];
      ContentsUpdate(g[..n], k, row);
      calc {
        Contents(g') + multiset(g[k]);
        Contents(g[..n][k := row]) + multiset(g[..n][k]) + multiset(g[n]);
        Contents(g[..n]) + multiset(row) + multiset(g[n]);
        Contents(g) + multiset(row);
      }
    } else {
      assert g'[..n] == g[..n];
    }
  }

  /** Overwriting one element of a row changes its multiset by exactly the old and new element. */
  lemma RowWrite(s: seq<Cell>, x: int, c: Cell)
    requires 0 <= x < |s|
    ensures multiset(s[x := c]) + multiset{s[x]} == multiset(s) + multiset{c}
  {
    assert s == s[..x] + [s[x]] + s[x + 1..];
    assert s[x := c] == s[..x] + [c] + s[x + 1..];
  }

  /** Overwriting one cell changes the contents by exactly the old and new cell. */
  lemma ContentsWrite(g: seq<seq<Cell>>, y: int, x: int, c: Cell)
    requires 0 <= y < |g| && 0 <= x < |g[y]|
    ensures Contents(g[y := g[y][x := c]]) + multiset{g[y][x]} == Contents(g) + multiset{c}
  {
    var row := g[y][x := c];
    var before, after := Contents(g), Contents(g[y := row]);
    ContentsUpdate(g, y, row);
    RowWrite(g[y], x, c);
    forall e
      ensures (after + multiset{g[y][x]})[e] == (before + multiset{c})[e]
    {
      assert (after + multiset(g[y]))[e] == (before + multiset(row))[e];
      assert (multiset(row) + multiset{g[y][x]})[e] == (multiset(g[y]) + multiset{c})[e];
    }
  }

  /** Swapping two cells preserves the multiset of cell contents: no particle
      is created, lost or duplicated. */
  lemma SwapPreservesContents(w: World, x1: int, y1: int, x2: int, y2: int)
    requires w.Valid()
    ensures Contents(Swap(w, x1, y1, x2, y2).grid) == Contents(w.grid)
  {
    if InBounds(w, x1, y1) && InBounds(w, x2, y2) {
      var a := w.grid[y1][x1];
      var b := w.grid[y2][x2];
      var g1 := w.grid[y1 := w.grid[y1][x1 := b]];
      assert g1[y2][x2] == b;
      var g2 := g1[y2 := g1[y2][x2 := a]];
      assert Swap(w, x1, y1, x2, y2).grid == g2;
      ContentsWrite(w.grid, y1, x1, b);
      ContentsWrite(g1, y2, x2, a);
      forall e
        ensures Contents(g2)[e] == Contents(w.grid)[e]
      {
        assert (Contents(g1) + multiset{a})[e] == (Contents(w.grid) + multiset{b})[e];
        assert (Contents(g2) + multiset{b})[e] == (Contents(g1) + multiset{a})[e];
      }
    }
  }

  /** Clearing gives exactly the grid a fresh world of the same size has. */
  lemma ClearIsFresh(w: World)
    requires w.Valid()
    ensures Clear(w) == NewWorld(w.width, w.height)
  {
    Extensionality(Clear(w), NewWorld(w.width, w.height));
  }

  /** Clearing the flags twice is the same as clearing them once. */
  lemma ResetUpdatedIdempotent(w: World)
    requires w.Valid()
    ensures ResetUpdated(ResetUpdated(w)) == ResetUpdated(w)
  {
    Extensionality(ResetUpdated(ResetUpdated(w)), ResetUpdated(w));
  }

}
