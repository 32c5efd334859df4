/** Facts about the individual rules of the update engine: where each
    particle type may move, which neighbours it may overwrite, and that
    nothing else changes. */
module RuleFacts {

  import opened Options
  import opened Particles
  import opened Worlds
  import opened Physics

  // ---------------------------------------------------------------------------
  // Vocabulary

  /** (i, j) lies within two columns and one row of (x, y). */
  predicate Near(x: int, y: int, i: int, j: int) {
    -2 <= i - x <= 2 && -1 <= j - y <= 1
  }

  /** (i, j) is one of the eight cells around (x, y). */
  predicate IsNeighbour(x: int, y: int, i: int, j: int) {
    -1 <= i - x <= 1 && -1 <= j - y <= 1 && (i != x || j != y)
  }

  /** A cell a rule may overwrite or move into: empty, wood or water. */
  predicate Soft(w: World, i: int, j: int)
    requires w.Valid()
  {
    Get(w, i, j) == None || IsType(w, i, j, Wood) || IsType(w, i, j, Water)
  }

  /** The frame of one dispatch at (x, y): the dispatched cell holds stone
      afterwards exactly when it did before, and every other cell that changes
      is near (x, y), was soft, and does not hold stone afterwards. */
  ghost predicate OnlySoftCellsChange(w: World, r: World, x: int, y: int)
    requires w.Valid() && r.Valid()
  {
    && (IsType(r, x, y, Stone) <==> IsType(w, x, y, Stone))
    && forall i, j :: (i != x || j != y) && Get(r, i, j) != Get(w, i, j) ==>
         Near(x, y, i, j) && Soft(w, i, j) && !IsType(r, i, j, Stone)
  }

  /** A wood cell of w holds a fresh fire in r: unprocessed, with a full
      lifetime of 20 to 49 ticks. */
  predicate Ignited(w: World, r: World, i: int, j: int)
    requires w.Valid() && r.Valid()
  {
    && IsType(w, i, j, Wood) && IsType(r, i, j, Fire)
    && !Get(r, i, j).value.updated
    && Get(r, i, j).value.lifetime.Some?
    && FireLifetimeBase <= Get(r, i, j).value.lifetime.value < FireLifetimeBase + FireLifetimeSpan
  }

  /** A water cell of w holds smoke in r. */
  predicate Evaporated(w: World, r: World, i: int, j: int)
    requires w.Valid() && r.Valid()
  {
    IsType(w, i, j, Water) && IsType(r, i, j, Smoke)
  }

  /** None of the three cells below (x, y) is empty. */
  predicate BlockedBelow(w: World, x: int, y: int)
    requires w.Valid()
  {
    !IsEmpty(w, x, y + 1) && !IsEmpty(w, x - 1, y + 1) && !IsEmpty(w, x + 1, y + 1)
  }

  /** Exchanging a non-stone cell with a soft cell near it is a soft change. */
  lemma SwapIsSoft(w: World, x: int, y: int, tx: int, ty: int)
    requires w.Valid() && !IsType(w, x, y, Stone) && Near(x, y, tx, ty) && Soft(w, tx, ty)
    ensures OnlySoftCellsChange(w, Swap(w, x, y, tx, ty), x, y)
  {
  }

  /** Overwriting the dispatched cell, neither before nor after with stone, is a soft change. */
  lemma SetOwnIsSoft(w: World, x: int, y: int, c: Cell)
    requires w.Valid() && !IsType(w, x, y, Stone) && (c == None || c.value.kind != Stone)
    ensures OnlySoftCellsChange(w, Set(w, x, y, c), x, y)
  {
  }

  /** Two soft changes around the same cell make a soft change. */
  lemma SoftCompose(w: World, v: World, r: World, x: int, y: int)
    requires w.Valid() && v.Valid() && r.Valid()
    requires OnlySoftCellsChange(w, v, x, y) && OnlySoftCellsChange(v, r, x, y)
    ensures OnlySoftCellsChange(w, r, x, y)
  {
    forall i, j | (i != x || j != y) && Get(r, i, j) != Get(w, i, j)
      ensures Near(x, y, i, j) && Soft(w, i, j) && !IsType(r, i, j, Stone)
    {
      if Get(v, i, j) == Get(w, i, j) {
        assert Soft(v, i, j);
      }
    }
  }

  // ---------------------------------------------------------------------------
  // The mover

  /** Reference for the mover, by index: exchange (x, y) with the first probe
      that admits the mover, or leave w as it was when none does. */
  function EnterFirstOpen(w: World, x: int, y: int, probes: Probes, mover: ParticleType): World
    requires w.Valid()
  {
    EnterAt(w, x, y, probes, FirstOpen(w, x, y, probes, mover))
  }

  /** Exchange (x, y) with probe i, or leave w as it was when i is past the last probe. */
  function EnterAt(w: World, x: int, y: int, probes: Probes, i: nat): World
    requires w.Valid() && i <= |probes|
  {
    if i == |probes| then w else Swap(w, x, y, x + probes[i].0, y + probes[i].1)
  }

  /** Probe i + 1 of a list is probe i of its tail. */
  lemma EnterAtTail(w: World, x: int, y: int, probes: Probes, i: nat)
    requires w.Valid() && i < |probes|
    ensures EnterAt(w, x, y, probes, i + 1) == EnterAt(w, x, y, probes[1..], i)
  {
    if i + 1 < |probes| {
      assert probes[1..][i] == probes[i + 1];
    }
  }

  /** When the first probe admits the mover, both the mover and its reference
      enter that probe. */
  lemma EnterHead(w: World, x: int, y: int, probes: Probes, mover: ParticleType)
    requires w.Valid() && |probes| > 0 && Admits(w, mover, x + probes[0].0, y + probes[0].1)
    ensures MoveFirst(w, x, y, probes, mover) == EnterFirstOpen(w, x, y, probes, mover)
  {
    var tx := x + probes[0].0;
    var ty := y + probes[0].1;
    assert FirstOpen(w, x, y, probes, mover) == 0;
    if mover == Sand {
      assert CanFallThrough(w, tx, ty);
      assert MoveFirst(w, x, y, probes, mover) == SwapOrFall(w, x, y, tx, ty) == Swap(w, x, y, tx, ty);
    } else {
      assert MoveFirst(w, x, y, probes, mover) == Swap(w, x, y, tx, ty);
    }
  }

  /** When the first probe does not admit the mover, the first open probe is
      one further on than on the remaining probes. */
  lemma FirstOpenSkipsHead(w: World, x: int, y: int, probes: Probes, mover: ParticleType)
    requires w.Valid() && |probes| > 0 && !Admits(w, mover, x + probes[0].0, y + probes[0].1)
    ensures FirstOpen(w, x, y, probes, mover) == FirstOpen(w, x, y, probes[1..], mover) + 1
  {
  }

  /** When the first probe does not admit the mover, the reference enters
      what it enters on the remaining probes. */
  lemma EnterSkipsHead(w: World, x: int, y: int, probes: Probes, mover: ParticleType)
    requires w.Valid() && |probes| > 0 && !Admits(w, mover, x + probes[0].0, y + probes[0].1)
    ensures EnterFirstOpen(w, x, y, probes, mover) == EnterFirstOpen(w, x, y, probes[1..], mover)
  {
    FirstOpenSkipsHead(w, x, y, probes, mover);
    EnterAtTail(w, x, y, probes, FirstOpen(w, x, y, probes[1..], mover));
  }

  /** When the first probe does not admit the mover, agreement on the remaining
      probes carries over to the whole list. */
  lemma EnterTail(w: World, x: int, y: int, probes: Probes, mover: ParticleType)
    requires w.Valid() && |probes| > 0 && !Admits(w, mover, x + probes[0].0, y + probes[0].1)
    requires MoveFirst(w, x, y, probes[1..], mover) == EnterFirstOpen(w, x, y, probes[1..], mover)
    ensures MoveFirst(w, x, y, probes, mover) == EnterFirstOpen(w, x, y, probes, mover)
  {
    EnterSkipsHead(w, x, y, probes, mover);
  }

  /** The recursive mover agrees with its index-based reference. */
  lemma {:induction false} MoveFirstEntersFirstOpen(w: World, x: int, y: int, probes: Probes, mover: ParticleType)
    requires w.Valid()
    ensures MoveFirst(w, x, y, probes, mover) == EnterFirstOpen(w, x, y, probes, mover)
    decreases |probes|
  {
    if |probes| > 0 {
      if Admits(w, mover, x + probes[0].0, y + probes[0].1) {
        EnterHead(w, x, y, probes, mover);
      } else {
        MoveFirstEntersFirstOpen(w, x, y, probes[1..], mover);
        EnterTail(w, x, y, probes, mover);
      }
    }
  }

  /** One probe at a time: the mover enters the first probe if it admits the
      mover, and otherwise tries the rest. */
  lemma MoveFirstUnfolds(w: World, x: int, y: int, probes: Probes, mover: ParticleType)
    requires w.Valid() && |probes| > 0
    ensures MoveFirst(w, x, y, probes, mover) ==
      if Admits(w, mover, x + probes[0].0, y + probes[0].1)
      then Swap(w, x, y, x + probes[0].0, y + probes[0].1)
      else MoveFirst(w, x, y, probes[1..], mover)
  {
    if Admits(w, mover, x + probes[0].0, y + probes[0].1) {
      EnterHead(w, x, y, probes, mover);
    }
  }

  /** MoveFirstUnfolds for a list written as its first probe and the rest. */
  lemma MoveFirstCons(w: World, x: int, y: int, p: (int, int), rest: Probes, mover: ParticleType)
    requires w.Valid()
    ensures MoveFirst(w, x, y, [p] + rest, mover) ==
      if Admits(w, mover, x + p.0, y + p.1) then Swap(w, x, y, x + p.0, y + p.1)
      else MoveFirst(w, x, y, rest, mover)
  {
    MoveFirstUnfolds(w, x, y, [p] + rest, mover);
    assert ([p] + rest)[1..] == rest;
  }

  /** MoveFirstUnfolds three times, for a list starting with three given
      probes, which reach the cells (i0, j0), (i1, j1) and (i2, j2). */
  lemma MoveFirstThree(w: World, x: int, y: int, p0: (int, int), p1: (int, int), p2: (int, int),
                       rest: Probes, mover: ParticleType, i0: int, j0: int, i1: int, j1: int, i2: int, j2: int)
    requires w.Valid()
    requires x + p0.0 == i0 && y + p0.1 == j0
    requires x + p1.0 == i1 && y + p1.1 == j1
    requires x + p2.0 == i2 && y + p2.1 == j2
    ensures MoveFirst(w, x, y, [p0, p1, p2] + rest, mover) ==
      if Admits(w, mover, i0, j0) then Swap(w, x, y, i0, j0)
      else if Admits(w, mover, i1, j1) then Swap(w, x, y, i1, j1)
      else if Admits(w, mover, i2, j2) then Swap(w, x, y, i2, j2)
      else MoveFirst(w, x, y, rest, mover)
  {
    assert [p0, p1, p2] + rest == [p0] + ([p1] + ([p2] + rest));
    MoveFirstCons(w, x, y, p0, [p1] + ([p2] + rest), mover);
    MoveFirstCons(w, x, y, p1, [p2] + rest, mover);
    MoveFirstCons(w, x, y, p2, rest, mover);
  }

  /** The mover over a single probe, which reaches the cell (i, j). */
  lemma MoveFirstOne(w: World, x: int, y: int, p: (int, int), mover: ParticleType, i: int, j: int)
    requires w.Valid() && x + p.0 == i && y + p.1 == j
    ensures MoveFirst(w, x, y, [p], mover) == if Admits(w, mover, i, j) then Swap(w, x, y, i, j) else w
  {
    assert [p] == [p] + [];
    MoveFirstCons(w, x, y, p, [], mover);
  }

  /** The reference changes only soft cells when all probes lie near the mover. */
  lemma EnterIsSoft(w: World, x: int, y: int, probes: Probes, mover: ParticleType)
    requires w.Valid() && !IsType(w, x, y, Stone)
    requires forall k :: 0 <= k < |probes| ==> Near(x, y, x + probes[k].0, y + probes[k].1)
    ensures OnlySoftCellsChange(w, EnterFirstOpen(w, x, y, probes, mover), x, y)
  {
    var i := FirstOpen(w, x, y, probes, mover);
    var r := EnterFirstOpen(w, x, y, probes, mover);
    if i < |probes| {
      var tx, ty := x + probes[i].0, y + probes[i].1;
      assert r == Swap(w, x, y, tx, ty);
      SwapIsSoft(w, x, y, tx, ty);
    } else {
      assert r == w;
    }
  }

  /** A mover whose probes all lie near it changes only soft cells. */
  lemma MoveFirstIsSoft(w: World, x: int, y: int, probes: Probes, mover: ParticleType)
    requires w.Valid() && !IsType(w, x, y, Stone)
    requires forall k :: 0 <= k < |probes| ==> Near(x, y, x + probes[k].0, y + probes[k].1)
    ensures OnlySoftCellsChange(w, MoveFirst(w, x, y, probes, mover), x, y)
  {
    MoveFirstEntersFirstOpen(w, x, y, probes, mover);
    EnterIsSoft(w, x, y, probes, mover);
  }

  /** The reference only exchanges two cells. */
  lemma EnterConserves(w: World, x: int, y: int, probes: Probes, mover: ParticleType)
    requires w.Valid()
    ensures Contents(EnterFirstOpen(w, x, y, probes, mover).grid) == Contents(w.grid)
  {
    var i := FirstOpen(w, x, y, probes, mover);
    var r := EnterFirstOpen(w, x, y, probes, mover);
    if i < |probes| {
      var tx, ty := x + probes[i].0, y + probes[i].1;
      assert r == Swap(w, x, y, tx, ty);
      SwapPreservesContents(w, x, y, tx, ty);
    } else {
      assert r == w;
    }
  }

  /** The mover only exchanges cells, so no particle is created, lost or
      duplicated. */
  lemma MoveFirstConserves(w: World, x: int, y: int, probes: Probes, mover: ParticleType)
    requires w.Valid()
    ensures Contents(MoveFirst(w, x, y, probes, mover).grid) == Contents(w.grid)
  {
    MoveFirstEntersFirstOpen(w, x, y, probes, mover);
    EnterConserves(w, x, y, probes, mover);
  }

  /** The flow probes for distance 1 and 2, written out. */
  lemma FlowProbesListed(step: int)
    ensures FlowProbes(step, 1) == [(step, 0)]
    ensures FlowProbes(step, 2) == [(step, 0), (step + step, 0)]
  {
    assert FlowFrom(step + step + step, step, 0) == [];
    assert FlowFrom(step + step, step, 0) == [];
  }

  /** The k-th of `n` sideways probes from `offset` lies `offset + step * k` columns away. */
  lemma {:induction false} FlowFromOffsets(offset: int, step: int, n: nat, k: nat)
    requires k < n
    ensures |FlowFrom(offset, step, n)| == n
    ensures FlowFrom(offset, step, n)[k] == (offset + step * k, 0)
    decreases n
  {
    if k > 0 {
      FlowFromOffsets(offset + step, step, n - 1, k - 1);
      assert step * k == step + step * (k - 1);
    } else if n > 1 {
      FlowFromOffsets(offset + step, step, n - 1, 0);
    }
  }

  /** The water's sideways probes, counted by d from 1 to the flow distance:
      the d-th lies `step * d` columns away in the water's own row. */
  lemma FlowProbesOffsets(step: int, dist: nat, d: nat)
    requires 1 <= d <= dist
    ensures |FlowProbes(step, dist)| == dist
    ensures FlowProbes(step, dist)[d - 1] == (step * d, 0)
  {
    FlowFromOffsets(step, step, dist, d - 1);
    assert step + step * (d - 1) == step * d;
  }

  // ---------------------------------------------------------------------------
  // Sand

  /** The sand rule tries straight down, then diagonally down in the bias
      direction, then the other diagonal, and takes the first cell it can fall
      through. */
  lemma SandTriesInOrder(w: World, x: int, y: int, d: Draws)
    requires w.Valid()
    ensures var dir := Dir(d.right);
      UpdateSand(w, x, y, d) ==
        if CanFallThrough(w, x, y + 1) then Swap(w, x, y, x, y + 1)
        else if CanFallThrough(w, x + dir, y + 1) then Swap(w, x, y, x + dir, y + 1)
        else if CanFallThrough(w, x - dir, y + 1) then Swap(w, x, y, x - dir, y + 1)
        else w
  {
    var dir := Dir(d.right);
    assert SandProbes(dir) == [(0, 1), (dir, 1), (-dir, 1)] + [];
    MoveFirstThree(w, x, y, (0, 1), (dir, 1), (-dir, 1), [], Sand, x, y + 1, x + dir, y + 1, x - dir, y + 1);
  }

  /** Sand moves at most one cell per dispatch, one row down: straight down if
      that cell is empty or water, otherwise diagonally; it never moves when
      none of the three cells below is empty or water. */
  lemma SandFallsOneCell(w: World, x: int, y: int, d: Draws)
    requires w.Valid()
    ensures var r := UpdateSand(w, x, y, d);
      || (r == w && !CanFallThrough(w, x, y + 1) && !CanFallThrough(w, x - 1, y + 1) && !CanFallThrough(w, x + 1, y + 1))
      || (CanFallThrough(w, x, y + 1) && r == Swap(w, x, y, x, y + 1))
      || (!CanFallThrough(w, x, y + 1) && CanFallThrough(w, x - 1, y + 1) && r == Swap(w, x, y, x - 1, y + 1))
      || (!CanFallThrough(w, x, y + 1) && CanFallThrough(w, x + 1, y + 1) && r == Swap(w, x, y, x + 1, y + 1))
  {
    SandTriesInOrder(w, x, y, d);
  }

  /** Sand above water sinks: the two cells exchange, so the water ends up in
      the sand's old cell. */
  lemma SandDisplacesWater(w: World, x: int, y: int, d: Draws)
    requires w.Valid() && IsType(w, x, y, Sand) && IsType(w, x, y + 1, Water)
    ensures Get(UpdateSand(w, x, y, d), x, y + 1) == Get(w, x, y)
    ensures Get(UpdateSand(w, x, y, d), x, y) == Get(w, x, y + 1)
  {
    SandTriesInOrder(w, x, y, d);
  }

  /** Sand moves by exchanging cells: the multiset of cell contents is kept. */
  lemma SandConserves(w: World, x: int, y: int, d: Draws)
    requires w.Valid()
    ensures Contents(UpdateSand(w, x, y, d).grid) == Contents(w.grid)
  {
    MoveFirstConserves(w, x, y, SandProbes(Dir(d.right)), Sand);
  }

  /** A sand dispatch changes only soft cells in the row below. */
  lemma SandChangesOnlySoftCells(w: World, x: int, y: int, d: Draws)
    requires w.Valid() && IsType(w, x, y, Sand)
    ensures OnlySoftCellsChange(w, UpdateSand(w, x, y, d), x, y)
  {
    var ps := SandProbes(Dir(d.right));
    forall k | 0 <= k < |ps|
      ensures Near(x, y, x + ps[k].0, y + ps[k].1)
    {
    }
    MoveFirstIsSoft(w, x, y, ps, Sand);
  }

  // ---------------------------------------------------------------------------
  // Water

  /** Probing (dx, dy) from (x, y) for water tests and enters the cell (i, j). */
  lemma WaterProbeAt(w: World, x: int, y: int, dx: int, dy: int, i: int, j: int)
    requires w.Valid() && x + dx == i && y + dy == j
    ensures Admits(w, Water, x + dx, y + dy) == IsEmpty(w, i, j)
    ensures Swap(w, x, y, x + dx, y + dy) == Swap(w, x, y, i, j)
  {
  }

  /** Water meeting the sideways probes `FlowFrom(offset, step, n + 1)` ahead
      of `rest` tries the cell `offset` columns away (column `i`) first. */
  lemma FlowStep(w: World, x: int, y: int, offset: int, step: int, n: nat, rest: Probes, i: int)
    requires w.Valid() && i == x + offset
    ensures MoveFirst(w, x, y, FlowFrom(offset, step, n + 1) + rest, Water) ==
      if IsEmpty(w, i, y) then Swap(w, x, y, i, y)
      else MoveFirst(w, x, y, FlowFrom(offset + step, step, n) + rest, Water)
  {
    assert FlowFrom(offset, step, n + 1) + rest == [(offset, 0)] + (FlowFrom(offset + step, step, n) + rest);
    MoveFirstCons(w, x, y, (offset, 0), FlowFrom(offset + step, step, n) + rest, Water);
    WaterProbeAt(w, x, y, offset, 0, i, y);
  }

  /** Once the sideways probes are used up, the rest are tried. */
  lemma FlowDone(offset: int, step: int, rest: Probes)
    ensures FlowFrom(offset, step, 0) + rest == rest
  {
  }

  /** Water meeting one sideways probe in direction `step` ahead of `rest`. */
  lemma FlowOne(w: World, x: int, y: int, step: int, rest: Probes)
    requires w.Valid()
    ensures MoveFirst(w, x, y, FlowProbes(step, 1) + rest, Water) ==
      if IsEmpty(w, x + step, y) then Swap(w, x, y, x + step, y)
      else MoveFirst(w, x, y, rest, Water)
  {
    FlowStep(w, x, y, step, step, 0, rest, x + step);
    FlowDone(step + step, step, rest);
  }

  /** Water meeting two sideways probes in direction `step` ahead of `rest`. */
  lemma FlowTwo(w: World, x: int, y: int, step: int, rest: Probes)
    requires w.Valid()
    ensures MoveFirst(w, x, y, FlowProbes(step, 2) + rest, Water) ==
      if IsEmpty(w, x + step, y) then Swap(w, x, y, x + step, y)
      else if IsEmpty(w, x + 2 * step, y) then Swap(w, x, y, x + 2 * step, y)
      else MoveFirst(w, x, y, rest, Water)
  {
    FlowStep(w, x, y, step, step, 1, rest, x + step);
    FlowStep(w, x, y, step + step, step, 0, rest, x + 2 * step);
    FlowDone(step + step + step, step, rest);
  }

  /** Water meeting its sideways probes in direction `step` (one cell, or two
      when `far`) ahead of the probes `rest`. */
  lemma FlowAhead(w: World, x: int, y: int, step: int, far: bool, rest: Probes)
    requires w.Valid()
    ensures MoveFirst(w, x, y, FlowProbes(step, if far then 2 else 1) + rest, Water) ==
      if IsEmpty(w, x + step, y) then Swap(w, x, y, x + step, y)
      else if far && IsEmpty(w, x + 2 * step, y) then Swap(w, x, y, x + 2 * step, y)
      else MoveFirst(w, x, y, rest, Water)
  {
    if far {
      FlowTwo(w, x, y, step, rest);
    } else {
      FlowOne(w, x, y, step, rest);
    }
  }

  /** The same with no probes after the sideways ones: nothing moves when
      none of them is empty. */
  lemma FlowAlone(w: World, x: int, y: int, step: int, far: bool)
    requires w.Valid()
    ensures MoveFirst(w, x, y, FlowProbes(step, if far then 2 else 1), Water) ==
      if IsEmpty(w, x + step, y) then Swap(w, x, y, x + step, y)
      else if far && IsEmpty(w, x + 2 * step, y) then Swap(w, x, y, x + 2 * step, y)
      else w
  {
    var ps := FlowProbes(step, if far then 2 else 1);
    assert ps + [] == ps;
    FlowAhead(w, x, y, step, far, []);
  }

  /** Sideways flow tries one cell in the bias direction, then (if the draw
      allows) two, then the same on the other side, and takes the first empty one. */
  lemma WaterFlowsInOrder(w: World, x: int, y: int, dir: int, far: bool)
    requires w.Valid()
    ensures var dist := if far then 2 else 1;
      MoveFirst(w, x, y, FlowProbes(dir, dist) + FlowProbes(-dir, dist), Water) ==
        if IsEmpty(w, x + dir, y) then Swap(w, x, y, x + dir, y)
        else if far && IsEmpty(w, x + 2 * dir, y) then Swap(w, x, y, x + 2 * dir, y)
        else if IsEmpty(w, x - dir, y) then Swap(w, x, y, x - dir, y)
        else if far && IsEmpty(w, x - 2 * dir, y) then Swap(w, x, y, x - 2 * dir, y)
        else w
  {
    FlowAhead(w, x, y, dir, far, FlowProbes(-dir, if far then 2 else 1));
    FlowAlone(w, x, y, -dir, far);
  }

  /** Before flowing, water tries the three cells below in the sand's order,
      but only empty cells admit it. */
  lemma WaterFallsInOrder(w: World, x: int, y: int, d: Draws)
    requires w.Valid()
    ensures var dir := Dir(d.right);
            var dist := if d.flowFar then 2 else 1;
      UpdateWater(w, x, y, d) ==
        if IsEmpty(w, x, y + 1) then Swap(w, x, y, x, y + 1)
        else if IsEmpty(w, x + dir, y + 1) then Swap(w, x, y, x + dir, y + 1)
        else if IsEmpty(w, x - dir, y + 1) then Swap(w, x, y, x - dir, y + 1)
        else MoveFirst(w, x, y, FlowProbes(dir, dist) + FlowProbes(-dir, dist), Water)
  {
    var dir := Dir(d.right);
    var dist := if d.flowFar then 2 else 1;
    MoveFirstThree(w, x, y, (0, 1), (dir, 1), (-dir, 1), FlowProbes(dir, dist) + FlowProbes(-dir, dist), Water,
                   x, y + 1, x + dir, y + 1, x - dir, y + 1);
  }

  /** The water rule tries the three cells below as sand does, then the cells
      beside it in the bias direction, then in the other direction, each up to
      the drawn flow distance, and takes the first empty one. */
  lemma WaterTriesInOrder(w: World, x: int, y: int, d: Draws)
    requires w.Valid()
    ensures var dir := Dir(d.right);
      UpdateWater(w, x, y, d) ==
        if IsEmpty(w, x, y + 1) then Swap(w, x, y, x, y + 1)
        else if IsEmpty(w, x + dir, y + 1) then Swap(w, x, y, x + dir, y + 1)
        else if IsEmpty(w, x - dir, y + 1) then Swap(w, x, y, x - dir, y + 1)
        else if IsEmpty(w, x + dir, y) then Swap(w, x, y, x + dir, y)
        else if d.flowFar && IsEmpty(w, x + 2 * dir, y) then Swap(w, x, y, x + 2 * dir, y)
        else if IsEmpty(w, x - dir, y) then Swap(w, x, y, x - dir, y)
        else if d.flowFar && IsEmpty(w, x - 2 * dir, y) then Swap(w, x, y, x - 2 * dir, y)
        else w
  {
    WaterFallsInOrder(w, x, y, d);
    WaterFlowsInOrder(w, x, y, Dir(d.right), d.flowFar);
  }

  /** Water moves at most once per dispatch and only into an empty cell: one
      row down (straight first), or, when all three cells below are occupied,
      one or (if the draw allows) two columns sideways in its own row. */
  lemma WaterMovesIntoEmpty(w: World, x: int, y: int, d: Draws)
    requires w.Valid()
    ensures var r := UpdateWater(w, x, y, d);
      || (r == w && BlockedBelow(w, x, y) && !IsEmpty(w, x - 1, y) && !IsEmpty(w, x + 1, y)
            && (d.flowFar ==> !IsEmpty(w, x - 2, y) && !IsEmpty(w, x + 2, y)))
      || (IsEmpty(w, x, y + 1) && r == Swap(w, x, y, x, y + 1))
      || (!IsEmpty(w, x, y + 1) && IsEmpty(w, x - 1, y + 1) && r == Swap(w, x, y, x - 1, y + 1))
      || (!IsEmpty(w, x, y + 1) && IsEmpty(w, x + 1, y + 1) && r == Swap(w, x, y, x + 1, y + 1))
      || (BlockedBelow(w, x, y) && IsEmpty(w, x - 1, y) && r == Swap(w, x, y, x - 1, y))
      || (BlockedBelow(w, x, y) && IsEmpty(w, x + 1, y) && r == Swap(w, x, y, x + 1, y))
      || (BlockedBelow(w, x, y) && d.flowFar && IsEmpty(w, x - 2, y) && r == Swap(w, x, y, x - 2, y))
      || (BlockedBelow(w, x, y) && d.flowFar && IsEmpty(w, x + 2, y) && r == Swap(w, x, y, x + 2, y))
  {
    WaterTriesInOrder(w, x, y, d);
  }

  /** The sideways probe does not look at the cell in between: blocked below,
      water two cells away from an occupied neighbour jumps over it. */
  lemma WaterJumpsOverNeighbour(w: World, x: int, y: int, d: Draws)
    requires w.Valid() && BlockedBelow(w, x, y)
    requires d.right && d.flowFar
    requires !IsEmpty(w, x + 1, y) && IsEmpty(w, x + 2, y)
    ensures UpdateWater(w, x, y, d) == Swap(w, x, y, x + 2, y)
  {
    WaterTriesInOrder(w, x, y, d);
  }

  /** Water moves by exchanging cells: the multiset of cell contents is kept. */
  lemma WaterConserves(w: World, x: int, y: int, d: Draws)
    requires w.Valid()
    ensures Contents(UpdateWater(w, x, y, d).grid) == Contents(w.grid)
  {
    MoveFirstConserves(w, x, y, WaterProbes(Dir(d.right), if d.flowFar then 2 else 1), Water);
  }

  /** A water dispatch only moves the water into an empty cell near it. */
  lemma WaterChangesOnlySoftCells(w: World, x: int, y: int, d: Draws)
    requires w.Valid() && IsType(w, x, y, Water)
    ensures OnlySoftCellsChange(w, UpdateWater(w, x, y, d), x, y)
  {
    var dir := Dir(d.right);
    var ps := WaterProbes(dir, if d.flowFar then 2 else 1);
    FlowProbesListed(dir);
    FlowProbesListed(-dir);
    forall k | 0 <= k < |ps|
      ensures Near(x, y, x + ps[k].0, y + ps[k].1)
    {
    }
    MoveFirstIsSoft(w, x, y, ps, Water);
  }

  // ---------------------------------------------------------------------------
  // Smoke

  /** Smoke whose lifetime runs out empties its cell and changes nothing else. */
  lemma SmokeVanishes(w: World, x: int, y: int, p: Particle, d: Draws)
    requires w.Valid() && Expires(p)
    ensures UpdateSmoke(w, x, y, p, d) == Set(w, x, y, None)
  {
    SetSet(w, x, y, Some(Age(p)), None);
  }

  /** The smoke's mover tries straight up, then diagonally up in the bias
      direction, then the other diagonal, then sideways in the bias
      direction, and enters the first empty cell. */
  lemma SmokeProbesInOrder(a: World, x: int, y: int, dir: int)
    requires a.Valid()
    ensures MoveFirst(a, x, y, SmokeProbes(dir), Smoke) ==
        if IsEmpty(a, x, y - 1) then Swap(a, x, y, x, y - 1)
        else if IsEmpty(a, x + dir, y - 1) then Swap(a, x, y, x + dir, y - 1)
        else if IsEmpty(a, x - dir, y - 1) then Swap(a, x, y, x - dir, y - 1)
        else if IsEmpty(a, x + dir, y) then Swap(a, x, y, x + dir, y)
        else a
  {
    assert SmokeProbes(dir) == [(0, -1), (dir, -1), (-dir, -1)] + [(dir, 0)];
    MoveFirstThree(a, x, y, (0, -1), (dir, -1), (-dir, -1), [(dir, 0)], Smoke, x, y - 1, x + dir, y - 1, x - dir, y - 1);
    MoveFirstOne(a, x, y, (dir, 0), Smoke, x + dir, y);
  }

  /** Live smoke, aged by one tick, tries straight up, then diagonally up in the
      bias direction, then the other diagonal, then sideways in the bias
      direction, and moves into the first empty cell. */
  lemma SmokeTriesInOrder(w: World, x: int, y: int, p: Particle, d: Draws)
    requires w.Valid() && Get(w, x, y) == Some(p) && !Expires(p)
    ensures var dir := Dir(d.right);
            var a := Set(w, x, y, Some(Age(p)));
      UpdateSmoke(w, x, y, p, d) ==
        if IsEmpty(w, x, y - 1) then Swap(a, x, y, x, y - 1)
        else if IsEmpty(w, x + dir, y - 1) then Swap(a, x, y, x + dir, y - 1)
        else if IsEmpty(w, x - dir, y - 1) then Swap(a, x, y, x - dir, y - 1)
        else if IsEmpty(w, x + dir, y) then Swap(a, x, y, x + dir, y)
        else a
  {
    var dir := Dir(d.right);
    var a := Set(w, x, y, Some(Age(p)));
    if p.lifetime.None? {
      SetSame(w, x, y);
    }
    SmokeProbesInOrder(a, x, y, dir);
    assert IsEmpty(a, x, y - 1) == IsEmpty(w, x, y - 1);
    assert IsEmpty(a, x + dir, y - 1) == IsEmpty(w, x + dir, y - 1);
    assert IsEmpty(a, x - dir, y - 1) == IsEmpty(w, x - dir, y - 1);
    assert IsEmpty(a, x + dir, y) == IsEmpty(w, x + dir, y);
  }

  /** Live smoke keeps its (aged) particle and moves it at most once, into an
      empty cell above it, diagonally above, or beside it in the bias direction. */
  lemma SmokeRises(w: World, x: int, y: int, p: Particle, d: Draws)
    requires w.Valid() && Get(w, x, y) == Some(p) && !Expires(p)
    ensures var a := Set(w, x, y, Some(Age(p)));
            var r := UpdateSmoke(w, x, y, p, d);
      || (r == a && !IsEmpty(w, x, y - 1) && !IsEmpty(w, x - 1, y - 1) && !IsEmpty(w, x + 1, y - 1)
            && !IsEmpty(w, x + Dir(d.right), y))
      || (IsEmpty(w, x, y - 1) && r == Swap(a, x, y, x, y - 1))
      || (!IsEmpty(w, x, y - 1) && IsEmpty(w, x - 1, y - 1) && r == Swap(a, x, y, x - 1, y - 1))
      || (!IsEmpty(w, x, y - 1) && IsEmpty(w, x + 1, y - 1) && r == Swap(a, x, y, x + 1, y - 1))
      || (!IsEmpty(w, x, y - 1) && !IsEmpty(w, x - 1, y - 1) && !IsEmpty(w, x + 1, y - 1)
            && IsEmpty(w, x + Dir(d.right), y) && r == Swap(a, x, y, x + Dir(d.right), y))
  {
    SmokeTriesInOrder(w, x, y, p, d);
  }

  /** A smoke dispatch only empties its own cell or moves into an empty cell. */
  lemma SmokeChangesOnlySoftCells(w: World, x: int, y: int, p: Particle, d: Draws)
    requires w.Valid() && Get(w, x, y) == Some(p) && p.kind == Smoke
    ensures OnlySoftCellsChange(w, UpdateSmoke(w, x, y, p, d), x, y)
  {
    var a := Set(w, x, y, Some(Age(p)));
    SetOwnIsSoft(w, x, y, Some(Age(p)));
    if Expires(p) {
      SmokeVanishes(w, x, y, p, d);
      SetSet(w, x, y, Some(Age(p)), None);
      SetOwnIsSoft(a, x, y, None);
      SoftCompose(w, a, Set(a, x, y, None), x, y);
    } else {
      if p.lifetime.None? {
        SetSame(w, x, y);
      }
      assert UpdateSmoke(w, x, y, p, d) == MoveFirst(a, x, y, SmokeProbes(Dir(d.right)), Smoke);
      var ps := SmokeProbes(Dir(d.right));
      forall k | 0 <= k < |ps|
        ensures Near(x, y, x + ps[k].0, y + ps[k].1)
      {
      }
      MoveFirstIsSoft(a, x, y, ps, Smoke);
      SoftCompose(w, a, UpdateSmoke(w, x, y, p, d), x, y);
    }
  }

  // ---------------------------------------------------------------------------
  // Fire

  /** Every neighbour slot is one of the eight cells around the fire. */
  lemma SlotIsNeighbour(x: int, y: int, k: int)
    requires 0 <= k < |NeighbourSlots|
    ensures IsNeighbour(x, y, x + NeighbourSlots[k].0, y + NeighbourSlots[k].1)
  {
    assert k in {0, 1, 2, 3, 4, 5, 6, 7};
  }

  /** Lighting a slot changes at most that cell, from wood to a fresh fire,
      and leaves every water cell where it was; the cell is lit exactly when
      it holds wood and the draw says so. */
  lemma LightWoodSpec(w: World, nx: int, ny: int, ignites: bool, roll: FireRoll)
    requires w.Valid()
    ensures var w1 := LightWood(w, nx, ny, ignites, roll);
      && (forall i, j :: (i != nx || j != ny) ==> Get(w1, i, j) == Get(w, i, j))
      && (Get(w1, nx, ny) != Get(w, nx, ny) <==> IsType(w, nx, ny, Wood) && ignites)
      && (Get(w1, nx, ny) != Get(w, nx, ny) ==> Ignited(w, w1, nx, ny))
      && (forall i, j :: IsType(w1, i, j, Water) <==> IsType(w, i, j, Water))
  {
  }

  /** Dousing turns exactly the chosen water cell into smoke, empties the
      fire's cell and changes nothing else. */
  lemma DouseSpec(w: World, x: int, y: int, nx: int, ny: int, roll: SmokeRoll)
    requires w.Valid() && IsType(w, nx, ny, Water) && (nx != x || ny != y)
    ensures var r := Douse(w, x, y, nx, ny, roll);
      && (forall i, j :: (i != x || j != y) && (i != nx || j != ny) ==> Get(r, i, j) == Get(w, i, j))
      && Get(r, x, y) == None
      && Evaporated(w, r, nx, ny) && !Get(r, nx, ny).value.updated
      && (forall i, j :: Evaporated(w, r, i, j) ==> i == nx && j == ny)
  {
  }

  /** What the neighbour scan may do to w, ending in r: every cell other than
      the fire's that changes is a neighbour that was wood and is now fresh
      fire, or was water and is now smoke; a water evaporates exactly when the
      fire is put out, the one at `spot` and no other, and then the fire's
      cell is empty. */
  ghost predicate Scorched(w: World, r: World, x: int, y: int, doused: bool, spot: (int, int))
    requires w.Valid() && r.Valid()
  {
    && (forall i, j :: (i != x || j != y) && Get(r, i, j) != Get(w, i, j) ==>
          IsNeighbour(x, y, i, j) && (Ignited(w, r, i, j) || Evaporated(w, r, i, j)))
    && (doused ==> Get(r, x, y) == None && Evaporated(w, r, spot.0, spot.1))
    && (!doused ==> Get(r, x, y) == Get(w, x, y))
    && (forall i, j :: Evaporated(w, r, i, j) ==> doused && i == spot.0 && j == spot.1)
  }

  /** Lighting a neighbour and then dousing one ends the scan as described. */
  lemma DouseIsScorched(w: World, x: int, y: int, nx: int, ny: int, ignites: bool, roll: FireRoll, smoke: SmokeRoll)
    requires w.Valid() && IsNeighbour(x, y, nx, ny)
    requires IsType(LightWood(w, nx, ny, ignites, roll), nx, ny, Water)
    ensures Scorched(w, Douse(LightWood(w, nx, ny, ignites, roll), x, y, nx, ny, smoke), x, y, true, (nx, ny))
  {
    var w1 := LightWood(w, nx, ny, ignites, roll);
    var r := Douse(w1, x, y, nx, ny, smoke);
    LightWoodSpec(w, nx, ny, ignites, roll);
    DouseSpec(w1, x, y, nx, ny, smoke);
    forall i, j
      ensures Evaporated(w, r, i, j) == Evaporated(w1, r, i, j)
    {
    }
    forall i, j | (i != x || j != y) && Get(r, i, j) != Get(w, i, j)
      ensures IsNeighbour(x, y, i, j) && (Ignited(w, r, i, j) || Evaporated(w, r, i, j))
    {
      assert i == nx && j == ny;
    }
  }

  /** Lighting a neighbour before a scan that ends as described still ends as
      described, measured from the world before the lighting. */
  lemma LightThenScorched(w: World, r: World, x: int, y: int, nx: int, ny: int, ignites: bool, roll: FireRoll,
                           doused: bool, spot: (int, int))
    requires w.Valid() && r.Valid() && IsNeighbour(x, y, nx, ny)
    requires Scorched(LightWood(w, nx, ny, ignites, roll), r, x, y, doused, spot)
    ensures Scorched(w, r, x, y, doused, spot)
  {
    var w1 := LightWood(w, nx, ny, ignites, roll);
    LightWoodSpec(w, nx, ny, ignites, roll);
    forall i, j
      ensures Evaporated(w, r, i, j) == Evaporated(w1, r, i, j)
    {
    }
    forall i, j | (i != x || j != y) && Get(r, i, j) != Get(w, i, j)
      ensures IsNeighbour(x, y, i, j) && (Ignited(w, r, i, j) || Evaporated(w, r, i, j))
    {
      if Get(r, i, j) == Get(w1, i, j) {
        assert i == nx && j == ny;
      } else if Ignited(w1, r, i, j) {
        assert Get(w1, i, j) == Get(w, i, j);
      }
    }
  }

  /** The scan from slot k on ends as Scorched describes. */
  ghost predicate ScanEnds(w: World, x: int, y: int, d: Draws, k: nat)
    requires w.Valid() && k <= |NeighbourSlots|
  {
    var res := Scorch(w, x, y, d, k);
    exists spot :: Scorched(w, res.0, x, y, res.1, spot)
  }

  /** The world after the scan has considered lighting slot k. */
  function SlotLit(w: World, x: int, y: int, d: Draws, k: nat): (r: World)
    requires w.Valid() && k < |NeighbourSlots|
    ensures r.Valid()
  {
    LightWood(w, x + NeighbourSlots[k].0, y + NeighbourSlots[k].1, d.ignites(k), d.fireRolls(k))
  }

  /** Whether slot k holds water, after the lighting, and that water evaporates. */
  predicate Quenches(w: World, x: int, y: int, d: Draws, k: nat)
    requires w.Valid() && k < |NeighbourSlots|
  {
    IsType(SlotLit(w, x, y, d, k), x + NeighbourSlots[k].0, y + NeighbourSlots[k].1, Water) && d.evaporates(k)
  }

  /** A scan that has run past the last slot ends as described, having changed nothing. */
  lemma ScanAtEnd(w: World, x: int, y: int, d: Draws)
    requires w.Valid()
    ensures ScanEnds(w, x, y, d, |NeighbourSlots|)
  {
    var res := Scorch(w, x, y, d, |NeighbourSlots|);
    assert res == (w, false);
    assert Scorched(w, res.0, x, y, res.1, (x, y));
  }

  /** A slot whose water neighbour evaporates ends the scan as described. */
  lemma ScorchStopsAt(w: World, x: int, y: int, d: Draws, k: nat)
    requires w.Valid() && k < |NeighbourSlots| && Quenches(w, x, y, d, k)
    ensures ScanEnds(w, x, y, d, k)
  {
    var nx := x + NeighbourSlots[k].0;
    var ny := y + NeighbourSlots[k].1;
    SlotIsNeighbour(x, y, k);
    DouseIsScorched(w, x, y, nx, ny, d.ignites(k), d.fireRolls(k), d.smokeRoll);
    var res := Scorch(w, x, y, d, k);
    assert res == (Douse(SlotLit(w, x, y, d, k), x, y, nx, ny, d.smokeRoll), true);
    assert Scorched(w, res.0, x, y, res.1, (nx, ny));
  }

  /** A slot whose water does not evaporate hands the scan on to the next
      slot, and the rest of the scan's contract carries back over it. */
  lemma ScorchPassesOn(w: World, x: int, y: int, d: Draws, k: nat)
    requires w.Valid() && k < |NeighbourSlots| && !Quenches(w, x, y, d, k)
    requires ScanEnds(SlotLit(w, x, y, d, k), x, y, d, k + 1)
    ensures ScanEnds(w, x, y, d, k)
  {
    var w1 := SlotLit(w, x, y, d, k);
    var res := Scorch(w1, x, y, d, k + 1);
    assert Scorch(w, x, y, d, k) == res;
    var spot :| Scorched(w1, res.0, x, y, res.1, spot);
    SlotLitThenScorched(w, res.0, x, y, d, k, res.1, spot);
  }

  /** LightThenScorched for the lighting of slot k. */
  lemma SlotLitThenScorched(w: World, r: World, x: int, y: int, d: Draws, k: nat, doused: bool, spot: (int, int))
    requires w.Valid() && r.Valid() && k < |NeighbourSlots|
    requires Scorched(SlotLit(w, x, y, d, k), r, x, y, doused, spot)
    ensures Scorched(w, r, x, y, doused, spot)
  {
    SlotIsNeighbour(x, y, k);
    LightThenScorched(w, r, x, y, x + NeighbourSlots[k].0, y + NeighbourSlots[k].1, d.ignites(k), d.fireRolls(k), doused, spot);
  }

  /** The neighbour scan from slot k on ends as Scorched describes. */
  lemma {:induction false} ScorchSpec(w: World, x: int, y: int, d: Draws, k: nat)
    requires w.Valid() && k <= |NeighbourSlots|
    ensures ScanEnds(w, x, y, d, k)
    decreases |NeighbourSlots| - k
  {
    if k == |NeighbourSlots| {
      ScanAtEnd(w, x, y, d);
    } else if Quenches(w, x, y, d, k) {
      ScorchStopsAt(w, x, y, d, k);
    } else {
      ScorchSpec(SlotLit(w, x, y, d, k), x, y, d, k + 1);
      ScorchPassesOn(w, x, y, d, k);
    }
  }

  /** Whether the neighbour in slot k holds water in w and its evaporation
      draw succeeds. Lighting wood neither makes nor removes water, so this is
      the test the scan makes at slot k whatever it lit before. */
  predicate WaterQuenches(w: World, x: int, y: int, d: Draws, k: int)
    requires w.Valid() && 0 <= k < |NeighbourSlots|
  {
    IsType(w, x + NeighbourSlots[k].0, y + NeighbourSlots[k].1, Water) && d.evaporates(k)
  }

  /** Reference for where the scan stops: the first slot from k on whose water
      evaporates, or |NeighbourSlots| when there is none. */
  function FirstQuench(w: World, x: int, y: int, d: Draws, k: nat): (m: nat)
    requires w.Valid() && k <= |NeighbourSlots|
    ensures k <= m <= |NeighbourSlots|
    ensures m < |NeighbourSlots| ==> WaterQuenches(w, x, y, d, m)
    ensures forall n :: k <= n < m ==> !WaterQuenches(w, x, y, d, n)
    decreases |NeighbourSlots| - k
  {
    if k == |NeighbourSlots| then k
    else if WaterQuenches(w, x, y, d, k) then k
    else FirstQuench(w, x, y, d, k + 1)
  }

  /** Two worlds with their water in the same cells stop the scan at the same slot. */
  lemma {:induction false} FirstQuenchSameWater(w: World, v: World, x: int, y: int, d: Draws, k: nat)
    requires w.Valid() && v.Valid() && k <= |NeighbourSlots|
    requires forall i, j :: IsType(v, i, j, Water) <==> IsType(w, i, j, Water)
    ensures FirstQuench(v, x, y, d, k) == FirstQuench(w, x, y, d, k)
    decreases |NeighbourSlots| - k
  {
    if k < |NeighbourSlots| {
      assert WaterQuenches(v, x, y, d, k) == WaterQuenches(w, x, y, d, k);
      FirstQuenchSameWater(w, v, x, y, d, k + 1);
    }
  }

  /** The scan ended in r, put out or not as `doused` says, at the slot m the
      reference names: it is put out exactly when m is a slot, and then the
      water in slot m is the one that turned to smoke. */
  ghost predicate DousedAt(w: World, r: World, x: int, y: int, doused: bool, m: nat)
    requires w.Valid() && r.Valid()
  {
    && (doused <==> m < |NeighbourSlots|)
    && (m < |NeighbourSlots| ==> Evaporated(w, r, x + NeighbourSlots[m].0, y + NeighbourSlots[m].1))
  }

  /** The scan from slot k is put out exactly when a slot's water evaporates,
      and the water that turns to smoke is the first such slot's. */
  ghost predicate DousesFirst(w: World, x: int, y: int, d: Draws, k: nat)
    requires w.Valid() && k <= |NeighbourSlots|
  {
    var res := Scorch(w, x, y, d, k);
    DousedAt(w, res.0, x, y, res.1, FirstQuench(w, x, y, d, k))
  }

  /** The slot k whose water evaporates is where the scan is put out. */
  lemma QuenchAtSlot(w: World, x: int, y: int, d: Draws, k: nat)
    requires w.Valid() && k < |NeighbourSlots| && WaterQuenches(w, x, y, d, k)
    ensures DousesFirst(w, x, y, d, k)
  {
    var nx := x + NeighbourSlots[k].0;
    var ny := y + NeighbourSlots[k].1;
    var w1 := SlotLit(w, x, y, d, k);
    SlotIsNeighbour(x, y, k);
    LightWoodSpec(w, nx, ny, d.ignites(k), d.fireRolls(k));
    assert IsType(w1, nx, ny, Water);
    DouseSpec(w1, x, y, nx, ny, d.smokeRoll);
    assert Scorch(w, x, y, d, k) == (Douse(w1, x, y, nx, ny, d.smokeRoll), true);
    assert FirstQuench(w, x, y, d, k) == k;
  }

  /** Lighting slot k leaves every cell's water as it was. */
  lemma SlotLitKeepsWater(w: World, x: int, y: int, d: Draws, k: nat)
    requires w.Valid() && k < |NeighbourSlots|
    ensures forall i, j :: IsType(SlotLit(w, x, y, d, k), i, j, Water) <==> IsType(w, i, j, Water)
  {
    LightWoodSpec(w, x + NeighbourSlots[k].0, y + NeighbourSlots[k].1, d.ignites(k), d.fireRolls(k));
  }

  /** A slot whose water does not evaporate is passed over: the scan goes on
      from the next slot, and so does the reference. */
  lemma QuenchSkipsSlot(w: World, x: int, y: int, d: Draws, k: nat)
    requires w.Valid() && k < |NeighbourSlots| && !WaterQuenches(w, x, y, d, k)
    ensures Scorch(w, x, y, d, k) == Scorch(SlotLit(w, x, y, d, k), x, y, d, k + 1)
    ensures FirstQuench(w, x, y, d, k) == FirstQuench(SlotLit(w, x, y, d, k), x, y, d, k + 1)
  {
    var w1 := SlotLit(w, x, y, d, k);
    SlotLitKeepsWater(w, x, y, d, k);
    assert !Quenches(w, x, y, d, k);
    FirstQuenchSameWater(w, w1, x, y, d, k + 1);
  }

  /** DousedAt carries back over a change that keeps every cell's water. */
  lemma DousedAtSameWater(w: World, v: World, r: World, x: int, y: int, doused: bool, m: nat)
    requires w.Valid() && v.Valid() && r.Valid()
    requires forall i, j :: IsType(v, i, j, Water) <==> IsType(w, i, j, Water)
    requires DousedAt(v, r, x, y, doused, m)
    ensures DousedAt(w, r, x, y, doused, m)
  {
  }

  /** A slot whose water does not evaporate hands the scan on, and where the
      rest of the scan is put out carries back over the lighting. */
  lemma QuenchLater(w: World, x: int, y: int, d: Draws, k: nat)
    requires w.Valid() && k < |NeighbourSlots| && !WaterQuenches(w, x, y, d, k)
    requires DousesFirst(SlotLit(w, x, y, d, k), x, y, d, k + 1)
    ensures DousesFirst(w, x, y, d, k)
  {
    var w1 := SlotLit(w, x, y, d, k);
    var res := Scorch(w1, x, y, d, k + 1);
    QuenchSkipsSlot(w, x, y, d, k);
    SlotLitKeepsWater(w, x, y, d, k);
    DousedAtSameWater(w, w1, res.0, x, y, res.1, FirstQuench(w1, x, y, d, k + 1));
  }

  /** Where the neighbour scan is put out: exactly when some slot's water
      evaporates, and then it is the first such slot in scan order. */
  lemma {:induction false} ScorchDousesFirst(w: World, x: int, y: int, d: Draws, k: nat)
    requires w.Valid() && k <= |NeighbourSlots|
    ensures DousesFirst(w, x, y, d, k)
    decreases |NeighbourSlots| - k
  {
    if k == |NeighbourSlots| {
      assert Scorch(w, x, y, d, k) == (w, false);
    } else if WaterQuenches(w, x, y, d, k) {
      QuenchAtSlot(w, x, y, d, k);
    } else {
      ScorchDousesFirst(SlotLit(w, x, y, d, k), x, y, d, k + 1);
      QuenchLater(w, x, y, d, k);
    }
  }

  /** A fire whose lifetime runs out becomes a fresh smoke or an empty cell
      (smoke exactly when the draw says so) and no other cell changes. */
  lemma FireBurnsOut(w: World, x: int, y: int, p: Particle, d: Draws)
    requires w.Valid() && InBounds(w, x, y) && Expires(p)
    ensures var r := UpdateFire(w, x, y, p, d);
      && (forall i, j :: (i != x || j != y) ==> Get(r, i, j) == Get(w, i, j))
      && (Get(r, x, y) == None || (IsType(r, x, y, Smoke) && !Get(r, x, y).value.updated
                                    && 40 <= Get(r, x, y).value.lifetime.value <= 79))
      && (IsType(r, x, y, Smoke) <==> d.toSmoke)
  {
  }

  /** The fire p at (x, y) has risen: the cell above was empty in w, it holds
      the aged fire in r, and the fire's own cell is empty. */
  ghost predicate Rose(w: World, r: World, x: int, y: int, p: Particle)
    requires w.Valid() && r.Valid()
  {
    IsEmpty(w, x, y - 1) && Get(r, x, y - 1) == Some(Age(p)) && Get(r, x, y) == None
  }

  /** What a live fire p at (x, y) may do to w, ending in r: besides its own
      cell it changes only neighbours that were wood (now fresh fire) or water
      (now smoke) and, when it rises, the cell above it. At most one water
      neighbour evaporates, and then the fire neither stays nor rises. The
      fire's own cell holds the aged fire, unless it rose or a water
      evaporated, and then it is empty. */
  ghost predicate Spread(w: World, r: World, x: int, y: int, p: Particle)
    requires w.Valid() && r.Valid()
  {
    && (forall i, j :: (i != x || j != y) && Get(r, i, j) != Get(w, i, j) ==>
          IsNeighbour(x, y, i, j)
          && (|| Ignited(w, r, i, j)
              || Evaporated(w, r, i, j)
              || (i == x && j == y - 1 && Rose(w, r, x, y, p))))
    && (forall i1, j1, i2, j2 :: Evaporated(w, r, i1, j1) && Evaporated(w, r, i2, j2) ==>
          i1 == i2 && j1 == j2)
    && (forall i, j :: Evaporated(w, r, i, j) ==> Get(r, x, y) == None && !Rose(w, r, x, y, p))
    && (|| Get(r, x, y) == Some(Age(p))
        || Rose(w, r, x, y, p)
        || exists i, j :: Evaporated(w, r, i, j))
  }

  /** A scan from the aged fire is a spread of the fire. */
  lemma ScorchedIsSpread(w: World, r: World, x: int, y: int, p: Particle, doused: bool, spot: (int, int))
    requires w.Valid() && r.Valid() && Get(w, x, y) == Some(p) && p.kind == Fire
    requires Scorched(Set(w, x, y, Some(Age(p))), r, x, y, doused, spot)
    ensures Spread(w, r, x, y, p)
  {
    var a := Set(w, x, y, Some(Age(p)));
    assert !IsType(a, x, y, Water) && !IsType(w, x, y, Water);
    forall i, j
      ensures Evaporated(w, r, i, j) == Evaporated(a, r, i, j)
    {
      if i != x || j != y {
        assert Get(a, i, j) == Get(w, i, j);
      }
    }
    forall i, j | (i != x || j != y)
      ensures Ignited(w, r, i, j) == Ignited(a, r, i, j)
    {
      assert Get(a, i, j) == Get(w, i, j);
    }
  }

  /** A fire that was not put out and rises into the empty cell above it is a
      spread of the fire. */
  lemma RiseIsSpread(w: World, r0: World, x: int, y: int, p: Particle, spot: (int, int))
    requires w.Valid() && r0.Valid() && Get(w, x, y) == Some(p) && p.kind == Fire
    requires Scorched(Set(w, x, y, Some(Age(p))), r0, x, y, false, spot)
    requires IsEmpty(r0, x, y - 1)
    ensures Spread(w, Swap(r0, x, y, x, y - 1), x, y, p)
  {
    var a := Set(w, x, y, Some(Age(p)));
    var r := Swap(r0, x, y, x, y - 1);
    ScorchedIsSpread(w, r0, x, y, p, false, spot);
    assert Get(r0, x, y) == Some(Age(p));
    assert Get(r0, x, y - 1) == Get(a, x, y - 1) == Get(w, x, y - 1);
    forall i, j
      ensures !Evaporated(w, r, i, j)
    {
      if !((i == x && j == y) || (i == x && j == y - 1)) {
        assert Get(r, i, j) == Get(r0, i, j);
        assert !Evaporated(a, r0, i, j);
      }
    }
  }

  /** A live fire's dispatch is a spread of the fire. */
  lemma FireSpreads(w: World, x: int, y: int, p: Particle, d: Draws)
    requires w.Valid() && Get(w, x, y) == Some(p) && p.kind == Fire && !Expires(p)
    ensures Spread(w, UpdateFire(w, x, y, p, d), x, y, p)
  {
    var a := Set(w, x, y, Some(Age(p)));
    if p.lifetime.None? {
      SetSame(w, x, y);
    }
    assert UpdateFire(w, x, y, p, d) == Blaze(a, x, y, d);
    var res := Scorch(a, x, y, d, 0);
    ScorchSpec(a, x, y, d, 0);
    var spot :| Scorched(a, res.0, x, y, res.1, spot);
    if !res.1 && d.rises && IsEmpty(res.0, x, y - 1) {
      RiseIsSpread(w, res.0, x, y, p, spot);
    } else {
      ScorchedIsSpread(w, res.0, x, y, p, res.1, spot);
    }
  }

  /** A live fire's dispatch is the blaze from its aged particle. */
  lemma LiveFireBlazes(w: World, x: int, y: int, p: Particle, d: Draws)
    requires w.Valid() && Get(w, x, y) == Some(p) && !Expires(p)
    ensures UpdateFire(w, x, y, p, d) == Blaze(Set(w, x, y, Some(Age(p))), x, y, d)
  {
    if p.lifetime.None? {
      SetSame(w, x, y);
    }
  }

  /** Ageing the fire in its cell moves no water. */
  lemma AgedFireKeepsWater(w: World, x: int, y: int, p: Particle)
    requires w.Valid() && Get(w, x, y) == Some(p) && p.kind == Fire
    ensures forall i, j :: IsType(Set(w, x, y, Some(Age(p))), i, j, Water) <==> IsType(w, i, j, Water)
  {
  }

  /** The blaze either ends with its scan or, not put out, rises into the empty cell above. */
  lemma BlazeOutcome(a: World, x: int, y: int, d: Draws)
    requires a.Valid()
    ensures var res := Scorch(a, x, y, d, 0);
      || Blaze(a, x, y, d) == res.0
      || (!res.1 && IsEmpty(res.0, x, y - 1) && Blaze(a, x, y, d) == Swap(res.0, x, y, x, y - 1))
  {
  }

  /** From w to r exactly one water evaporated, the one in slot m, or none
      when m is past the last slot. */
  ghost predicate DousesOnly(w: World, r: World, x: int, y: int, m: nat)
    requires w.Valid() && r.Valid()
  {
    && (m < |NeighbourSlots| ==> Evaporated(w, r, x + NeighbourSlots[m].0, y + NeighbourSlots[m].1))
    && (forall i, j :: Evaporated(w, r, i, j) ==>
          m < |NeighbourSlots| && i == x + NeighbourSlots[m].0 && j == y + NeighbourSlots[m].1)
  }

  /** Which water a blaze evaporates: the first neighbour in scan order that
      holds water and whose draw says so, and no other. */
  lemma BlazeDousedFirst(a: World, x: int, y: int, d: Draws)
    requires a.Valid() && IsType(a, x, y, Fire)
    ensures DousesOnly(a, Blaze(a, x, y, d), x, y, FirstQuench(a, x, y, d, 0))
  {
    var res := Scorch(a, x, y, d, 0);
    var spot := ScanSpot(a, x, y, d);
    BlazeOutcome(a, x, y, d);
    ScanQuenchedAt(a, Blaze(a, x, y, d), res.0, x, y, res.1, spot, FirstQuench(a, x, y, d, 0));
  }

  /** The whole neighbour scan, with the spot it reports: it ends as Scorched
      describes and is put out at the first quenching slot, if any. */
  lemma ScanSpot(a: World, x: int, y: int, d: Draws) returns (spot: (int, int))
    requires a.Valid()
    ensures var res := Scorch(a, x, y, d, 0);
      && Scorched(a, res.0, x, y, res.1, spot)
      && DousedAt(a, res.0, x, y, res.1, FirstQuench(a, x, y, d, 0))
  {
    var res := Scorch(a, x, y, d, 0);
    ScorchSpec(a, x, y, d, 0);
    ScorchDousesFirst(a, x, y, d, 0);
    spot :| Scorched(a, res.0, x, y, res.1, spot);
  }

  /** The step of BlazeDousedFirst after the scan: the scan's one evaporated
      water is the reference's, and a rise evaporates nothing. */
  lemma ScanQuenchedAt(a: World, r: World, r0: World, x: int, y: int, doused: bool, spot: (int, int), m: nat)
    requires a.Valid() && r.Valid() && r0.Valid() && IsType(a, x, y, Fire)
    requires Scorched(a, r0, x, y, doused, spot) && DousedAt(a, r0, x, y, doused, m)
    requires r == r0 || (!doused && IsEmpty(r0, x, y - 1) && r == Swap(r0, x, y, x, y - 1))
    ensures DousesOnly(a, r, x, y, m)
  {
    if r != r0 {
      assert Get(r0, x, y) == Get(a, x, y);
    }
    RiseEvaporatesNothing(a, r, r0, x, y);
  }

  /** A rise after the scan turns no further water into smoke. */
  lemma RiseEvaporatesNothing(a: World, r: World, r0: World, x: int, y: int)
    requires a.Valid() && r.Valid() && r0.Valid()
    requires r == r0 || (IsType(r0, x, y, Fire) && IsEmpty(r0, x, y - 1) && r == Swap(r0, x, y, x, y - 1))
    ensures forall i, j :: Evaporated(a, r, i, j) ==> Evaporated(a, r0, i, j)
  {
    forall i, j | Evaporated(a, r, i, j)
      ensures Evaporated(a, r0, i, j)
    {
      if r != r0 {
        assert (i != x || j != y) && (i != x || j != y - 1);
        assert Get(r, i, j) == Get(r0, i, j);
      }
    }
  }

  /** Which water a live fire evaporates: the first neighbour in scan order
      that holds water and whose draw says so, and no other; when there is
      none, no water evaporates. */
  lemma FireDousedByFirstWater(w: World, x: int, y: int, p: Particle, d: Draws)
    requires w.Valid() && Get(w, x, y) == Some(p) && p.kind == Fire && !Expires(p)
    ensures DousesOnly(w, UpdateFire(w, x, y, p, d), x, y, FirstQuench(w, x, y, d, 0))
  {
    var a := Set(w, x, y, Some(Age(p)));
    LiveFireBlazes(w, x, y, p, d);
    AgedFireKeepsWater(w, x, y, p);
    BlazeDousesAsOn(w, a, x, y, d);
  }

  /** A blaze on a evaporates, seen from w, the water FirstQuench names on w,
      when a and w hold their water in the same cells. */
  lemma BlazeDousesAsOn(w: World, a: World, x: int, y: int, d: Draws)
    requires w.Valid() && a.Valid() && IsType(a, x, y, Fire)
    requires forall i, j :: IsType(a, i, j, Water) <==> IsType(w, i, j, Water)
    ensures DousesOnly(w, Blaze(a, x, y, d), x, y, FirstQuench(w, x, y, d, 0))
  {
    FirstQuenchSameWater(w, a, x, y, d, 0);
    BlazeDousedFirst(a, x, y, d);
    DousedElsewhere(w, a, Blaze(a, x, y, d), x, y, FirstQuench(a, x, y, d, 0), FirstQuench(w, x, y, d, 0));
  }

  /** What a blaze on a evaporates it evaporates on w too, when a and w hold
      their water in the same cells. */
  lemma DousedElsewhere(w: World, a: World, r: World, x: int, y: int, ma: nat, m: nat)
    requires w.Valid() && a.Valid() && r.Valid() && ma == m
    requires forall i, j :: IsType(a, i, j, Water) <==> IsType(w, i, j, Water)
    requires DousesOnly(a, r, x, y, ma)
    ensures DousesOnly(w, r, x, y, m)
  {
    EvaporatedSameWater(w, a, r);
  }

  /** Whether a water cell became smoke does not depend on anything but where the water was. */
  lemma EvaporatedSameWater(w: World, a: World, r: World)
    requires w.Valid() && a.Valid() && r.Valid()
    requires forall i, j :: IsType(a, i, j, Water) <==> IsType(w, i, j, Water)
    ensures forall i, j :: Evaporated(a, r, i, j) <==> Evaporated(w, r, i, j)
  {
  }

  /** After a spread the fire's own cell holds the aged fire or is empty. */
  lemma SpreadOwnCell(w: World, r: World, x: int, y: int, p: Particle)
    requires w.Valid() && r.Valid() && Spread(w, r, x, y, p)
    ensures Get(r, x, y) == Some(Age(p)) || Get(r, x, y) == None
  {
    if Get(r, x, y) != Some(Age(p)) && !Rose(w, r, x, y, p) {
      var i, j :| Evaporated(w, r, i, j);
    }
  }

  /** Every cell a spread changes to fire holds the aged fire itself or a
      fresh fire lit in wood. */
  lemma SpreadFireCells(w: World, r: World, x: int, y: int, p: Particle)
    requires w.Valid() && r.Valid() && Spread(w, r, x, y, p)
    ensures forall i, j :: IsType(r, i, j, Fire) && Get(r, i, j) != Get(w, i, j) ==>
              Get(r, i, j) == Some(Age(p)) || Ignited(w, r, i, j)
  {
    SpreadOwnCell(w, r, x, y, p);
  }

  /** A spread of a fire changes only soft cells around it. */
  lemma SpreadIsSoft(w: World, r: World, x: int, y: int, p: Particle)
    requires w.Valid() && r.Valid() && Get(w, x, y) == Some(p) && p.kind == Fire
    requires Spread(w, r, x, y, p)
    ensures OnlySoftCellsChange(w, r, x, y)
  {
    SpreadOwnCell(w, r, x, y, p);
  }

  /** After a live fire's dispatch its own cell holds the aged fire or is empty. */
  lemma FireKeepsOwnCell(w: World, x: int, y: int, p: Particle, d: Draws)
    requires w.Valid() && Get(w, x, y) == Some(p) && p.kind == Fire && !Expires(p)
    ensures var r := UpdateFire(w, x, y, p, d);
      Get(r, x, y) == Some(Age(p)) || Get(r, x, y) == None
  {
    FireSpreads(w, x, y, p, d);
    SpreadOwnCell(w, UpdateFire(w, x, y, p, d), x, y, p);
  }

  /** A fire dispatch changes only soft cells around it. */
  lemma FireChangesOnlySoftCells(w: World, x: int, y: int, p: Particle, d: Draws)
    requires w.Valid() && Get(w, x, y) == Some(p) && p.kind == Fire
    ensures OnlySoftCellsChange(w, UpdateFire(w, x, y, p, d), x, y)
  {
    if Expires(p) {
      FireBurnsOut(w, x, y, p, d);
    } else {
      FireSpreads(w, x, y, p, d);
      SpreadIsSoft(w, UpdateFire(w, x, y, p, d), x, y, p);
    }
  }

  // ---------------------------------------------------------------------------
  // Plant

  /** A plant never removes anything: the only cells that change are empty
      cells in the row above it (straight up or diagonal), which receive a
      fresh plant; and nothing changes unless an orthogonal neighbour is water
      and the growth draw succeeds. */
  lemma PlantOnlyGrows(w: World, x: int, y: int, d: Draws)
    requires w.Valid()
    ensures var r := UpdatePlant(w, x, y, d);
      && (forall i, j :: Get(r, i, j) != Get(w, i, j) ==>
            j == y - 1 && x - 1 <= i <= x + 1 && IsEmpty(w, i, j)
            && Get(r, i, j) == Some(Particle(Plant, false, None)))
      && (!HasWaterNeighbour(w, x, y) || !d.grows ==> r == w)
  {
  }

  /** The plant's dispatch cell by cell. With a water neighbour and a growth
      draw, the cell straight above receives a fresh plant when it is empty,
      and, independently, the cell diagonally above in the bias direction
      receives one when it is empty and the second draw says so; every other
      cell, and every cell without the water or the draw, is unchanged. */
  lemma PlantGrowsExactly(w: World, x: int, y: int, d: Draws)
    requires w.Valid()
    ensures var r := UpdatePlant(w, x, y, d);
            var on := HasWaterNeighbour(w, x, y) && d.grows;
            var dir := Dir(d.right);
      forall i, j :: Get(r, i, j) ==
        if on && i == x && j == y - 1 && IsEmpty(w, i, j) then Some(Particle(Plant, false, None))
        else if on && d.growsAside && i == x + dir && j == y - 1 && IsEmpty(w, i, j) then Some(Particle(Plant, false, None))
        else Get(w, i, j)
  {
  }

  /** Upward and diagonal growth can both happen in one dispatch. */
  lemma PlantGrowsTwice(w: World, x: int, y: int, d: Draws)
    requires w.Valid() && HasWaterNeighbour(w, x, y) && d.grows && d.growsAside
    requires IsEmpty(w, x, y - 1) && IsEmpty(w, x + Dir(d.right), y - 1)
    ensures IsType(UpdatePlant(w, x, y, d), x, y - 1, Plant)
    ensures IsType(UpdatePlant(w, x, y, d), x + Dir(d.right), y - 1, Plant)
  {
  }

  /** A plant dispatch changes only empty cells above it. */
  lemma PlantChangesOnlySoftCells(w: World, x: int, y: int, d: Draws)
    requires w.Valid() && IsType(w, x, y, Plant)
    ensures OnlySoftCellsChange(w, UpdatePlant(w, x, y, d), x, y)
  {
    PlantOnlyGrows(w, x, y, d);
  }

}
