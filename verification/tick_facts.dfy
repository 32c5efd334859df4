/** Facts about the update pass as a whole: one dispatch, one row, one tick
    and a run of ticks. */
module TickFacts {

  import opened Options
  import opened Particles
  import opened Worlds
  import opened Physics
  import opened RuleFacts

  // ---------------------------------------------------------------------------
  // Stone

  /** r has the shape of w and holds stone in exactly the cells where w does. */
  ghost predicate StoneFixed(w: World, r: World)
    requires w.Valid() && r.Valid()
  {
    && r.width == w.width && r.height == w.height
    && forall i, j :: IsType(r, i, j, Stone) <==> IsType(w, i, j, Stone)
  }

  /** A change confined to soft cells keeps every stone where it is. */
  lemma SoftKeepsStone(w: World, r: World, x: int, y: int)
    requires w.Valid() && r.Valid() && r.width == w.width && r.height == w.height
    requires OnlySoftCellsChange(w, r, x, y)
    ensures StoneFixed(w, r)
  {
    forall i, j
      ensures IsType(r, i, j, Stone) <==> IsType(w, i, j, Stone)
    {
      if (i != x || j != y) && Get(r, i, j) != Get(w, i, j) {
        assert Soft(w, i, j) && !IsType(r, i, j, Stone);
      }
    }
  }

  /** Keeping stone fixed composes. */
  lemma StoneFixedTrans(a: World, b: World, c: World)
    requires a.Valid() && b.Valid() && c.Valid()
    requires StoneFixed(a, b) && StoneFixed(b, c)
    ensures StoneFixed(a, c)
  {
  }

  /** One dispatch at (x, y) changes only soft cells near it: stone never
      moves, is never overwritten and never appears. */
  lemma StepChangesOnlySoftCells(w: World, x: int, y: int, d: Draws)
    requires w.Valid()
    ensures OnlySoftCellsChange(w, Step(w, x, y, d), x, y)
  {
    match Get(w, x, y)
    case None =>
    case Some(p) =>
      if !p.updated {
        var q := p.(updated := true);
        var w1 := Set(w, x, y, Some(q));
        var r := Step(w, x, y, d);
        if q.kind != Stone {
          SetOwnIsSoft(w, x, y, Some(q));
          match q.kind
          case Sand =>
            SandChangesOnlySoftCells(w1, x, y, d);
            SoftCompose(w, w1, r, x, y);
          case Water =>
            WaterChangesOnlySoftCells(w1, x, y, d);
            SoftCompose(w, w1, r, x, y);
          case Fire =>
            FireChangesOnlySoftCells(w1, x, y, q, d);
            SoftCompose(w, w1, r, x, y);
          case Smoke =>
            SmokeChangesOnlySoftCells(w1, x, y, q, d);
            SoftCompose(w, w1, r, x, y);
          case Plant =>
            PlantChangesOnlySoftCells(w1, x, y, d);
            SoftCompose(w, w1, r, x, y);
          case _ =>
        }
      }
  }

  /** One dispatch keeps every stone where it is. */
  lemma StepKeepsStone(w: World, x: int, y: int, d: Draws)
    requires w.Valid()
    ensures StoneFixed(w, Step(w, x, y, d))
  {
    StepChangesOnlySoftCells(w, x, y, d);
    SoftKeepsStone(w, Step(w, x, y, d), x, y);
  }

  /** Sweeping a row from its i-th visited cell on keeps every stone where it is. */
  lemma {:induction false} SweepRowKeepsStone(w: World, ch: Choices, y: int, i: nat)
    requires w.Valid() && i <= w.width
    ensures StoneFixed(w, SweepRow(w, ch, y, i))
    decreases w.width - i
  {
    if i < w.width {
      var x := Column(w.width, ch.leftToRight, i);
      var w1 := Step(w, x, y, ch.draws(x, y));
      StepKeepsStone(w, x, y, ch.draws(x, y));
      SweepRowKeepsStone(w1, ch, y, i + 1);
      StoneFixedTrans(w, w1, SweepRow(w1, ch, y, i + 1));
    }
  }

  /** Sweeping rows n-1 down to 0 keeps every stone where it is. */
  lemma {:induction false} SweepRowsKeepsStone(w: World, ch: Choices, n: nat)
    requires w.Valid() && n <= w.height
    ensures StoneFixed(w, SweepRows(w, ch, n))
    decreases n
  {
    if n > 0 {
      var w1 := SweepRow(w, ch, n - 1, 0);
      SweepRowKeepsStone(w, ch, n - 1, 0);
      SweepRowsKeepsStone(w1, ch, n - 1);
      StoneFixedTrans(w, w1, SweepRows(w1, ch, n - 1));
    }
  }

  /** A tick keeps every stone where it is, whatever the draws. */
  lemma UpdateKeepsStone(w: World, ch: Choices)
    requires w.Valid()
    ensures StoneFixed(w, Update(w, ch))
  {
    var w0 := ResetUpdated(w);
    assert StoneFixed(w, w0) by {
      forall i, j
        ensures IsType(w0, i, j, Stone) <==> IsType(w, i, j, Stone)
      {
      }
    }
    SweepRowsKeepsStone(w0, ch, w.height);
    StoneFixedTrans(w, w0, Update(w, ch));
  }

  /** Any number of ticks keeps every stone where it is. */
  lemma {:induction false} RunKeepsStone(w: World, ticks: seq<Choices>)
    requires w.Valid()
    ensures StoneFixed(w, Run(w, ticks))
    decreases |ticks|
  {
    if |ticks| > 0 {
      var w1 := Update(w, ticks[0]);
      UpdateKeepsStone(w, ticks[0]);
      RunKeepsStone(w1, ticks[1..]);
      StoneFixedTrans(w, w1, Run(w1, ticks[1..]));
    }
  }

  // ---------------------------------------------------------------------------
  // Locality

  /** A dispatch at (x, y) leaves every cell outside the rows y-1 to y+1 as it was. */
  lemma StepIsLocal(w: World, x: int, y: int, d: Draws)
    requires w.Valid()
    ensures forall i, j :: (j < y - 1 || y + 1 < j) ==> Get(Step(w, x, y, d), i, j) == Get(w, i, j)
  {
    StepChangesOnlySoftCells(w, x, y, d);
  }

  /** Sweeping row y leaves every cell outside the rows y-1 to y+1 as it was,
      because each dispatch in the row does. */
  lemma {:induction false} SweepRowIsLocal(w: World, ch: Choices, y: int, k: nat)
    requires w.Valid() && k <= w.width
    ensures forall i, j :: (j < y - 1 || y + 1 < j) ==> Get(SweepRow(w, ch, y, k), i, j) == Get(w, i, j)
    decreases w.width - k
  {
    if k < w.width {
      var x := Column(w.width, ch.leftToRight, k);
      var w1 := Step(w, x, y, ch.draws(x, y));
      StepIsLocal(w, x, y, ch.draws(x, y));
      SweepRowIsLocal(w1, ch, y, k + 1);
    }
  }

  // ---------------------------------------------------------------------------
  // Inert worlds

  /** A particle with no rule of its own: stone, wood or an explicit empty. */
  predicate Inert(p: Particle) {
    p.kind == Stone || p.kind == Wood || p.kind == Empty
  }

  /** Every particle of w is inert. */
  ghost predicate AllInert(w: World)
    requires w.Valid()
  {
    forall i, j :: Get(w, i, j).Some? ==> Inert(Get(w, i, j).value)
  }

  /** a and b hold the same particles, up to their processed flags. */
  ghost predicate SameUpToFlags(a: World, b: World)
    requires a.Valid() && b.Valid()
  {
    && a.width == b.width && a.height == b.height
    && forall i, j :: Unmark(Get(a, i, j)) == Unmark(Get(b, i, j))
  }

  /** In an all-inert world a dispatch at most marks the cell as processed. */
  lemma StepInert(w: World, x: int, y: int, d: Draws)
    requires w.Valid() && AllInert(w)
    ensures SameUpToFlags(w, Step(w, x, y, d)) && AllInert(Step(w, x, y, d))
  {
    var r := Step(w, x, y, d);
    match Get(w, x, y)
    case None =>
    case Some(p) =>
      if !p.updated {
        assert Inert(p);
        assert r == Set(w, x, y, Some(p.(updated := true)));
      }
  }

  /** In an all-inert world a row sweep at most marks cells as processed. */
  lemma {:induction false} SweepRowInert(w: World, ch: Choices, y: int, i: nat)
    requires w.Valid() && AllInert(w) && i <= w.width
    ensures SameUpToFlags(w, SweepRow(w, ch, y, i)) && AllInert(SweepRow(w, ch, y, i))
    decreases w.width - i
  {
    if i < w.width {
      var x := Column(w.width, ch.leftToRight, i);
      var w1 := Step(w, x, y, ch.draws(x, y));
      StepInert(w, x, y, ch.draws(x, y));
      SweepRowInert(w1, ch, y, i + 1);
    }
  }

  /** In an all-inert world sweeping rows at most marks cells as processed. */
  lemma {:induction false} SweepRowsInert(w: World, ch: Choices, n: nat)
    requires w.Valid() && AllInert(w) && n <= w.height
    ensures SameUpToFlags(w, SweepRows(w, ch, n)) && AllInert(SweepRows(w, ch, n))
    decreases n
  {
    if n > 0 {
      var w1 := SweepRow(w, ch, n - 1, 0);
      SweepRowInert(w, ch, n - 1, 0);
      SweepRowsInert(w1, ch, n - 1);
    }
  }

  /** A world of stone, wood and empty particles is at rest: a tick changes
      nothing but the processed flags, and the world stays all inert. */
  lemma UpdateInert(w: World, ch: Choices)
    requires w.Valid() && AllInert(w)
    ensures SameUpToFlags(w, Update(w, ch)) && AllInert(Update(w, ch))
  {
    var w0 := ResetUpdated(w);
    assert SameUpToFlags(w, w0) && AllInert(w0) by {
      forall i, j
        ensures Unmark(Get(w, i, j)) == Unmark(Get(w0, i, j))
      {
      }
    }
    SweepRowsInert(w0, ch, w.height);
  }

  /** Any number of ticks leaves an all-inert world at rest. */
  lemma {:induction false} RunInert(w: World, ticks: seq<Choices>)
    requires w.Valid() && AllInert(w)
    ensures SameUpToFlags(w, Run(w, ticks)) && AllInert(Run(w, ticks))
    decreases |ticks|
  {
    if |ticks| > 0 {
      var w1 := Update(w, ticks[0]);
      UpdateInert(w, ticks[0]);
      RunInert(w1, ticks[1..]);
    }
  }

  // ---------------------------------------------------------------------------
  // Processed flags

  /** A cell that is empty or already processed this tick is skipped. */
  lemma StepSkipsSettled(w: World, x: int, y: int, d: Draws)
    requires w.Valid() && (Get(w, x, y) == None || Get(w, x, y).value.updated)
    ensures Step(w, x, y, d) == w
  {
  }

  /** A tick starts by clearing the flags, so flags left from earlier ticks
      make no difference to its outcome. */
  lemma StaleFlagsIgnored(w: World, ch: Choices)
    requires w.Valid()
    ensures Update(w, ch) == Update(ResetUpdated(w), ch)
  {
    ResetUpdatedIdempotent(w);
  }

  /** Every cell a water dispatch fills holds a particle already marked as
      processed, so the sweep skips the water when it reaches its new cell. */
  lemma WaterMoveIsMarked(w: World, x: int, y: int, d: Draws)
    requires w.Valid() && IsType(w, x, y, Water) && !Get(w, x, y).value.updated
    ensures var r := Step(w, x, y, d);
      forall i, j :: Get(r, i, j).Some? && Get(r, i, j) != Get(w, i, j) ==> Get(r, i, j).value.updated
  {
    var q := Get(w, x, y).value.(updated := true);
    var w1 := Set(w, x, y, Some(q));
    WaterMovesIntoEmpty(w1, x, y, d);
  }

  /** Every cell other than its own that a sand dispatch fills holds the sand,
      marked as processed. Only the displaced water, which takes the cell
      being visited, keeps its flag. */
  lemma SandMoveIsMarked(w: World, x: int, y: int, d: Draws)
    requires w.Valid() && IsType(w, x, y, Sand) && !Get(w, x, y).value.updated
    ensures var r := Step(w, x, y, d);
      forall i, j :: (i != x || j != y) && Get(r, i, j).Some? && Get(r, i, j) != Get(w, i, j) ==>
        Get(r, i, j).value.updated && Get(r, i, j).value.kind == Sand
  {
    var q := Get(w, x, y).value.(updated := true);
    var w1 := Set(w, x, y, Some(q));
    SandFallsOneCell(w1, x, y, d);
  }

  /** Every cell a smoke dispatch fills holds a particle already marked as
      processed: smoke that drifts up or sideways into a cell the sweep has
      yet to visit is skipped there. */
  lemma SmokeMoveIsMarked(w: World, x: int, y: int, d: Draws)
    requires w.Valid() && IsType(w, x, y, Smoke) && !Get(w, x, y).value.updated
    ensures var r := Step(w, x, y, d);
      forall i, j :: Get(r, i, j).Some? && Get(r, i, j) != Get(w, i, j) ==> Get(r, i, j).value.updated
  {
    var q := Get(w, x, y).value.(updated := true);
    var w1 := Set(w, x, y, Some(q));
    assert Step(w, x, y, d) == UpdateSmoke(w1, x, y, q, d);
    if Expires(q) {
      SmokeVanishes(w1, x, y, q, d);
    } else {
      SmokeRises(w1, x, y, q, d);
    }
  }

  /** An unprocessed fire is marked and handed to the fire rule. */
  lemma StepDispatchesFire(w: World, x: int, y: int, d: Draws)
    requires w.Valid() && IsType(w, x, y, Fire) && !Get(w, x, y).value.updated
    ensures var q := Get(w, x, y).value.(updated := true);
      Step(w, x, y, d) == UpdateFire(Set(w, x, y, Some(q)), x, y, q, d)
  {
  }

  /** An unprocessed plant is marked and handed to the plant rule. */
  lemma StepDispatchesPlant(w: World, x: int, y: int, d: Draws)
    requires w.Valid() && IsType(w, x, y, Plant) && !Get(w, x, y).value.updated
    ensures var q := Get(w, x, y).value.(updated := true);
      Step(w, x, y, d) == UpdatePlant(Set(w, x, y, Some(q)), x, y, d)
  {
  }

  /** An unprocessed sand, water or smoke particle is marked and handed to
      its type's rule. */
  lemma StepDispatchesMovers(w: World, x: int, y: int, d: Draws)
    requires w.Valid() && Get(w, x, y).Some? && !Get(w, x, y).value.updated
    ensures var q := Get(w, x, y).value.(updated := true);
            var w1 := Set(w, x, y, Some(q));
      && (q.kind == Sand ==> Step(w, x, y, d) == UpdateSand(w1, x, y, d))
      && (q.kind == Water ==> Step(w, x, y, d) == UpdateWater(w1, x, y, d))
      && (q.kind == Smoke ==> Step(w, x, y, d) == UpdateSmoke(w1, x, y, q, d))
  {
  }

  /** A neighbour the fire has just lit is not marked as processed, so a
      dispatch of its cell is not skipped: it changes the cell. */
  lemma FreshFireIsDispatched(w: World, r: World, i: int, j: int, e: Draws)
    requires w.Valid() && r.Valid() && Ignited(w, r, i, j)
    ensures Get(Step(r, i, j, e), i, j) != Get(r, i, j)
  {
    var p := Get(r, i, j).value;
    var q := p.(updated := true);
    var r1 := Set(r, i, j, Some(q));
    StepDispatchesFire(r, i, j, e);
    FireKeepsOwnCell(r1, i, j, q, e);
  }

  /** Every cell a fire dispatch changes to fire holds either the fire itself,
      marked as processed (it stayed or rose into the row above, which the
      sweep has yet to visit), or a fresh fire lit in a wood neighbour. */
  lemma FireMoveIsMarked(w: World, x: int, y: int, d: Draws)
    requires w.Valid() && IsType(w, x, y, Fire) && !Get(w, x, y).value.updated
    ensures var r := Step(w, x, y, d);
      forall i, j :: IsType(r, i, j, Fire) && Get(r, i, j) != Get(w, i, j) ==>
        Get(r, i, j).value.updated || Ignited(w, r, i, j)
  {
    var q := Get(w, x, y).value.(updated := true);
    var w1 := Set(w, x, y, Some(q));
    var r := Step(w, x, y, d);
    StepDispatchesFire(w, x, y, d);
    if Expires(q) {
      FireBurnsOut(w1, x, y, q, d);
    } else {
      FireSpreads(w1, x, y, q, d);
      SpreadFireCells(w1, r, x, y, q);
      forall i, j | (i != x || j != y)
        ensures Ignited(w1, r, i, j) == Ignited(w, r, i, j)
      {
      }
    }
  }

  // ---------------------------------------------------------------------------
  // The column order

  /** Within a row the i-th visit is to column i left to right, or to column
      width-1-i right to left: every column is visited exactly once, starting
      at the edge the tick's direction names and stepping one column at a time. */
  lemma ColumnVisitsEachOnce(width: nat, leftToRight: bool)
    ensures forall i :: 0 <= i < width ==> 0 <= Column(width, leftToRight, i) < width
    ensures forall x :: 0 <= x < width ==> Column(width, leftToRight, Column(width, leftToRight, x)) == x
    ensures forall i, i' :: 0 <= i < width && 0 <= i' < width && i != i' ==>
              Column(width, leftToRight, i) != Column(width, leftToRight, i')
    ensures width > 0 ==> Column(width, leftToRight, 0) == (if leftToRight then 0 else width - 1)
    ensures forall i :: 0 <= i && i + 1 < width ==>
              Column(width, leftToRight, i + 1) == Column(width, leftToRight, i) + (if leftToRight then 1 else -1)
  {
  }

  /** The column direction decides the outcome: in a row of three cells
      holding water, empty, water, with the bias to the right and flow
      distance 2, a left-to-right tick ends with water, water, empty and a
      right-to-left tick with empty, water, water. */
  lemma SweepDirectionMatters(leftToRight: bool, d: Draws)
    requires d.right && d.flowFar
    ensures var w := Spawn(Spawn(NewWorld(3, 1), 0, 0, Water, 0), 2, 0, Water, 0);
            var r := Update(w, Choices(leftToRight, (i: int, j: int) => d));
      if leftToRight then IsType(r, 0, 0, Water) && IsType(r, 1, 0, Water) && Get(r, 2, 0) == None
      else Get(r, 0, 0) == None && IsType(r, 1, 0, Water) && IsType(r, 2, 0, Water)
  {
    var ch := Choices(leftToRight, (i: int, j: int) => d);
    var w := Spawn(Spawn(NewWorld(3, 1), 0, 0, Water, 0), 2, 0, Water, 0);
    var w0 := ResetUpdated(w);
    assert Get(w0, 0, 0) == Some(Particle(Water, false, None));
    assert Get(w0, 1, 0) == None;
    assert Get(w0, 2, 0) == Some(Particle(Water, false, None));
    var first := if leftToRight then 0 else 2;
    assert Column(3, leftToRight, 0) == first && Column(3, leftToRight, 1) == 1 && Column(3, leftToRight, 2) == 2 - first;
    var r1 := Step(w0, first, 0, d);
    FirstWaterFlows(w0, first, d);
    assert Step(r1, 1, 0, d) == r1;
    var r2 := Step(r1, 2 - first, 0, d);
    OtherWaterJumps(r1, 2 - first, d);
    assert SweepRow(w0, ch, 0, 0) == SweepRow(r1, ch, 0, 1) == SweepRow(r1, ch, 0, 2) == SweepRow(r2, ch, 0, 3) == r2;
    assert SweepRows(w0, ch, 1) == SweepRows(r2, ch, 0) == r2;
  }

  /** In the row of SweepDirectionMatters, the water visited first flows one
      column into the empty middle. */
  lemma FirstWaterFlows(w: World, x: int, d: Draws)
    requires w.Valid() && w.width == 3 && w.height == 1 && (x == 0 || x == 2) && d.right && d.flowFar
    requires Get(w, x, 0) == Some(Particle(Water, false, None)) && Get(w, 1, 0) == None
    ensures var r := Step(w, x, 0, d);
      && Get(r, x, 0) == None
      && Get(r, 1, 0) == Some(Particle(Water, true, None))
      && Get(r, 2 - x, 0) == Get(w, 2 - x, 0)
  {
    var a := Set(w, x, 0, Some(Particle(Water, true, None)));
    WaterTriesInOrder(a, x, 0, d);
  }

  /** In the row of SweepDirectionMatters, the water visited last jumps over
      the middle into the cell the first one left. */
  lemma OtherWaterJumps(w: World, x: int, d: Draws)
    requires w.Valid() && w.width == 3 && w.height == 1 && (x == 0 || x == 2) && d.right && d.flowFar
    requires Get(w, x, 0) == Some(Particle(Water, false, None)) && Get(w, 1, 0).Some? && Get(w, 2 - x, 0) == None
    ensures var r := Step(w, x, 0, d);
      && Get(r, x, 0) == None
      && Get(r, 1, 0) == Get(w, 1, 0)
      && Get(r, 2 - x, 0) == Some(Particle(Water, true, None))
  {
    var a := Set(w, x, 0, Some(Particle(Water, true, None)));
    WaterTriesInOrder(a, x, 0, d);
  }

  // ---------------------------------------------------------------------------
  // A concrete tick

  /** A sand grain at the top of an empty shaft one cell wide is in row 1
      after one tick, not lower: the rows below are swept before its row, and
      once it has moved it is marked as processed. */
  lemma ShaftFallsOneRow(ch: Choices)
    ensures var w := Spawn(NewWorld(1, 3), 0, 0, Sand, 0);
            var r := Update(w, ch);
      && Get(r, 0, 0) == None
      && IsType(r, 0, 1, Sand)
      && Get(r, 0, 2) == None
  {
    var w := Spawn(NewWorld(1, 3), 0, 0, Sand, 0);
    var w0 := ResetUpdated(w);
    assert Get(w0, 0, 0) == Some(Particle(Sand, false, None));
    assert Get(w0, 0, 1) == None && Get(w0, 0, 2) == None;
    var x2 := Column(1, ch.leftToRight, 0);
    assert x2 == 0;
    assert SweepRow(w0, ch, 2, 0) == SweepRow(Step(w0, 0, 2, ch.draws(0, 2)), ch, 2, 1) == w0;
    assert SweepRow(w0, ch, 1, 0) == SweepRow(Step(w0, 0, 1, ch.draws(0, 1)), ch, 1, 1) == w0;
    var w1 := Set(w0, 0, 0, Some(Particle(Sand, true, None)));
    var d := ch.draws(0, 0);
    SandTriesInOrder(w1, 0, 0, d);
    var r := Swap(w1, 0, 0, 0, 1);
    assert Step(w0, 0, 0, d) == r;
    assert SweepRow(w0, ch, 0, 0) == SweepRow(r, ch, 0, 1) == r;
    assert SweepRows(w0, ch, 3) == SweepRows(SweepRow(w0, ch, 2, 0), ch, 2);
    assert SweepRows(w0, ch, 2) == SweepRows(SweepRow(w0, ch, 1, 0), ch, 1);
    assert SweepRows(w0, ch, 1) == SweepRows(r, ch, 0) == r;
  }

  /** Sand above water above an empty cell, in a shaft one cell wide: the
      bottom-up sweep lets the water fall first, so the sand then falls into
      the cell the water left. After one tick the order from the top is
      empty, sand, water; the two never exchange. */
  lemma ShaftWaterFallsFirst(ch: Choices)
    ensures var w := Spawn(Spawn(NewWorld(1, 3), 0, 0, Sand, 0), 0, 1, Water, 0);
            var r := Update(w, ch);
      && Get(r, 0, 0) == None
      && IsType(r, 0, 1, Sand)
      && IsType(r, 0, 2, Water)
  {
    var w := Spawn(Spawn(NewWorld(1, 3), 0, 0, Sand, 0), 0, 1, Water, 0);
    var w0 := ResetUpdated(w);
    assert Get(w0, 0, 0) == Some(Particle(Sand, false, None));
    assert Get(w0, 0, 1) == Some(Particle(Water, false, None));
    assert Get(w0, 0, 2) == None;
    assert Column(1, ch.leftToRight, 0) == 0;
    assert SweepRow(w0, ch, 2, 0) == SweepRow(Step(w0, 0, 2, ch.draws(0, 2)), ch, 2, 1) == w0;
    var a1 := Set(w0, 0, 1, Some(Particle(Water, true, None)));
    WaterTriesInOrder(a1, 0, 1, ch.draws(0, 1));
    var r1 := Swap(a1, 0, 1, 0, 2);
    assert Step(w0, 0, 1, ch.draws(0, 1)) == r1;
    assert SweepRow(w0, ch, 1, 0) == SweepRow(r1, ch, 1, 1) == r1;
    var a0 := Set(r1, 0, 0, Some(Particle(Sand, true, None)));
    SandTriesInOrder(a0, 0, 0, ch.draws(0, 0));
    var r0 := Swap(a0, 0, 0, 0, 1);
    assert Step(r1, 0, 0, ch.draws(0, 0)) == r0;
    assert SweepRow(r1, ch, 0, 0) == SweepRow(r0, ch, 0, 1) == r0;
    assert SweepRows(w0, ch, 3) == SweepRows(SweepRow(w0, ch, 2, 0), ch, 2);
    assert SweepRows(w0, ch, 2) == SweepRows(SweepRow(w0, ch, 1, 0), ch, 1);
    assert SweepRows(r1, ch, 1) == SweepRows(SweepRow(r1, ch, 0, 0), ch, 0) == r0;
  }

}
