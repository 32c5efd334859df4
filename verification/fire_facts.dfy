/** The fire rule cell by cell: which neighbours a live fire lights, which
    water it evaporates, and when it rises, stated against a reference that
    names every cell's outcome directly rather than by replaying the scan. */
module FireFacts {

  import opened Options
  import opened Particles
  import opened Worlds
  import opened Physics
  import opened RuleFacts

  /** Which neighbour slot (i, j) is for a fire at (x, y), or |NeighbourSlots|
      when it is none of the eight (the fire's own cell included). */
  function SlotOf(x: int, y: int, i: int, j: int): (s: nat)
    ensures s <= |NeighbourSlots|
    ensures s < |NeighbourSlots| ==> i == x + NeighbourSlots[s].0 && j == y + NeighbourSlots[s].1
    ensures s == |NeighbourSlots| ==> !IsNeighbour(x, y, i, j)
  {
    var o := (i - x, j - y);
    if o == (-1, 0) then 0
    else if o == (1, 0) then 1
    else if o == (0, -1) then 2
    else if o == (0, 1) then 3
    else if o == (-1, -1) then 4
    else if o == (1, -1) then 5
    else if o == (-1, 1) then 6
    else if o == (1, 1) then 7
    else 8
  }

  /** The eight slots are distinct cells: slot k is found again as slot k. */
  lemma SlotOfSlot(x: int, y: int, k: nat)
    requires k < |NeighbourSlots|
    ensures SlotOf(x, y, x + NeighbourSlots[k].0, y + NeighbourSlots[k].1) == k
  {
    assert k in {0, 1, 2, 3, 4, 5, 6, 7};
  }

  /** Reference for the scan from slot k: what cell (i, j) holds afterwards.
      Slots before k are not visited. Of the visited slots, those before the
      first quenching one are lit when they hold wood and their draw says so;
      the quenching slot holds a fresh smoke and the fire's own cell is
      emptied; the slots after it are never reached. */
  function ScanCell(w: World, x: int, y: int, d: Draws, k: nat, i: int, j: int): Cell
    requires w.Valid() && k <= |NeighbourSlots|
  {
    var m := FirstQuench(w, x, y, d, k);
    var s := SlotOf(x, y, i, j);
    if i == x && j == y then (if m < |NeighbourSlots| then None else Get(w, i, j))
    else if s == |NeighbourSlots| || s < k || m < s then Get(w, i, j)
    else if s == m then Some(CreateParticle(Smoke, d.smokeRoll))
    else if IsType(w, i, j, Wood) && d.ignites(s) then Some(CreateParticle(Fire, d.fireRolls(s)))
    else Get(w, i, j)
  }

  /** Past the last slot the reference changes nothing. */
  lemma ScanCellAtEnd(w: World, x: int, y: int, d: Draws)
    requires w.Valid()
    ensures forall i, j :: Get(Scorch(w, x, y, d, |NeighbourSlots|).0, i, j) ==
              ScanCell(w, x, y, d, |NeighbourSlots|, i, j)
  {
  }

  /** A quench at slot k ends the scan as the reference says. */
  lemma ScanCellQuench(w: World, x: int, y: int, d: Draws, k: nat)
    requires w.Valid() && k < |NeighbourSlots| && WaterQuenches(w, x, y, d, k)
    ensures forall i, j :: Get(Scorch(w, x, y, d, k).0, i, j) == ScanCell(w, x, y, d, k, i, j)
  {
    var nx := x + NeighbourSlots[k].0;
    var ny := y + NeighbourSlots[k].1;
    SlotIsNeighbour(x, y, k);
    assert SlotLit(w, x, y, d, k) == w;
    assert Scorch(w, x, y, d, k) == (Douse(w, x, y, nx, ny, d.smokeRoll), true);
    assert FirstQuench(w, x, y, d, k) == k;
    var r := Douse(w, x, y, nx, ny, d.smokeRoll);
    forall i, j
      ensures Get(r, i, j) == ScanCell(w, x, y, d, k, i, j)
    {
      if i == nx && j == ny {
        SlotOfSlot(x, y, k);
      } else if i != x || j != y {
        QuenchCellOther(w, r, x, y, d, k, i, j);
      }
    }
  }

  /** A cell that is neither the quenching slot nor the fire's keeps its content. */
  lemma QuenchCellOther(w: World, r: World, x: int, y: int, d: Draws, k: nat, i: int, j: int)
    requires w.Valid() && r.Valid() && k < |NeighbourSlots| && FirstQuench(w, x, y, d, k) == k
    requires i != x || j != y
    requires i != x + NeighbourSlots[k].0 || j != y + NeighbourSlots[k].1
    requires Get(r, i, j) == Get(w, i, j)
    ensures Get(r, i, j) == ScanCell(w, x, y, d, k, i, j)
  {
    var s := SlotOf(x, y, i, j);
    if s < |NeighbourSlots| && s == k {
      SlotOfSlot(x, y, k);
    }
  }

  /** A slot that does not quench hands the reference on to the next slot. */
  lemma ScanCellPass(w: World, x: int, y: int, d: Draws, k: nat)
    requires w.Valid() && k < |NeighbourSlots| && !WaterQuenches(w, x, y, d, k)
    ensures forall i, j :: ScanCell(SlotLit(w, x, y, d, k), x, y, d, k + 1, i, j) == ScanCell(w, x, y, d, k, i, j)
  {
    PassCellSlot(w, x, y, d, k);
    PassCellsOther(w, x, y, d, k);
  }

  /** ScanCellPass for every cell other than slot k. */
  lemma PassCellsOther(w: World, x: int, y: int, d: Draws, k: nat)
    requires w.Valid() && k < |NeighbourSlots| && !WaterQuenches(w, x, y, d, k)
    ensures forall i, j :: (i != x + NeighbourSlots[k].0 || j != y + NeighbourSlots[k].1) ==>
              ScanCell(SlotLit(w, x, y, d, k), x, y, d, k + 1, i, j) == ScanCell(w, x, y, d, k, i, j)
  {
    var w1 := SlotLit(w, x, y, d, k);
    QuenchSkipsSlot(w, x, y, d, k);
    LightWoodSpec(w, x + NeighbourSlots[k].0, y + NeighbourSlots[k].1, d.ignites(k), d.fireRolls(k));
    forall i, j | i != x + NeighbourSlots[k].0 || j != y + NeighbourSlots[k].1
      ensures ScanCell(w1, x, y, d, k + 1, i, j) == ScanCell(w, x, y, d, k, i, j)
    {
      PassCellOther(w, w1, x, y, d, k, i, j);
    }
  }

  /** The step of ScanCellPass for slot k itself: it is lit as the reference says. */
  lemma PassCellSlot(w: World, x: int, y: int, d: Draws, k: nat)
    requires w.Valid() && k < |NeighbourSlots| && !WaterQuenches(w, x, y, d, k)
    ensures var nx := x + NeighbourSlots[k].0;
            var ny := y + NeighbourSlots[k].1;
      ScanCell(SlotLit(w, x, y, d, k), x, y, d, k + 1, nx, ny) == ScanCell(w, x, y, d, k, nx, ny)
  {
    QuenchSkipsSlot(w, x, y, d, k);
    SlotIsNeighbour(x, y, k);
    SlotOfSlot(x, y, k);
    assert k < FirstQuench(w, x, y, d, k);
  }

  /** The step of ScanCellPass for a cell other than slot k. */
  lemma PassCellOther(w: World, w1: World, x: int, y: int, d: Draws, k: nat, i: int, j: int)
    requires w.Valid() && w1.Valid() && k < |NeighbourSlots|
    requires FirstQuench(w, x, y, d, k) == FirstQuench(w1, x, y, d, k + 1)
    requires i != x + NeighbourSlots[k].0 || j != y + NeighbourSlots[k].1
    requires Get(w1, i, j) == Get(w, i, j)
    ensures ScanCell(w1, x, y, d, k + 1, i, j) == ScanCell(w, x, y, d, k, i, j)
  {
    var s := SlotOf(x, y, i, j);
    if s < |NeighbourSlots| && s == k {
      SlotOfSlot(x, y, k);
    }
    assert IsType(w1, i, j, Wood) == IsType(w, i, j, Wood);
  }

  /** The neighbour scan from slot k gives, cell by cell, what the reference says. */
  lemma {:induction false} ScorchExact(w: World, x: int, y: int, d: Draws, k: nat)
    requires w.Valid() && k <= |NeighbourSlots|
    ensures forall i, j :: Get(Scorch(w, x, y, d, k).0, i, j) == ScanCell(w, x, y, d, k, i, j)
    decreases |NeighbourSlots| - k
  {
    if k == |NeighbourSlots| {
      ScanCellAtEnd(w, x, y, d);
    } else if WaterQuenches(w, x, y, d, k) {
      ScanCellQuench(w, x, y, d, k);
    } else {
      var w1 := SlotLit(w, x, y, d, k);
      ScorchExact(w1, x, y, d, k + 1);
      QuenchSkipsSlot(w, x, y, d, k);
      ScanCellPass(w, x, y, d, k);
    }
  }

  /** Whether a live fire at (x, y) rises: no neighbour's water evaporates,
      the draw says so and the cell above was empty. */
  ghost predicate Rises(w: World, x: int, y: int, d: Draws)
    requires w.Valid()
  {
    FirstQuench(w, x, y, d, 0) == |NeighbourSlots| && d.rises && IsEmpty(w, x, y - 1)
  }

  /** Reference for one dispatch of a live fire p at (x, y): what cell (i, j)
      holds afterwards. The fire's own cell is emptied when it is put out or
      rises and otherwise holds the aged fire; the cell above takes the aged
      fire when it rises; every other cell is as the scan from slot 0 leaves it. */
  ghost function FireCell(w: World, x: int, y: int, p: Particle, d: Draws, i: int, j: int): Cell
    requires w.Valid()
  {
    var rises := Rises(w, x, y, d);
    if i == x && j == y then
      (if FirstQuench(w, x, y, d, 0) < |NeighbourSlots| || rises then None else Some(Age(p)))
    else if rises && i == x && j == y - 1 then Some(Age(p))
    else ScanCell(w, x, y, d, 0, i, j)
  }

  /** Ageing the fire in its own cell does not change the scan's reference
      anywhere else. */
  lemma ScanCellAged(w: World, a: World, x: int, y: int, d: Draws, i: int, j: int)
    requires w.Valid() && a.Valid() && (i != x || j != y)
    requires FirstQuench(a, x, y, d, 0) == FirstQuench(w, x, y, d, 0)
    requires Get(a, i, j) == Get(w, i, j)
    ensures ScanCell(a, x, y, d, 0, i, j) == ScanCell(w, x, y, d, 0, i, j)
  {
    assert IsType(a, i, j, Wood) == IsType(w, i, j, Wood);
  }

  /** The scan on the aged world a leaves every cell as the reference on w says,
      except the fire's own cell and, when it rises, the cell above. */
  lemma ScanAgedCells(w: World, a: World, x: int, y: int, d: Draws)
    requires w.Valid() && a.Valid()
    requires FirstQuench(a, x, y, d, 0) == FirstQuench(w, x, y, d, 0)
    requires forall i, j :: (i != x || j != y) ==> Get(a, i, j) == Get(w, i, j)
    ensures forall i, j :: (i != x || j != y) ==> ScanCell(a, x, y, d, 0, i, j) == ScanCell(w, x, y, d, 0, i, j)
  {
    forall i, j | i != x || j != y
      ensures ScanCell(a, x, y, d, 0, i, j) == ScanCell(w, x, y, d, 0, i, j)
    {
      ScanCellAged(w, a, x, y, d, i, j);
    }
  }

  /** When the scan is not put out, the cell above the fire is empty after it
      exactly when it was empty before. */
  lemma AboveAfterScan(w: World, r: World, x: int, y: int, d: Draws)
    requires w.Valid() && r.Valid() && r.width == w.width && r.height == w.height
    requires FirstQuench(w, x, y, d, 0) == |NeighbourSlots|
    requires Get(r, x, y - 1) == ScanCell(w, x, y, d, 0, x, y - 1)
    ensures IsEmpty(r, x, y - 1) <==> IsEmpty(w, x, y - 1)
  {
    SlotOfSlot(x, y, 2);
  }

  /** The blaze on the aged world a, cell by cell, given what the scan does. */
  lemma BlazeCells(w: World, a: World, x: int, y: int, p: Particle, d: Draws)
    requires w.Valid() && a.Valid() && a.width == w.width && a.height == w.height
    requires Get(w, x, y) == Some(p) && Get(a, x, y) == Some(Age(p))
    requires FirstQuench(a, x, y, d, 0) == FirstQuench(w, x, y, d, 0)
    requires forall i, j :: (i != x || j != y) ==> ScanCell(a, x, y, d, 0, i, j) == ScanCell(w, x, y, d, 0, i, j)
    requires forall i, j :: Get(Scorch(a, x, y, d, 0).0, i, j) == ScanCell(a, x, y, d, 0, i, j)
    requires Scorch(a, x, y, d, 0).1 <==> FirstQuench(w, x, y, d, 0) < |NeighbourSlots|
    ensures forall i, j :: Get(Blaze(a, x, y, d), i, j) == FireCell(w, x, y, p, d, i, j)
  {
    var s := Scorch(a, x, y, d, 0).0;
    forall i, j
      ensures Get(Blaze(a, x, y, d), i, j) == FireCell(w, x, y, p, d, i, j)
    {
      BlazeCell(w, a, s, x, y, p, d, i, j);
    }
  }

  /** One cell of BlazeCells, with the scan's facts taken at the cells involved. */
  lemma BlazeCell(w: World, a: World, s: World, x: int, y: int, p: Particle, d: Draws, i: int, j: int)
    requires w.Valid() && a.Valid() && a.width == w.width && a.height == w.height
    requires Get(w, x, y) == Some(p) && Get(a, x, y) == Some(Age(p))
    requires FirstQuench(a, x, y, d, 0) == FirstQuench(w, x, y, d, 0)
    requires s == Scorch(a, x, y, d, 0).0
    requires Scorch(a, x, y, d, 0).1 <==> FirstQuench(w, x, y, d, 0) < |NeighbourSlots|
    requires (i != x || j != y) ==> ScanCell(a, x, y, d, 0, i, j) == ScanCell(w, x, y, d, 0, i, j)
    requires ScanCell(a, x, y, d, 0, x, y - 1) == ScanCell(w, x, y, d, 0, x, y - 1)
    requires Get(s, i, j) == ScanCell(a, x, y, d, 0, i, j)
    requires Get(s, x, y) == ScanCell(a, x, y, d, 0, x, y)
    requires Get(s, x, y - 1) == ScanCell(a, x, y, d, 0, x, y - 1)
    ensures Get(Blaze(a, x, y, d), i, j) == FireCell(w, x, y, p, d, i, j)
  {
    if FirstQuench(w, x, y, d, 0) == |NeighbourSlots| {
      AboveAfterScan(w, s, x, y, d);
    }
  }

  /** One dispatch of a live fire, cell by cell, is what the reference says:
      the wood it lights, the water that evaporates, and whether it rises. */
  lemma FireExact(w: World, x: int, y: int, p: Particle, d: Draws)
    requires w.Valid() && Get(w, x, y) == Some(p) && p.kind == Fire && !Expires(p)
    ensures forall i, j :: Get(UpdateFire(w, x, y, p, d), i, j) == FireCell(w, x, y, p, d, i, j)
  {
    var a := Set(w, x, y, Some(Age(p)));
    LiveFireBlazes(w, x, y, p, d);
    AgedFireKeepsWater(w, x, y, p);
    FirstQuenchSameWater(w, a, x, y, d, 0);
    ScanAgedCells(w, a, x, y, d);
    ScorchExact(a, x, y, d, 0);
    ScorchDousesFirst(a, x, y, d, 0);
    BlazeCells(w, a, x, y, p, d);
  }

  /** A live fire rises exactly when no neighbour's water evaporates, the draw
      says so and the cell above was empty. */
  lemma FireRisesExactly(w: World, x: int, y: int, p: Particle, d: Draws)
    requires w.Valid() && Get(w, x, y) == Some(p) && p.kind == Fire && !Expires(p)
    ensures Rose(w, UpdateFire(w, x, y, p, d), x, y, p) <==> Rises(w, x, y, d)
  {
    FireExact(w, x, y, p, d);
    SlotOfSlot(x, y, 2);
  }
}
