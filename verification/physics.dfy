/** The update engine: one in-place pass over the grid per tick. Rows are
    visited from the bottom up, columns in a direction chosen per tick, and
    every particle not yet processed this tick is marked and handed to the
    rule for its type. Every random draw of the engine is an explicit input. */
module Physics {

  import opened Options
  import opened Particles
  import opened Worlds

  /** A lifetime roll for a fresh fire, `floor(random * 30)`. */
  type FireRoll = r: int | 0 <= r < FireLifetimeSpan

  /** A lifetime roll for a fresh smoke, `floor(random * 40)`. */
  type SmokeRoll = r: int | 0 <= r < SmokeLifetimeSpan

  /** The random draws one dispatch may consume. Fire indexes its per-neighbour
      draws by the neighbour's slot in the scan order. */
  datatype Draws = Draws(
    right: bool,                // bias direction: +1 when true, -1 otherwise
    flowFar: bool,              // water probes up to 2 cells sideways when true, 1 otherwise
    toSmoke: bool,              // a burnt-out fire becomes smoke rather than vanishing
    smokeRoll: SmokeRoll,       // lifetime roll of the one smoke a dispatch may create
    ignites: int -> bool,       // the wood neighbour in slot k catches fire
    fireRolls: int -> FireRoll, // lifetime roll of the fire lit in slot k
    evaporates: int -> bool,    // the water neighbour in slot k evaporates
    rises: bool,                // fire tries to move up
    grows: bool,                // a watered plant tries to grow
    growsAside: bool)           // ... and also diagonally

  /** The draws of one tick: the column direction, and the draws of the
      dispatch at each cell (every cell is visited once per tick). */
  datatype Choices = Choices(leftToRight: bool, draws: (int, int) -> Draws)

  /** The bias direction a boolean draw selects. */
  function Dir(right: bool): int {
    if right then 1 else -1
  }

  // ---------------------------------------------------------------------------
  // Movement tests

  /** Sand may fall into an in-bounds cell that is empty or holds water. */
  function CanFallThrough(w: World, x: int, y: int): (b: bool)
    requires w.Valid()
    ensures b <==> IsEmpty(w, x, y) || IsType(w, x, y, Water)
  {
    if !InBounds(w, x, y) then false
    else
      var p := Get(w, x, y);
      p == None || p.value.kind == Water
  }

  /** Water only ever moves into an empty cell: unlike sand, it never
      displaces another particle. */
  function CanWaterOccupy(w: World, x: int, y: int): (b: bool)
    requires w.Valid()
    ensures b <==> InBounds(w, x, y) && Get(w, x, y) == None
    ensures b ==> CanFallThrough(w, x, y) && !IsType(w, x, y, Water)
  {
    IsEmpty(w, x, y)
  }

  /** Moves sand into (x2, y2) when that cell holds nothing or water, by
      exchanging the two cells; any other occupant blocks the move. */
  function SwapOrFall(w: World, x1: int, y1: int, x2: int, y2: int): (r: World)
    requires w.Valid()
    ensures r.Valid() && r.width == w.width && r.height == w.height
    ensures CanFallThrough(w, x2, y2) ==> r == Swap(w, x1, y1, x2, y2)
    ensures !CanFallThrough(w, x2, y2) ==> r == w
  {
    var target := Get(w, x2, y2);
    if target == None then Swap(w, x1, y1, x2, y2)
    else if target.value.kind == Water then Swap(w, x1, y1, x2, y2)
    else w
  }

  /** Whether a mover of type `mover` may enter (x, y): sand falls through
      water, water needs an empty cell, and so does everything else. */
  function Admits(w: World, mover: ParticleType, x: int, y: int): bool
    requires w.Valid()
  {
    if mover == Sand then CanFallThrough(w, x, y)
    else if mover == Water then CanWaterOccupy(w, x, y)
    else IsEmpty(w, x, y)
  }

  // ---------------------------------------------------------------------------
  // Probing a list of candidate cells

  /** Relative cells a mover probes, in the order they are tried. */
  type Probes = seq<(int, int)>

  /** The index of the first probe that admits the mover, or |probes| when none does. */
  function FirstOpen(w: World, x: int, y: int, probes: Probes, mover: ParticleType): (i: nat)
    requires w.Valid()
    ensures i <= |probes|
    ensures i < |probes| ==> Admits(w, mover, x + probes[i].0, y + probes[i].1)
    ensures forall k :: 0 <= k < i ==> !Admits(w, mover, x + probes[k].0, y + probes[k].1)
    decreases |probes|
  {
    if |probes| == 0 then 0
    else if Admits(w, mover, x + probes[0].0, y + probes[0].1) then 0
    else 1 + FirstOpen(w, x, y, probes[1..], mover)
  }

  /** Tries the probes in order and moves the particle at (x, y) into the first
      cell that admits it; later probes are not tried, and if none admits
      nothing moves. Sand moves through SwapOrFall, everything else by a swap. */
  function MoveFirst(w: World, x: int, y: int, probes: Probes, mover: ParticleType): (r: World)
    requires w.Valid()
    ensures r.Valid() && r.width == w.width && r.height == w.height
    decreases |probes|
  {
    if |probes| == 0 then w
    else
      var tx := x + probes[0].0;
      var ty := y + probes[0].1;
      if Admits(w, mover, tx, ty) then
        if mover == Sand then SwapOrFall(w, x, y, tx, ty) else Swap(w, x, y, tx, ty)
      else MoveFirst(w, x, y, probes[1..], mover)
  }

  /** Sand: straight down, then diagonally down in the bias direction, then the other way. */
  function SandProbes(dir: int): Probes {
    [(0, 1), (dir, 1), (-dir, 1)]
  }

  /** Water probes sideways `dist` cells one by one in direction `step`. */
  function FlowProbes(step: int, dist: nat): Probes {
    FlowFrom(step, step, dist)
  }

  /** `n` sideways probes starting `offset` columns away, `step` apart. */
  function FlowFrom(offset: int, step: int, n: nat): Probes
    decreases n
  {
    if n == 0 then [] else [(offset, 0)] + FlowFrom(offset + step, step, n - 1)
  }

  /** Water: the three cells below as sand does, then up to `flowDist` cells
      sideways in the bias direction, then as far the other way. */
  function WaterProbes(dir: int, flowDist: nat): Probes {
    [(0, 1), (dir, 1), (-dir, 1)] + (FlowProbes(dir, flowDist) + FlowProbes(-dir, flowDist))
  }

  /** Smoke: straight up, diagonally up in the bias direction, then the
      other diagonal, then sideways in the bias direction only. */
  function SmokeProbes(dir: int): Probes {
    [(0, -1), (dir, -1), (-dir, -1), (dir, 0)]
  }

  // ---------------------------------------------------------------------------
  // Per-type rules

  function UpdateSand(w: World, x: int, y: int, d: Draws): (r: World)
    requires w.Valid()
    ensures r.Valid() && r.width == w.width && r.height == w.height
  {
    MoveFirst(w, x, y, SandProbes(Dir(d.right)), Sand)
  }

  function UpdateWater(w: World, x: int, y: int, d: Draws): (r: World)
    requires w.Valid()
    ensures r.Valid() && r.width == w.width && r.height == w.height
  {
    var flowDist := if d.flowFar then 2 else 1;
    MoveFirst(w, x, y, WaterProbes(Dir(d.right), flowDist), Water)
  }

  /** A particle with one tick taken off its lifetime, if it has one. */
  function Age(p: Particle): Particle {
    if p.lifetime.Some? then p.(lifetime := Some(p.lifetime.value - 1)) else p
  }

  /** Whether the particle's lifetime runs out in this dispatch. */
  predicate Expires(p: Particle) {
    p.lifetime.Some? && p.lifetime.value - 1 <= 0
  }

  /** The eight neighbour offsets in the order the fire scans them: left,
      right, up, down, then the four diagonals. */
  const NeighbourSlots: Probes :=
    [(-1, 0), (1, 0), (0, -1), (0, 1), (-1, -1), (1, -1), (-1, 1), (1, 1)]

  /** Scans the fire's neighbour slots k.. in order. A wood neighbour may be
      replaced by a fresh fire; the first water neighbour that evaporates turns
      into a fresh smoke, the fire's own cell becomes empty and the scan stops.
      The flag says whether the fire was put out. */
  function Scorch(w: World, x: int, y: int, d: Draws, k: nat): (res: (World, bool))
    requires w.Valid() && k <= |NeighbourSlots|
    ensures res.0.Valid() && res.0.width == w.width && res.0.height == w.height
    decreases |NeighbourSlots| - k
  {
    if k == |NeighbourSlots| then (w, false)
    else
      var nx := x + NeighbourSlots[k].0;
      var ny := y + NeighbourSlots[k].1;
      var w1 := LightWood(w, nx, ny, d.ignites(k), d.fireRolls(k));
      if IsType(w1, nx, ny, Water) && d.evaporates(k) then
        (Douse(w1, x, y, nx, ny, d.smokeRoll), true)
      else
        Scorch(w1, x, y, d, k + 1)
  }

  /** A wood cell at (nx, ny) is replaced by a fresh fire when the draw says so. */
  function LightWood(w: World, nx: int, ny: int, ignites: bool, roll: FireRoll): (r: World)
    requires w.Valid()
    ensures r.Valid() && r.width == w.width && r.height == w.height
  {
    if IsType(w, nx, ny, Wood) && ignites then Set(w, nx, ny, Some(CreateParticle(Fire, roll))) else w
  }

  /** The water at (nx, ny) turns into a fresh smoke and the fire at (x, y) goes out. */
  function Douse(w: World, x: int, y: int, nx: int, ny: int, roll: SmokeRoll): (r: World)
    requires w.Valid()
    ensures r.Valid() && r.width == w.width && r.height == w.height
  {
    Set(Set(w, nx, ny, Some(CreateParticle(Smoke, roll))), x, y, None)
  }

  /** A live fire spreads to wood, may be put out by water, and otherwise may rise. */
  function Blaze(w: World, x: int, y: int, d: Draws): (r: World)
    requires w.Valid()
    ensures r.Valid() && r.width == w.width && r.height == w.height
  {
    var res := Scorch(w, x, y, d, 0);
    if res.1 then res.0
    else if d.rises && IsEmpty(res.0, x, y - 1) then Swap(res.0, x, y, x, y - 1)
    else res.0
  }

  /** Fire: its lifetime is counted down; when it runs out the cell becomes a
      fresh smoke or empty and nothing else happens this dispatch. */
  function UpdateFire(w: World, x: int, y: int, p: Particle, d: Draws): (r: World)
    requires w.Valid()
    ensures r.Valid() && r.width == w.width && r.height == w.height
  {
    if p.lifetime.Some? then
      var w1 := Set(w, x, y, Some(Age(p)));
      if Expires(p) then
        if d.toSmoke then Set(w1, x, y, Some(CreateParticle(Smoke, d.smokeRoll)))
        else Set(w1, x, y, None)
      else Blaze(w1, x, y, d)
    else Blaze(w, x, y, d)
  }

  /** Smoke: its lifetime is counted down; when it runs out the cell empties,
      otherwise the smoke drifts into the first empty probe. */
  function UpdateSmoke(w: World, x: int, y: int, p: Particle, d: Draws): (r: World)
    requires w.Valid()
    ensures r.Valid() && r.width == w.width && r.height == w.height
  {
    if p.lifetime.Some? then
      var w1 := Set(w, x, y, Some(Age(p)));
      if Expires(p) then Set(w1, x, y, None)
      else MoveFirst(w1, x, y, SmokeProbes(Dir(d.right)), Smoke)
    else MoveFirst(w, x, y, SmokeProbes(Dir(d.right)), Smoke)
  }

  /** Whether one of the four orthogonal neighbours of (x, y) is water. */
  predicate HasWaterNeighbour(w: World, x: int, y: int)
    requires w.Valid()
  {
    || IsType(w, x - 1, y, Water)
    || IsType(w, x + 1, y, Water)
    || IsType(w, x, y - 1, Water)
    || IsType(w, x, y + 1, Water)
  }

  /** Plant: next to water it may grow a new plant into the empty cell above,
      and may in addition grow one diagonally up in the bias direction. */
  function UpdatePlant(w: World, x: int, y: int, d: Draws): (r: World)
    requires w.Valid()
    ensures r.Valid() && r.width == w.width && r.height == w.height
  {
    if HasWaterNeighbour(w, x, y) && d.grows then
      var w1 := if IsEmpty(w, x, y - 1) then Spawn(w, x, y - 1, Plant, 0) else w;
      var dir := Dir(d.right);
      if d.growsAside && IsEmpty(w1, x + dir, y - 1) then Spawn(w1, x + dir, y - 1, Plant, 0)
      else w1
    else w
  }

  // ---------------------------------------------------------------------------
  // The pass

  /** Visits cell (x, y): an empty cell or a particle already processed this
      tick is skipped; otherwise the particle is marked processed and handed to
      the rule for its type. Stone, Wood (and a particle of type Empty) have no rule. */
  function Step(w: World, x: int, y: int, d: Draws): (r: World)
    requires w.Valid()
    ensures r.Valid() && r.width == w.width && r.height == w.height
  {
    match Get(w, x, y)
    case None => w
    case Some(p) =>
      if p.updated then w
      else
        var q := p.(updated := true);
        var w1 := Set(w, x, y, Some(q));
        match q.kind
        case Sand => UpdateSand(w1, x, y, d)
        case Water => UpdateWater(w1, x, y, d)
        case Fire => UpdateFire(w1, x, y, q, d)
        case Smoke => UpdateSmoke(w1, x, y, q, d)
        case Plant => UpdatePlant(w1, x, y, d)
        case _ => w1
  }

  /** The column visited i-th within a row. */
  function Column(width: nat, leftToRight: bool, i: int): int {
    if leftToRight then i else width - 1 - i
  }

  /** Visits the cells of row y from the i-th in visiting order to the end of the row. */
  function SweepRow(w: World, ch: Choices, y: int, i: nat): (r: World)
    requires w.Valid() && i <= w.width
    ensures r.Valid() && r.width == w.width && r.height == w.height
    decreases w.width - i
  {
    if i == w.width then w
    else
      var x := Column(w.width, ch.leftToRight, i);
      SweepRow(Step(w, x, y, ch.draws(x, y)), ch, y, i + 1)
  }

  /** Visits rows n-1 down to 0. */
  function SweepRows(w: World, ch: Choices, n: nat): (r: World)
    requires w.Valid() && n <= w.height
    ensures r.Valid() && r.width == w.width && r.height == w.height
    decreases n
  {
    if n == 0 then w
    else SweepRows(SweepRow(w, ch, n - 1, 0), ch, n - 1)
  }

  /** One tick: clear every processed flag, then visit every row from the bottom up. */
  function Update(w: World, ch: Choices): (r: World)
    requires w.Valid()
    ensures r.Valid() && r.width == w.width && r.height == w.height
  {
    SweepRows(ResetUpdated(w), ch, w.height)
  }

  /** Several ticks in a row, one set of draws per tick. */
  function Run(w: World, ticks: seq<Choices>): (r: World)
    requires w.Valid()
    ensures r.Valid() && r.width == w.width && r.height == w.height
    decreases |ticks|
  {
    if |ticks| == 0 then w else Run(Update(w, ticks[0]), ticks[1..])
  }

}
